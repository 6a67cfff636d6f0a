/** One-time code generation and the code e-mails (helper/email/email.go).

    The random draws `rand.Intn(10)` are an input: one index below ten per
    character. Sending mail over SMTP is not part of this module. */
module Email {
  import opened GoStrings

  const Charset: string := "0123456789"
  const CodeLength: nat := 4

  const ResetHeader: string := "Pemulihan Kata Sandi - Kode OTP Dikirimkan untuk Anda"
  const VerificationHeader: string := "Verifikasi Akun anda - Kode OTP Dikirimkan untuk Anda"

  /** The draws of one code: one index into the charset per character. */
  predicate ValidDraws(draws: seq<nat>, length: nat) {
    |draws| == length && forall i :: 0 <= i < |draws| ==> draws[i] < |Charset|
  }

  predicate IsDigits(s: string) {
    forall i :: 0 <= i < |s| ==> '0' <= s[i] <= '9'
  }

  /** The code the draws select. */
  function CodeOf(draws: seq<nat>): (code: string)
    requires ValidDraws(draws, |draws|)
    ensures |code| == |draws| && IsDigits(code)
  {
    seq(|draws|, i requires 0 <= i < |draws| => Charset[draws[i]])
  }

  /** Fills a byte buffer of `length` characters, one drawn character at a time. */
  method GenerateRandomCode(length: nat, draws: seq<nat>) returns (code: string)
    requires ValidDraws(draws, length)
    ensures |code| == length
    ensures IsDigits(code)
    ensures forall i :: 0 <= i < length ==> code[i] == Charset[draws[i]]
  {
    var buf := new char[length];
    var i := 0;
    while i < length
      invariant 0 <= i <= length
      invariant forall j :: 0 <= j < i ==> buf[j] == Charset[draws[j]]
    {
      buf[i] := Charset[draws[i]];
      i := i + 1;
    }
    code := buf[..];
  }

  /** An HTML page with two holes, for the username and for the code. */
  datatype Template = Template(beforeName: string, beforeCode: string, afterCode: string)

  function Render(t: Template, username: string, code: string): string {
    t.beforeName + username + t.beforeCode + code + t.afterCode
  }

  const ResetTemplate: Template := Template(
    "<!DOCTYPE html><html lang=\"en\"><head><meta charset=\"UTF-8\"><title>Kode Verifikasi</title></head><body>"
      + "<table align=\"center\"><tr><td>Halo, ",
    "</td></tr><tr><td>Kami melihat bahwa Anda mengalami kesulitan untuk mengakses akun Anda. "
      + "Kami telah mengirimkan kode OTP ke alamat email terkait dengan akun Anda.</td></tr>"
      + "<tr><td><button>",
    "</button></td></tr><tr><td>Silakan gunakan kode ini untuk mengatur ulang kata sandi Anda.</td></tr>"
      + "</table></body></html>")

  const VerificationTemplate: Template := Template(
    "<!DOCTYPE html><html lang=\"en\"><head><meta charset=\"UTF-8\"><title>Kode Verifikasi Akun</title></head><body>"
      + "<table align=\"center\"><tr><td>Halo, ",
    "</td></tr><tr><td>Terimakasih sudah mendaftar, berikut code verifikasi anda untuk mengaktifkan akun</td></tr>"
      + "<tr><td><button>",
    "</button></td></tr><tr><td>Silahkan gunakan kode ini untuk mengaktifkan akun ada.</td></tr>"
      + "</table></body></html>")

  /** The subject line and HTML body of the password-reset mail. */
  function HtmlBodyEmailReset(username: string, code: string): (r: (string, string))
    ensures r.0 == ResetHeader
    ensures Contains(r.1, username) && Contains(r.1, code)
  {
    RenderShows(ResetTemplate, username, code);
    (ResetHeader, Render(ResetTemplate, username, code))
  }

  /** The subject line and HTML body of the account-verification mail. */
  function HtmlBodyEmailVerification(username: string, code: string): (r: (string, string))
    ensures r.0 == VerificationHeader
    ensures Contains(r.1, username) && Contains(r.1, code)
  {
    RenderShows(VerificationTemplate, username, code);
    (VerificationHeader, Render(VerificationTemplate, username, code))
  }

  /** A rendered page shows both the username and the code. */
  lemma {:induction false} RenderShows(t: Template, username: string, code: string)
    ensures Contains(Render(t, username, code), username)
    ensures Contains(Render(t, username, code), code)
  {
    ContainsInConcat(t.beforeName, username, t.beforeCode + code + t.afterCode);
    assert Render(t, username, code) == t.beforeName + username + (t.beforeCode + code + t.afterCode);
    ContainsInConcat(t.beforeName + username + t.beforeCode, code, t.afterCode);
  }

  /** Draws a four-digit code and builds the reset mail around it. */
  method HTMLBodyReset(username: string, draws: seq<nat>) returns (header: string, body: string, code: string)
    requires ValidDraws(draws, CodeLength)
    ensures code == CodeOf(draws) && |code| == CodeLength && IsDigits(code)
    ensures (header, body) == HtmlBodyEmailReset(username, code)
    ensures header == ResetHeader
    ensures Contains(body, code) && Contains(body, username)
  {
    code := GenerateRandomCode(CodeLength, draws);
    header, body := HtmlBodyEmailReset(username, code).0, HtmlBodyEmailReset(username, code).1;
    RenderShows(ResetTemplate, username, code);
  }

  /** Draws a four-digit code and builds the verification mail around it. */
  method HTMLBodyVerification(username: string, draws: seq<nat>) returns (header: string, body: string, code: string)
    requires ValidDraws(draws, CodeLength)
    ensures code == CodeOf(draws) && |code| == CodeLength && IsDigits(code)
    ensures (header, body) == HtmlBodyEmailVerification(username, code)
    ensures header == VerificationHeader
    ensures Contains(body, code) && Contains(body, username)
  {
    code := GenerateRandomCode(CodeLength, draws);
    header, body := HtmlBodyEmailVerification(username, code).0, HtmlBodyEmailVerification(username, code).1;
    RenderShows(VerificationTemplate, username, code);
  }
}
