/** The functions of Go's `strings` and `strconv` packages that the core calls,
    restricted to ASCII text (Unicode case mapping and Unicode white space are
    not part of this model). */
module GoStrings {

  /** `strings.HasPrefix(s, prefix)`. */
  predicate HasPrefix(s: string, prefix: string) {
    |prefix| <= |s| && s[..|prefix|] == prefix
  }

  /** `strings.Contains(s, sub)`: `sub` occurs somewhere in `s`. */
  predicate Contains(s: string, sub: string) {
    exists i | 0 <= i <= |s| - |sub| :: OccursAt(s, sub, i)
  }

  /** `sub` occurs in `s` starting at position `i`. */
  predicate OccursAt(s: string, sub: string, i: int) {
    0 <= i && i + |sub| <= |s| && s[i..i + |sub|] == sub
  }

  /** A witness position is enough to show that `sub` occurs in `s`. */
  lemma ContainsAt(s: string, sub: string, i: nat)
    requires OccursAt(s, sub, i)
    ensures Contains(s, sub)
  {
  }

  /** Whatever occurs in one part of a concatenation occurs in the whole. */
  lemma {:induction false} ContainsInConcat(a: string, b: string, c: string)
    ensures Contains(a + b + c, b)
  {
    var s := a + b + c;
    assert s[|a|..|a| + |b|] == b;
    ContainsAt(s, b, |a|);
  }

  /** `strings.Count(s, string(c))` for a single character. */
  function Count(s: string, c: char): (n: nat)
    ensures n <= |s|
    ensures n == 0 <==> c !in s
  {
    if s == [] then 0 else (if s[0] == c then 1 else 0) + Count(s[1..], c)
  }

  /** `strings.Index(s, string(c))`: the first position of `c`, or -1. */
  function Index(s: string, c: char): (i: int)
    ensures -1 <= i < |s|
    ensures i == -1 <==> c !in s
    ensures 0 <= i ==> s[i] == c && c !in s[..i]
  {
    if s == [] then -1
    else if s[0] == c then 0
    else
      var j := Index(s[1..], c);
      if j == -1 then -1 else (assert s[1..][..j] == s[1..j + 1]; j + 1)
  }

  /** A string is the text before a position, the character there and the text after. */
  lemma SplitAt(s: string, i: nat)
    requires i < |s|
    ensures s == s[..i] + [s[i]] + s[i + 1..]
  {
  }

  /** A string of two or more characters is its text before the last two, then those two. */
  lemma SplitLastTwo(s: string)
    requires 2 <= |s|
    ensures s == s[..|s| - 2] + [s[|s| - 2], s[|s| - 1]]
  {
  }

  /** With exactly one occurrence, the character is found nowhere after its first position. */
  lemma {:induction false} CountOne(s: string, c: char)
    requires Count(s, c) == 1
    ensures c !in s[Index(s, c) + 1..]
  {
    if s[0] == c {
      assert Count(s[1..], c) == 0;
    } else {
      CountOne(s[1..], c);
      assert s[Index(s, c) + 1..] == s[1..][Index(s[1..], c) + 1..];
    }
  }

  /** `strings.Join(elems, sep)`. */
  function Join(elems: seq<string>, sep: string): string {
    if elems == [] then ""
    else if |elems| == 1 then elems[0]
    else elems[0] + sep + Join(elems[1..], sep)
  }

  /** Every element of a join appears in the joined text. */
  lemma {:induction false} JoinContains(elems: seq<string>, sep: string, k: nat)
    requires k < |elems|
    ensures Contains(Join(elems, sep), elems[k])
  {
    if |elems| == 1 {
      ContainsInConcat("", elems[0], "");
      assert "" + elems[0] + "" == Join(elems, sep);
    } else if k == 0 {
      ContainsInConcat("", elems[0], sep + Join(elems[1..], sep));
      assert "" + elems[0] + (sep + Join(elems[1..], sep)) == Join(elems, sep);
    } else {
      JoinContains(elems[1..], sep, k - 1);
      var rest := Join(elems[1..], sep);
      var i :| 0 <= i <= |rest| - |elems[k]| && OccursAt(rest, elems[k], i);
      var pre := elems[0] + sep;
      assert Join(elems, sep) == pre + rest;
      assert (pre + rest)[|pre| + i..|pre| + i + |elems[k]|] == rest[i..i + |elems[k]|];
      ContainsAt(Join(elems, sep), elems[k], |pre| + i);
    }
  }

  predicate IsUpperAscii(c: char) { 'A' <= c <= 'Z' }
  predicate IsLowerAscii(c: char) { 'a' <= c <= 'z' }

  function LowerChar(c: char): char {
    if IsUpperAscii(c) then (c as int + 32) as char else c
  }

  function UpperChar(c: char): char {
    if IsLowerAscii(c) then (c as int - 32) as char else c
  }

  /** `strings.ToLower` on ASCII text. */
  function ToLower(s: string): (r: string)
    ensures |r| == |s|
    ensures forall i :: 0 <= i < |s| ==> r[i] == LowerChar(s[i])
  {
    seq(|s|, i requires 0 <= i < |s| => LowerChar(s[i]))
  }

  /** `strings.ToUpper` on ASCII text. */
  function ToUpper(s: string): (r: string)
    ensures |r| == |s|
    ensures forall i :: 0 <= i < |s| ==> r[i] == UpperChar(s[i])
  {
    seq(|s|, i requires 0 <= i < |s| => UpperChar(s[i]))
  }

  /** ASCII white space as `unicode.IsSpace` sees it. */
  predicate IsSpace(c: char) {
    c == ' ' || c == '\t' || c == '\n' || c == '\r' || c == '\U{000B}' || c == '\U{000C}'
  }

  function TrimLeft(s: string): string {
    if s != [] && IsSpace(s[0]) then TrimLeft(s[1..]) else s
  }

  function TrimRight(s: string): string {
    if s != [] && IsSpace(s[|s| - 1]) then TrimRight(s[..|s| - 1]) else s
  }

  /** `strings.TrimSpace` on ASCII text. */
  function TrimSpace(s: string): string {
    TrimRight(TrimLeft(s))
  }

  /** Trimming on the left drops the leading white space and keeps the rest as a suffix. */
  lemma {:induction false} TrimLeftMeaning(s: string)
    ensures |TrimLeft(s)| <= |s| && TrimLeft(s) == s[|s| - |TrimLeft(s)|..]
    ensures TrimLeft(s) == [] || !IsSpace(TrimLeft(s)[0])
    ensures forall i :: 0 <= i < |s| - |TrimLeft(s)| ==> IsSpace(s[i])
  {
    if s != [] && IsSpace(s[0]) {
      var rest := s[1..];
      TrimLeftMeaning(rest);
      var n := |s| - |TrimLeft(s)|;
      assert TrimLeft(s) == TrimLeft(rest);
      assert rest[|rest| - |TrimLeft(rest)|..] == s[n..];
      forall i | 0 <= i < n
        ensures IsSpace(s[i])
      {
        if i > 0 {
          assert s[i] == rest[i - 1];
        }
      }
    }
  }

  /** Trimming on the right drops the trailing white space and keeps the rest as a prefix. */
  lemma {:induction false} TrimRightMeaning(s: string)
    ensures |TrimRight(s)| <= |s| && TrimRight(s) == s[..|TrimRight(s)|]
    ensures TrimRight(s) == [] || !IsSpace(TrimRight(s)[|TrimRight(s)| - 1])
    ensures forall i :: |TrimRight(s)| <= i < |s| ==> IsSpace(s[i])
  {
    if s != [] && IsSpace(s[|s| - 1]) {
      var init := s[..|s| - 1];
      TrimRightMeaning(init);
      var n := |TrimRight(s)|;
      assert TrimRight(s) == TrimRight(init);
      assert init[..n] == s[..n];
      forall i | n <= i < |s|
        ensures IsSpace(s[i])
      {
        if i < |s| - 1 {
          assert s[i] == init[i];
        }
      }
    }
  }

  /** `r` is `s` with only white space cut off: `k` white-space characters before it, and
      nothing but white space after it. */
  predicate TrimmedAt(s: string, r: string, k: int) {
    && 0 <= k <= |s| - |r| && r == s[k..k + |r|]
    && (forall i :: 0 <= i < k ==> IsSpace(s[i]))
    && (forall i :: k + |r| <= i < |s| ==> IsSpace(s[i]))
  }

  /** The trimmed text is a part of the input that neither starts nor ends with white space, and
      only white space was cut off around it. */
  lemma TrimSpaceMeaning(s: string)
    ensures var r := TrimSpace(s);
      && |r| <= |s|
      && (r == [] || (!IsSpace(r[0]) && !IsSpace(r[|r| - 1])))
      && Contains(s, r)
      && exists k :: TrimmedAt(s, r, k)
  {
    var l := TrimLeft(s);
    TrimLeftMeaning(s);
    TrimRightMeaning(l);
    var r := TrimRight(l);
    var k := |s| - |l|;
    assert r == s[k..k + |r|];
    ContainsAt(s, r, k);
    if r != [] {
      assert r[0] == l[0];
    }
    TrimSpaceCut(s);
  }

  /** The cut `TrimSpace` makes: the leading white space before the kept part, trailing white space after it. */
  lemma TrimSpaceCut(s: string)
    ensures TrimmedAt(s, TrimSpace(s), |s| - |TrimLeft(s)|)
  {
    var l := TrimLeft(s);
    TrimLeftMeaning(s);
    TrimRightMeaning(l);
    var r := TrimRight(l);
    var k := |s| - |l|;
    forall i | k + |r| <= i < |s|
      ensures IsSpace(s[i])
    {
      assert s[i] == l[i - k];
    }
  }

  /** `strconv.FormatInt(n, 10)` for a non-negative `n`. */
  function FormatDecimal(n: nat): (r: string)
    ensures |r| > 0
    ensures forall i :: 0 <= i < |r| ==> '0' <= r[i] <= '9'
  {
    if n < 10 then [(n + '0' as int) as char]
    else FormatDecimal(n / 10) + [(n % 10 + '0' as int) as char]
  }

  /** The value of a string of decimal digits. */
  function DecimalValue(s: string): nat
    requires forall i :: 0 <= i < |s| ==> '0' <= s[i] <= '9'
  {
    if s == [] then 0
    else 10 * DecimalValue(s[..|s| - 1]) + (s[|s| - 1] as int - '0' as int)
  }

  /** Reading back a formatted number gives the number: the Max-Age header carries the value it was given. */
  lemma {:induction false} FormatDecimalRoundTrip(n: nat)
    ensures DecimalValue(FormatDecimal(n)) == n
  {
    if n >= 10 {
      FormatDecimalRoundTrip(n / 10);
      var r := FormatDecimal(n);
      assert r[..|r| - 1] == FormatDecimal(n / 10);
    }
  }
}
