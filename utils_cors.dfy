/** The CORS response headers (helper/cors/utils_cors.go): normalising the configured lists,
    converting them, and building the header sets of a normal and of a preflight response.

    A header set is a map from a header name to its list of values, as `http.Header` is.
    `http.CanonicalHeaderKey` is modelled on ASCII text below. */
module CorsHeaders {
  import opened GoTime
  import opened GoStrings
  import opened CorsConfig

  type Header = map<string, seq<string>>

  const AllowCredentialsKey: string := "Access-Control-Allow-Credentials"
  const ExposeHeadersKey: string := "Access-Control-Expose-Headers"
  const AllowOriginKey: string := "Access-Control-Allow-Origin"
  const AllowMethodsKey: string := "Access-Control-Allow-Methods"
  const AllowHeadersKey: string := "Access-Control-Allow-Headers"
  const MaxAgeKey: string := "Access-Control-Max-Age"
  const VaryKey: string := "Vary"

  /** The names the middleware writes are pairwise different. */
  lemma KeysDistinct()
    ensures AllowCredentialsKey != ExposeHeadersKey && AllowCredentialsKey != AllowOriginKey && AllowCredentialsKey != AllowMethodsKey
    ensures AllowCredentialsKey != AllowHeadersKey && AllowCredentialsKey != MaxAgeKey && AllowCredentialsKey != VaryKey
    ensures ExposeHeadersKey != AllowOriginKey && ExposeHeadersKey != AllowMethodsKey && ExposeHeadersKey != AllowHeadersKey
    ensures ExposeHeadersKey != MaxAgeKey && ExposeHeadersKey != VaryKey && AllowOriginKey != AllowMethodsKey
    ensures AllowOriginKey != AllowHeadersKey && AllowOriginKey != MaxAgeKey && AllowOriginKey != VaryKey
    ensures AllowMethodsKey != AllowHeadersKey && AllowMethodsKey != MaxAgeKey && AllowMethodsKey != VaryKey
    ensures AllowHeadersKey != MaxAgeKey && AllowHeadersKey != VaryKey && MaxAgeKey != VaryKey
  {
    assert |AllowCredentialsKey| == 32 && |ExposeHeadersKey| == 29 && |AllowOriginKey| == 27;
    assert |AllowMethodsKey| == 28 && |AllowHeadersKey| == 28 && |MaxAgeKey| == 22 && |VaryKey| == 4;
    assert AllowMethodsKey[21] != AllowHeadersKey[21];
  }

  /** `Header.Add`: the value goes after those the name already holds. */
  function AddValue(h: Header, name: string, value: string): Header {
    h[name := (if name in h then h[name] else []) + [value]]
  }

  // ----- http.CanonicalHeaderKey -----

  /** The bytes allowed in a header field name (an RFC 7230 token character). */
  predicate IsTokenChar(ch: char) {
    || 'a' <= ch <= 'z' || 'A' <= ch <= 'Z' || '0' <= ch <= '9'
    || ch in "!#$%&'*+-.^_`|~"
  }

  predicate IsToken(s: string) {
    forall i :: 0 <= i < |s| ==> IsTokenChar(s[i])
  }

  /** Upper-cases the first letter and every letter after a '-', lower-cases the others. */
  function CanonicalFrom(s: string, upper: bool): (r: string)
    ensures |r| == |s|
  {
    if s == [] then []
    else [if upper then UpperChar(s[0]) else LowerChar(s[0])] + CanonicalFrom(s[1..], s[0] == '-')
  }

  /** `http.CanonicalHeaderKey`: a name holding a non-token character comes back unchanged. */
  function CanonicalHeaderKey(s: string): (r: string)
    ensures |r| == |s|
    ensures !IsToken(s) ==> r == s
  {
    if IsToken(s) then CanonicalFrom(s, true) else s
  }

  /** Canonicalising changes letter case and nothing else. */
  lemma {:induction false} CanonicalFromOnlyCase(s: string, upper: bool)
    ensures ToLower(CanonicalFrom(s, upper)) == ToLower(s)
  {
    if s != [] {
      CanonicalFromOnlyCase(s[1..], s[0] == '-');
      var r := CanonicalFrom(s, upper);
      assert r[1..] == CanonicalFrom(s[1..], s[0] == '-');
      assert ToLower(r)[1..] == ToLower(r[1..]);
      assert ToLower(s)[1..] == ToLower(s[1..]);
    }
  }

  /** Canonicalising a canonical name leaves it as it is. */
  lemma {:induction false} CanonicalFromIdempotent(s: string, upper: bool)
    ensures IsToken(s) ==> IsToken(CanonicalFrom(s, upper))
    ensures CanonicalFrom(CanonicalFrom(s, upper), upper) == CanonicalFrom(s, upper)
  {
    if s != [] {
      var r := CanonicalFrom(s, upper);
      CanonicalFromIdempotent(s[1..], s[0] == '-');
      assert r[0] == '-' <==> s[0] == '-';
      assert r[1..] == CanonicalFrom(s[1..], s[0] == '-');
      if IsToken(s) {
        assert IsToken(s[1..]) by {
          forall i | 0 <= i < |s[1..]| ensures IsTokenChar(s[1..][i]) {
            assert s[1..][i] == s[i + 1];
          }
        }
        assert IsTokenChar(r[0]);
        forall i | 0 <= i < |r| ensures IsTokenChar(r[i]) {
          if i > 0 {
            assert r[i] == r[1..][i - 1];
          }
        }
      }
    }
  }

  /** A header name differs from its canonical form only in letter case, and canonicalising
      an already canonical name changes nothing. */
  lemma CanonicalHeaderKeyMeaning(s: string)
    ensures ToLower(CanonicalHeaderKey(s)) == ToLower(s)
    ensures CanonicalHeaderKey(CanonicalHeaderKey(s)) == CanonicalHeaderKey(s)
  {
    CanonicalFromOnlyCase(s, true);
    CanonicalFromIdempotent(s, true);
  }

  // ----- normalize -----

  /** One configured value, trimmed and lower-cased. */
  function Normalized(value: string): string {
    ToLower(TrimSpace(value))
  }

  /** Every value normalised, in order. */
  function MapNormalized(values: seq<string>): (r: seq<string>)
    ensures |r| == |values|
  {
    if values == [] then [] else [Normalized(values[0])] + MapNormalized(values[1..])
  }

  lemma {:induction false} MapNormalizedAt(values: seq<string>, i: nat)
    requires i < |values|
    ensures MapNormalized(values)[i] == Normalized(values[i])
  {
    if i > 0 {
      MapNormalizedAt(values[1..], i - 1);
    }
  }

  lemma {:induction false} MapNormalizedSnoc(values: seq<string>, x: string)
    ensures MapNormalized(values + [x]) == MapNormalized(values) + [Normalized(x)]
  {
    if values == [] {
      assert values + [x] == [x];
    } else {
      MapNormalizedSnoc(values[1..], x);
      assert (values + [x])[1..] == values[1..] + [x];
    }
  }

  /** The values in order of first occurrence, each once: a left-to-right walk keeps a value
      it has not yet kept. */
  function Distinct(s: seq<string>): seq<string> {
    if s == [] then []
    else
      var kept := Distinct(s[..|s| - 1]);
      var x := s[|s| - 1];
      if x in kept then kept else kept + [x]
  }

  /** The position of the first occurrence of a value. */
  function FirstIndex(s: seq<string>, x: string): (i: nat)
    requires x in s
    ensures i < |s| && s[i] == x && x !in s[..i]
  {
    if s[0] == x then 0 else (assert x in s[1..]; 1 + FirstIndex(s[1..], x))
  }

  lemma FirstIndexOfPrefix(s: seq<string>, y: string, x: string)
    requires x in s
    ensures x in s + [y] && FirstIndex(s + [y], x) == FirstIndex(s, x)
  {
    var i := FirstIndex(s, x);
    assert (s + [y])[i] == x;
    assert (s + [y])[..i] == s[..i];
  }

  /** The result keeps every value, adds none, never repeats one and is never longer than the input. */
  lemma {:induction false} DistinctMeaning(s: seq<string>)
    ensures forall x :: x in Distinct(s) <==> x in s
    ensures forall i, j :: 0 <= i < j < |Distinct(s)| ==> Distinct(s)[i] != Distinct(s)[j]
    ensures |Distinct(s)| <= |s|
  {
    if s != [] {
      var init := s[..|s| - 1];
      DistinctMeaning(init);
      assert s == init + [s[|s| - 1]];
    }
  }

  /** Values come out in the order of their first occurrence in the input. */
  lemma {:induction false} DistinctFirstOccurrenceOrder(s: seq<string>)
    ensures forall x :: x in Distinct(s) ==> x in s
    ensures forall i, j :: 0 <= i < j < |Distinct(s)| ==>
      Distinct(s)[i] in s && Distinct(s)[j] in s && FirstIndex(s, Distinct(s)[i]) < FirstIndex(s, Distinct(s)[j])
  {
    DistinctMeaning(s);
    if s != [] {
      var init := s[..|s| - 1];
      var x := s[|s| - 1];
      var kept := Distinct(init);
      DistinctFirstOccurrenceOrder(init);
      DistinctMeaning(init);
      assert s == init + [x];
      forall v | v in kept ensures FirstIndex(s, v) == FirstIndex(init, v) {
        FirstIndexOfPrefix(init, x, v);
      }
      if x !in kept {
        assert x !in init;
        assert FirstIndex(s, x) == |init|;
      }
    }
  }

  /** `normalize`: trims and lower-cases every value, then drops the repeats, keeping first occurrences. */
  method Normalize(values: seq<string>) returns (normalized: seq<string>)
    ensures normalized == Distinct(MapNormalized(values))
  {
    var distinctMap: map<string, bool> := map[];
    normalized := [];
    for k := 0 to |values|
      invariant normalized == Distinct(MapNormalized(values[..k]))
      invariant forall v :: v in distinctMap <==> v in normalized
    {
      var value := TrimSpace(values[k]);
      value := ToLower(value);
      assert values[..k + 1] == values[..k] + [values[k]];
      MapNormalizedSnoc(values[..k], values[k]);
      assert MapNormalized(values[..k + 1])[..k] == MapNormalized(values[..k]);
      if value !in distinctMap {
        normalized := normalized + [value];
        distinctMap := distinctMap[value := true];
      }
    }
    assert values[..|values|] == values;
  }

  // ----- convert -----

  /** The converter applied to each value, as `convert` returns it. */
  function Converted(s: seq<string>, c: string -> string): (r: seq<string>)
    ensures |r| == |s| && forall i :: 0 <= i < |s| ==> r[i] == c(s[i])
  {
    if s == [] then [] else [c(s[0])] + Converted(s[1..], c)
  }

  /** `convert`: applies the converter to each value, keeping length and order. */
  method Convert(s: seq<string>, c: string -> string) returns (out: seq<string>)
    ensures |out| == |s| && forall i :: 0 <= i < |s| ==> out[i] == c(s[i])
  {
    out := [];
    for k := 0 to |s|
      invariant |out| == k && forall i :: 0 <= i < k ==> out[i] == c(s[i])
    {
      out := out + [c(s[k])];
    }
  }

  /** The value a list header carries: the normalised list, converted, joined with ','. */
  function ListHeaderValue(values: seq<string>, c: string -> string): string {
    Join(Converted(Distinct(MapNormalized(values)), c), ",")
  }

  /** The value of a list header names, each once, every configured entry in normalised and
      converted form. */
  lemma ListHeaderValueMeaning(values: seq<string>, c: string -> string, k: nat)
    requires k < |values|
    ensures Contains(ListHeaderValue(values, c), c(Normalized(values[k])))
  {
    var d := Distinct(MapNormalized(values));
    DistinctMeaning(MapNormalized(values));
    MapNormalizedAt(values, k);
    var j := FirstIndex(d, Normalized(values[k]));
    assert Converted(d, c)[j] == c(Normalized(values[k]));
    JoinContains(Converted(d, c), ",", j);
  }

  /** Builds `convert(normalize(values), c)` joined by ','. */
  method ListHeader(values: seq<string>, c: string -> string) returns (value: string)
    ensures value == ListHeaderValue(values, c)
  {
    var normalized := Normalize(values);
    var converted := Convert(normalized, c);
    assert converted == Converted(normalized, c);
    value := Join(converted, ",");
  }

  // ----- generateNormalHeaders / generatePreflightHeaders -----

  /** `generateNormalHeaders`: the credentials flag, the exposed headers when there are any, and
      either the "all origins" marker or `Vary: Origin`. */
  method GenerateNormalHeaders(c: ConfigCors) returns (header: Header)
    ensures AllowCredentialsKey in header <==> c.allowCredentials
    ensures c.allowCredentials ==> header[AllowCredentialsKey] == ["true"]
    ensures ExposeHeadersKey in header <==> |c.exposeHeaders| > 0
    ensures |c.exposeHeaders| > 0 ==> header[ExposeHeadersKey] == [ListHeaderValue(c.exposeHeaders, CanonicalHeaderKey)]
    ensures AllowOriginKey in header <==> c.allowAllOrigins
    ensures c.allowAllOrigins ==> header[AllowOriginKey] == ["*"] && VaryKey !in header
    ensures !c.allowAllOrigins ==> VaryKey in header && header[VaryKey] == ["Origin"]
    ensures header.Keys <= {AllowCredentialsKey, ExposeHeadersKey, AllowOriginKey, VaryKey}
  {
    KeysDistinct();
    header := map[];
    if c.allowCredentials {
      header := header[AllowCredentialsKey := ["true"]];
    }
    if |c.exposeHeaders| > 0 {
      var exposeHeaders := ListHeader(c.exposeHeaders, CanonicalHeaderKey);
      header := header[ExposeHeadersKey := [exposeHeaders]];
    }
    if c.allowAllOrigins {
      header := header[AllowOriginKey := ["*"]];
    } else {
      header := header[VaryKey := ["Origin"]];
    }
  }

  /** `generatePreflightHeaders`: the credentials flag; the allowed methods upper-cased and the
      allowed headers canonicalised, each when there are any; the max age in whole seconds when
      positive; and either the "all origins" marker or the three `Vary` entries, in order. */
  method GeneratePreflightHeaders(c: ConfigCors) returns (header: Header)
    ensures AllowCredentialsKey in header <==> c.allowCredentials
    ensures c.allowCredentials ==> header[AllowCredentialsKey] == ["true"]
    ensures AllowMethodsKey in header <==> |c.allowMethods| > 0
    ensures |c.allowMethods| > 0 ==> header[AllowMethodsKey] == [ListHeaderValue(c.allowMethods, ToUpper)]
    ensures AllowHeadersKey in header <==> |c.allowHeaders| > 0
    ensures |c.allowHeaders| > 0 ==> header[AllowHeadersKey] == [ListHeaderValue(c.allowHeaders, CanonicalHeaderKey)]
    ensures MaxAgeKey in header <==> c.maxAge > 0
    ensures c.maxAge > 0 ==> header[MaxAgeKey] == [FormatDecimal(c.maxAge / Second)]
    ensures AllowOriginKey in header <==> c.allowAllOrigins
    ensures c.allowAllOrigins ==> header[AllowOriginKey] == ["*"] && VaryKey !in header
    ensures !c.allowAllOrigins ==> (VaryKey in header &&
      header[VaryKey] == ["Origin", "Access-Control-Request-Method", "Access-Control-Request-Headers"])
    ensures header.Keys <= {AllowCredentialsKey, AllowMethodsKey, AllowHeadersKey, MaxAgeKey, AllowOriginKey, VaryKey}
  {
    KeysDistinct();
    header := map[];
    if c.allowCredentials {
      header := header[AllowCredentialsKey := ["true"]];
    }
    if |c.allowMethods| > 0 {
      var value := ListHeader(c.allowMethods, ToUpper);
      header := header[AllowMethodsKey := [value]];
    }
    if |c.allowHeaders| > 0 {
      var value := ListHeader(c.allowHeaders, CanonicalHeaderKey);
      header := header[AllowHeadersKey := [value]];
    }
    if c.maxAge > 0 {
      var value := FormatDecimal(c.maxAge / Second);
      header := header[MaxAgeKey := [value]];
    }
    if c.allowAllOrigins {
      header := header[AllowOriginKey := ["*"]];
    } else {
      assert VaryKey !in header;
      header := AddValue(header, VaryKey, "Origin");
      assert header[VaryKey] == ["Origin"];
      header := AddValue(header, VaryKey, "Access-Control-Request-Method");
      assert header[VaryKey] == ["Origin", "Access-Control-Request-Method"];
      header := AddValue(header, VaryKey, "Access-Control-Request-Headers");
    }
  }
}
