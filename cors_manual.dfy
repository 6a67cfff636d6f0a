/** The CORS middleware configuration (helper/cors/cors_manual.go): building a
    configuration, checking it, and reading its wildcard origin rules.

    The schema lists (`DefaultSchemas`, `ExtensionSchemas`, `WebSocketSchemas`,
    `FileSchemas`) are declared elsewhere in the package and come in as a
    parameter. */
module CorsConfig {
  import opened Wrappers
  import opened GoTime
  import opened GoStrings

  datatype SchemaLists = SchemaLists(defaults: seq<string>, extensions: seq<string>, webSockets: seq<string>, files: seq<string>)

  const ConflictAllOrigins: string := "conflict settings: all origins are allowed. AllowOriginFunc or AllowOrigins is not needed"
  const ConflictDisabled: string := "conflict settings: all origins disabled"
  const BadOriginPrefix: string := "bad origin: origin must contain '*' or include "
  const OnlyOneStar: string := "only one * is allowed"

  /** An origin passes validation when it has a '*' or starts with an allowed schema. */
  predicate OriginAcceptable(origin: string, allowed: seq<string>) {
    '*' in origin || exists s :: s in allowed && HasPrefix(origin, s)
  }

  /** The rule for an origin holding exactly one '*': the text before and after it, except that a
      trailing '*' also drops the character just before it. */
  function RuleFor(o: string): (rule: seq<string>)
    requires Count(o, '*') == 1
    ensures |rule| == 2
  {
    var i := Index(o, '*');
    if i == 0 then ["*", o[1..]]
    else if i == |o| - 1 then [o[..i - 1], "*"]
    else [o[..i], o[i + 1..]]
  }

  /** The origins that hold a '*', in order. */
  function Starred(origins: seq<string>): (r: seq<string>)
    ensures |r| <= |origins|
    ensures forall k :: 0 <= k < |r| ==> '*' in r[k] && r[k] in origins
    ensures forall o :: o in origins && '*' in o ==> o in r
  {
    if origins == [] then []
    else if '*' in origins[0] then [origins[0]] + Starred(origins[1..])
    else Starred(origins[1..])
  }

  /** The origins' rules, in order, as a left-to-right walk over the origins produces them:
      origins without '*' are skipped and an origin with more than one '*' panics. */
  function WildcardRules(origins: seq<string>): (r: Result<seq<seq<string>>>)
    ensures !r.Err?
    ensures r.Ok? ==> |r.value| <= |origins|
  {
    if origins == [] then Ok([])
    else
      var o := origins[|origins| - 1];
      var before := WildcardRules(origins[..|origins| - 1]);
      if !before.Ok? then before
      else if '*' !in o then before
      else if Count(o, '*') > 1 then Panic(OnlyOneStar)
      else Ok(before.value + [RuleFor(o)])
  }

  /** The walk panics exactly when some origin has more than one '*'; otherwise it yields one rule
      per starred origin, in input order. */
  lemma {:induction false} WildcardRulesMeaning(origins: seq<string>)
    ensures WildcardRules(origins).Panic? <==> exists o :: o in origins && Count(o, '*') > 1
    ensures !WildcardRules(origins).Err?
    ensures WildcardRules(origins).Panic? ==> WildcardRules(origins).reason == OnlyOneStar
    ensures WildcardRules(origins).Ok? ==>
      var starred := Starred(origins);
      && |WildcardRules(origins).value| == |starred|
      && forall k :: 0 <= k < |starred| ==> Count(starred[k], '*') == 1 && WildcardRules(origins).value[k] == RuleFor(starred[k])
  {
    if origins != [] {
      var init := origins[..|origins| - 1];
      var o := origins[|origins| - 1];
      WildcardRulesMeaning(init);
      assert origins == init + [o];
      StarredAppend(init, [o]);
      assert forall x :: x in origins <==> x in init || x == o;
    }
  }

  /** A rule led by '*' is the rest of the origin. */
  lemma LeadingStarRule(o: string)
    requires Count(o, '*') == 1 && Index(o, '*') == 0
    ensures RuleFor(o) == ["*", o[1..]] && "*" + RuleFor(o)[1] == o
  {
    assert [o[0]] + o[1..] == o;
  }

  /** A rule for a trailing '*' loses the character just before the '*'. */
  lemma TrailingStarRule(o: string)
    requires Count(o, '*') == 1 && 0 < Index(o, '*') == |o| - 1
    ensures RuleFor(o) == [o[..|o| - 2], "*"]
    ensures o == RuleFor(o)[0] + [o[|o| - 2], '*']
  {
    assert o[|o| - 1] == '*';
    SplitLastTwo(o);
  }

  /** A '*' inside the origin splits it into the text before and after, neither holding a '*'. */
  lemma InnerStarRule(o: string)
    requires Count(o, '*') == 1 && 0 < Index(o, '*') < |o| - 1
    ensures RuleFor(o)[0] + "*" + RuleFor(o)[1] == o
    ensures '*' !in RuleFor(o)[0] && '*' !in RuleFor(o)[1]
  {
    var i := Index(o, '*');
    var before, after := o[..i], o[i + 1..];
    assert RuleFor(o)[0] == before && RuleFor(o)[1] == after;
    assert o[i] == '*';
    SplitAt(o, i);
    CountOne(o, '*');
  }

  class ConfigCors {
    var allowAllOrigins: bool
    var allowOrigins: seq<string>
    /** The origin callback; only whether it is set matters here. */
    var allowOriginFunc: Option<string -> bool>
    var allowMethods: seq<string>
    var allowHeaders: seq<string>
    var allowCredentials: bool
    var exposeHeaders: seq<string>
    /** A `time.Duration`, in nanoseconds. */
    var maxAge: int
    var allowWildcard: bool
    var allowBrowserExtensions: bool
    var allowWebSockets: bool
    var allowFiles: bool

    /** The zero configuration: every flag off, every list empty. */
    constructor ()
      ensures !allowAllOrigins && allowOrigins == [] && allowOriginFunc.None?
      ensures allowMethods == [] && allowHeaders == [] && !allowCredentials && exposeHeaders == []
      ensures maxAge == 0 && !allowWildcard && !allowBrowserExtensions && !allowWebSockets && !allowFiles
    {
      allowAllOrigins, allowOrigins, allowOriginFunc := false, [], None;
      allowMethods, allowHeaders, allowCredentials, exposeHeaders := [], [], false, [];
      maxAge, allowWildcard, allowBrowserExtensions, allowWebSockets, allowFiles := 0, false, false, false, false;
    }

    /** Appends the methods after the configured ones; the frame lets no setting but `allowMethods` change. */
    method AddAllowMethods(methods: seq<string>)
      modifies this`allowMethods
      ensures allowMethods == old(allowMethods) + methods
      ensures allowHeaders == old(allowHeaders) && exposeHeaders == old(exposeHeaders)
      ensures allowOrigins == old(allowOrigins) && allowAllOrigins == old(allowAllOrigins)
    {
      allowMethods := allowMethods + methods;
    }

    /** Appends the headers after the configured ones; the frame lets no setting but `allowHeaders` change. */
    method AddAllowHeaders(headers: seq<string>)
      modifies this`allowHeaders
      ensures allowHeaders == old(allowHeaders) + headers
      ensures allowMethods == old(allowMethods) && exposeHeaders == old(exposeHeaders)
      ensures allowOrigins == old(allowOrigins) && allowAllOrigins == old(allowAllOrigins)
    {
      allowHeaders := allowHeaders + headers;
    }

    /** Appends the headers after the configured ones; the frame lets no setting but `exposeHeaders` change. */
    method AddExposeHeaders(headers: seq<string>)
      modifies this`exposeHeaders
      ensures exposeHeaders == old(exposeHeaders) + headers
      ensures allowMethods == old(allowMethods) && allowHeaders == old(allowHeaders)
      ensures allowOrigins == old(allowOrigins) && allowAllOrigins == old(allowAllOrigins)
    {
      exposeHeaders := exposeHeaders + headers;
    }

    /** The default schemas, then the extension, web-socket and file schemas, each only when enabled. */
    function GetAllowedSchemas(schemas: SchemaLists): (r: seq<string>)
      reads this
      ensures |schemas.defaults| <= |r| && r[..|schemas.defaults|] == schemas.defaults
      ensures forall s :: s in r <==>
        || s in schemas.defaults
        || (allowBrowserExtensions && s in schemas.extensions)
        || (allowWebSockets && s in schemas.webSockets)
        || (allowFiles && s in schemas.files)
    {
      var allowed := schemas.defaults;
      var allowed := if allowBrowserExtensions then allowed + schemas.extensions else allowed;
      var allowed := if allowWebSockets then allowed + schemas.webSockets else allowed;
      if allowFiles then allowed + schemas.files else allowed
    }

    /** Whether some allowed schema is a prefix of the origin. */
    method ValidateAllowedSchemas(origin: string, schemas: SchemaLists) returns (ok: bool)
      ensures ok <==> exists s :: s in GetAllowedSchemas(schemas) && HasPrefix(origin, s)
    {
      var allowedSchemas := GetAllowedSchemas(schemas);
      for k := 0 to |allowedSchemas|
        invariant forall j :: 0 <= j < k ==> !HasPrefix(origin, allowedSchemas[j])
      {
        if HasPrefix(origin, allowedSchemas[k]) {
          return true;
        }
      }
      return false;
    }

    /** Rejects "all origins" together with a callback or a list, a list with neither "all origins"
        nor a callback, and any listed origin that has no '*' and no allowed schema prefix. */
    method Validate(schemas: SchemaLists) returns (err: Option<string>)
      ensures err == (
        if allowAllOrigins && (allowOriginFunc.Some? || |allowOrigins| > 0) then Some(ConflictAllOrigins)
        else if !allowAllOrigins && allowOriginFunc.None? && |allowOrigins| > 0 then Some(ConflictDisabled)
        else if exists o :: o in allowOrigins && !OriginAcceptable(o, GetAllowedSchemas(schemas)) then
          Some(BadOriginPrefix + Join(GetAllowedSchemas(schemas), ","))
        else None)
    {
      if allowAllOrigins && (allowOriginFunc.Some? || |allowOrigins| > 0) {
        return Some(ConflictAllOrigins);
      }
      if !allowAllOrigins && allowOriginFunc.None? && |allowOrigins| > 0 {
        return Some(ConflictDisabled);
      }
      for k := 0 to |allowOrigins|
        invariant forall j :: 0 <= j < k ==> OriginAcceptable(allowOrigins[j], GetAllowedSchemas(schemas))
      {
        var origin := allowOrigins[k];
        if '*' !in origin {
          var ok := ValidateAllowedSchemas(origin, schemas);
          if !ok {
            assert origin in allowOrigins && !OriginAcceptable(origin, GetAllowedSchemas(schemas));
            return Some(BadOriginPrefix + Join(GetAllowedSchemas(schemas), ","));
          }
        }
      }
      return None;
    }

    /** The wildcard rules of the listed origins; none when wildcards are off. */
    method ParseWildcardRules() returns (r: Result<seq<seq<string>>>)
      ensures r == if allowWildcard then WildcardRules(allowOrigins) else Ok([])
    {
      var wRules: seq<seq<string>> := [];
      if !allowWildcard {
        return Ok(wRules);
      }
      for k := 0 to |allowOrigins|
        invariant WildcardRules(allowOrigins[..k]) == Ok(wRules)
      {
        var o := allowOrigins[k];
        assert allowOrigins[..k + 1][..k] == allowOrigins[..k];
        if '*' !in o {
          continue;
        }
        if Count(o, '*') > 1 {
          assert WildcardRules(allowOrigins[..k + 1]) == Panic(OnlyOneStar);
          PanicPersists(allowOrigins, k + 1);
          return Panic(OnlyOneStar);
        }
        var i := Index(o, '*');
        if i == 0 {
          wRules := wRules + [["*", o[1..]]];
          continue;
        }
        if i == |o| - 1 {
          wRules := wRules + [[o[..i - 1], "*"]];
          continue;
        }
        wRules := wRules + [[o[..i], o[i + 1..]]];
      }
      assert allowOrigins[..|allowOrigins|] == allowOrigins;
      return Ok(wRules);
    }
  }

  /** Once the walk has panicked on a prefix, it panics on the whole list. */
  lemma {:induction false} PanicPersists(origins: seq<string>, k: nat)
    requires k <= |origins| && WildcardRules(origins[..k]) == Panic(OnlyOneStar)
    ensures WildcardRules(origins) == Panic(OnlyOneStar)
    decreases |origins| - k
  {
    if k == |origins| {
      assert origins[..k] == origins;
    } else {
      assert origins[..k + 1][..k] == origins[..k];
      PanicPersists(origins, k + 1);
    }
  }

  /** The starred origins of a concatenation are those of each part. */
  lemma {:induction false} StarredAppend(a: seq<string>, b: seq<string>)
    ensures Starred(a + b) == Starred(a) + Starred(b)
  {
    if a == [] {
      assert a + b == b;
    } else {
      var ab := a + b;
      assert ab[0] == a[0] && ab[1..] == a[1..] + b;
      StarredAppend(a[1..], b);
      if '*' in a[0] {
        calc {
          Starred(ab);
          [a[0]] + Starred(a[1..] + b);
          [a[0]] + (Starred(a[1..]) + Starred(b));
          ([a[0]] + Starred(a[1..])) + Starred(b);
        }
      }
    }
  }

  /** The default configuration: the seven usual methods, every header, no credentials, a 12-hour max age. */
  method DefaultConfig() returns (c: ConfigCors)
    ensures fresh(c)
    ensures c.allowMethods == ["GET", "POST", "PUT", "PATCH", "DELETE", "HEAD", "OPTIONS"]
    ensures c.allowHeaders == ["*"] && !c.allowCredentials && c.maxAge == 12 * Hour
    ensures !c.allowAllOrigins && c.allowOrigins == [] && c.allowOriginFunc.None? && c.exposeHeaders == []
    ensures !c.allowWildcard && !c.allowBrowserExtensions && !c.allowWebSockets && !c.allowFiles
  {
    c := new ConfigCors();
    c.allowMethods := ["GET", "POST", "PUT", "PATCH", "DELETE", "HEAD", "OPTIONS"];
    c.allowHeaders := ["*"];
    c.allowCredentials := false;
    c.maxAge := 12 * Hour;
  }
}
