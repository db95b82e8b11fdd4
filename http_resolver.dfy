/** HttpContextExpressionResolver: runtime expressions that read the latest
  * HTTP exchange ($statusCode, $response.*, $request.*, $url, $method,
  * $message), and the two rewrites of body sub-paths into JSONPath syntax. */
module HttpResolver {
  import opened Wrappers
  import opened Strings
  import opened Json
  import opened Values

  function OptValue(v: Option<string>): Value {
    if v.Some? then Str(v.value) else Null
  }

  // ----- correctJsonPathSyntax ---------------------------------------------------

  /** The length of the run of digits that `s` starts with. */
  function LeadingDigits(s: string): (n: nat)
    ensures n <= |s|
    ensures forall i :: 0 <= i < n ==> IsDigit(s[i])
    ensures n == |s| || !IsDigit(s[n])
    decreases |s|
  {
    if |s| > 0 && IsDigit(s[0]) then 1 + LeadingDigits(s[1..]) else 0
  }

  /** A dot directly followed by a digit, at position i. */
  predicate DotDigitAt(s: string, i: int) {
    0 <= i < |s| - 1 && s[i] == '.' && IsDigit(s[i + 1])
  }

  predicate NoDotDigit(s: string) {
    forall i :: 0 <= i < |s| ==> !DotDigitAt(s, i)
  }

  /** replaceAll("\\.(\\d+)", "[$1]"): each dot with the digits after it
    * becomes those digits in brackets, scanning from the left. */
  function CorrectJsonPathSyntax(s: string): string
    decreases |s|
  {
    if |s| == 0 then ""
    else if DotDigitAt(s, 0) then
      var n := LeadingDigits(s[1..]);
      "[" + s[1..1 + n] + "]" + CorrectJsonPathSyntax(s[1 + n..])
    else [s[0]] + CorrectJsonPathSyntax(s[1..])
  }

  lemma CorrectFirst(s: string)
    requires |s| > 0
    ensures |CorrectJsonPathSyntax(s)| > 0
    ensures CorrectJsonPathSyntax(s)[0] == (if DotDigitAt(s, 0) then '[' else s[0])
  {
  }

  /** The rewritten path has no dot followed by a digit left. */
  lemma {:induction false} CorrectLeavesNoDotDigit(s: string)
    ensures NoDotDigit(CorrectJsonPathSyntax(s))
    decreases |s|
  {
    if |s| > 0 {
      var r := CorrectJsonPathSyntax(s);
      if DotDigitAt(s, 0) {
        var n := LeadingDigits(s[1..]);
        var tail := s[1 + n..];
        CorrectLeavesNoDotDigit(tail);
        var head := "[" + s[1..1 + n] + "]";
        var t := CorrectJsonPathSyntax(tail);
        assert r == head + t;
        forall i | 0 <= i < |r| - 1 ensures !DotDigitAt(r, i) {
          if i >= |head| {
            assert r[i] == t[i - |head|] && r[i + 1] == t[i - |head| + 1];
            assert !DotDigitAt(t, i - |head|);
          } else {
            assert r[i] == head[i];
            assert head[i] != '.' by {
              assert i == 0 || i == |head| - 1 || head[i] == s[1..1 + n][i - 1];
              if 0 < i < |head| - 1 {
                assert IsDigit(s[1..][i - 1]);
              }
            }
          }
        }
      } else {
        var t := CorrectJsonPathSyntax(s[1..]);
        CorrectLeavesNoDotDigit(s[1..]);
        assert r == [s[0]] + t;
        forall i | 0 <= i < |r| - 1 ensures !DotDigitAt(r, i) {
          if i == 0 {
            if s[0] == '.' {
              CorrectFirst(s[1..]);
              assert !IsDigit(s[1]);
              assert r[1] == t[0];
            }
          } else {
            assert r[i] == t[i - 1] && r[i + 1] == t[i];
            assert !DotDigitAt(t, i - 1);
          }
        }
      }
    }
  }

  /** The rewrite changes exactly those paths that have a dot before a digit. */
  lemma {:induction false} CorrectIdentityIff(s: string)
    ensures CorrectJsonPathSyntax(s) == s <==> NoDotDigit(s)
    decreases |s|
  {
    if |s| > 0 {
      if DotDigitAt(s, 0) {
        CorrectFirst(s);
        assert CorrectJsonPathSyntax(s)[0] != s[0];
        assert !NoDotDigit(s);
      } else {
        CorrectIdentityIff(s[1..]);
        var t := CorrectJsonPathSyntax(s[1..]);
        assert CorrectJsonPathSyntax(s) == [s[0]] + t;
        assert s == [s[0]] + s[1..];
        if NoDotDigit(s) {
          forall i ensures !DotDigitAt(s[1..], i) {
            if DotDigitAt(s[1..], i) {
              assert DotDigitAt(s, i + 1);
            }
          }
        } else {
          var i :| 0 <= i < |s| && DotDigitAt(s, i);
          assert i != 0;
          assert 0 < i < |s| - 1 && s[i] == '.' && IsDigit(s[i + 1]);
          assert s[1..][i - 1] == s[i] && s[1..][i] == s[i + 1];
          assert DotDigitAt(s[1..], i - 1);
          assert ([s[0]] + t)[1..] == t;
        }
      }
    }
  }

  /** Rewriting twice is rewriting once. */
  lemma CorrectIdempotent(s: string)
    ensures CorrectJsonPathSyntax(CorrectJsonPathSyntax(s)) == CorrectJsonPathSyntax(s)
  {
    CorrectLeavesNoDotDigit(s);
    CorrectIdentityIff(CorrectJsonPathSyntax(s));
  }

  // ----- convertJsonPointerToJsonPath --------------------------------------------

  /** A numeric segment becomes an index in brackets; any other is copied. */
  function FormatSegment(seg: string): string {
    if IsDigits(seg) then "[" + seg + "]" else seg
  }

  /** The non-empty segments, each formatted. */
  function FormatSegments(segs: seq<string>): (r: seq<string>)
    ensures forall i :: 0 <= i < |r| ==> r[i] != ""
    decreases |segs|
  {
    if |segs| == 0 then []
    else if segs[|segs| - 1] == "" then FormatSegments(segs[..|segs| - 1])
    else FormatSegments(segs[..|segs| - 1]) + [FormatSegment(segs[|segs| - 1])]
  }

  /** The JSONPath a JSON Pointer body path stands for: its non-empty
    * segments, formatted, joined by dots. */
  function PointerToPath(pointer: string): string {
    Join(FormatSegments(JavaSplit(pointer, '/')), ".")
  }

  lemma JoinSnoc(xs: seq<string>, x: string, sep: string)
    ensures Join(xs + [x], sep) == if |xs| == 0 then x else Join(xs, sep) + sep + x
    decreases |xs|
  {
    if |xs| == 1 {
      assert xs + [x] == [xs[0], x];
    } else if |xs| > 1 {
      assert (xs + [x])[1..] == xs[1..] + [x];
      JoinSnoc(xs[1..], x, sep);
    }
  }

  lemma FormatSegmentsSnoc(segs: seq<string>, s: string)
    ensures FormatSegments(segs + [s]) ==
      if s == "" then FormatSegments(segs) else FormatSegments(segs) + [FormatSegment(s)]
  {
    assert (segs + [s])[..|segs|] == segs;
  }

  /** Formatted segments taken from segments without an empty one are one per segment. */
  lemma {:induction false} FormatSegmentsAll(segs: seq<string>)
    requires forall i :: 0 <= i < |segs| ==> segs[i] != ""
    ensures |FormatSegments(segs)| == |segs|
    ensures forall i :: 0 <= i < |segs| ==> FormatSegments(segs)[i] == FormatSegment(segs[i])
    decreases |segs|
  {
    if |segs| > 0 {
      FormatSegmentsAll(segs[..|segs| - 1]);
    }
  }

  /** The joined path after one more segment: unchanged for an empty one,
    * otherwise the formatted segment, after a dot unless it is the first. */
  lemma JoinedStep(done: seq<string>, segment: string)
    ensures var before := Join(FormatSegments(done), ".");
      var after := FormatSegments(done + [segment]);
      && (before == "" <==> |FormatSegments(done)| == 0)
      && (segment == "" ==> Join(after, ".") == before && after == FormatSegments(done))
      && (segment != "" ==> |after| > 0)
      && (segment != "" ==> Join(after, ".") == (if before == "" then "" else before + ".") + FormatSegment(segment))
  {
    FormatSegmentsSnoc(done, segment);
    JoinSnoc(FormatSegments(done), FormatSegment(segment), ".");
    JoinEmptyIff(FormatSegments(done));
  }

  /** Segments formatted from non-empty ones are never empty, so their join is
    * empty exactly when there is none. */
  lemma {:induction false} JoinEmptyIff(xs: seq<string>)
    requires forall i :: 0 <= i < |xs| ==> xs[i] != ""
    ensures Join(xs, ".") == "" <==> |xs| == 0
    decreases |xs|
  {
    if |xs| > 1 {
      JoinEmptyIff(xs[1..]);
    }
  }

  /** convertJsonPointerToJsonPath. */
  method ConvertJsonPointerToJsonPath(pointerPath: string) returns (r: string)
    ensures r == PointerToPath(pointerPath)
  {
    var segments := JavaSplit(pointerPath, '/');
    var builder := "";
    var i := 0;
    while i < |segments|
      invariant 0 <= i <= |segments|
      invariant builder == Join(FormatSegments(segments[..i]), ".")
    {
      var segment := segments[i];
      ghost var done := segments[..i];
      assert segments[..i + 1] == done + [segment];
      JoinedStep(done, segment);
      if segment != "" {
        if builder != "" {
          builder := builder + ".";
        }
        if IsDigits(segment) {
          builder := builder + "[" + segment + "]";
        } else {
          builder := builder + segment;
        }
      }
      i := i + 1;
    }
    assert segments[..|segments|] == segments;
    r := builder;
  }

  /** For a pointer spelled out from non-empty names, the path is the names,
    * indices bracketed, joined by dots. */
  lemma PointerToPathOfNames(names: seq<string>)
    requires |names| > 0
    requires forall i :: 0 <= i < |names| ==> names[i] != "" && '/' !in names[i]
    ensures PointerToPath(Join(names, "/")) == Join(FormatSegments(names), ".")
  {
    JavaSplitJoin(names, '/');
  }

  // ----- resolveExpression --------------------------------------------------------

  function BodyPathError(expression: string): Failure {
    IllegalState("Invalid JSON path or XPath: '" + expression + "'")
  }

  /** The sub-path of a `$response.body…` expression, by the first marker it
    * contains: a JSON Pointer (converted), a dotted path, or a bracket index. */
  function BodySubPath(expression: string): Option<string> {
    if Contains(expression, "$response.body#/") then Some(PointerToPath(expression[16..]))
    else if Contains(expression, "$response.body.") then Some(expression[15..])
    else if Contains(expression, "$response.body[") then Some(expression[14..])
    else None
  }

  /** A `$response.body…` expression against the latest response. */
  function ResolveResponseBody(o: Oracles, expression: string, s: Snapshot): Result<Value> {
    match s.responseBody
      case None => Err(NullReference("response body"))
      case Some(body) =>
        if IsBlank(body) then Ok(Null)
        else
          match BodySubPath(expression)
            case None => Ok(Str(body))
            case Some(sub) =>
              if o.isJsonContentType(s.contentType) then
                match o.jsonPathRead(body, "$." + CorrectJsonPathSyntax(sub))
                  case None => Err(BodyPathError(expression))
                  case Some(v) => Ok(v)
              else if o.isXmlContentType(s.contentType) then
                match o.xpathText(body, "/" + Replace(sub, ".", "/"))
                  case None => Err(BodyPathError(expression))
                  case Some(t) => Ok(Str(t))
              else Err(BodyPathError(expression))
  }

  function NotSupported(expression: string): Failure {
    Unsupported("Not supported: expression=" + expression)
  }

  /** HttpContextExpressionResolver.resolveExpression. */
  function ResolveHttp(o: Oracles, expression: string, context: Context): (r: Result<Value>)
    ensures context.NoContext? ==> r == Ok(Str(expression))
    ensures context.OtherContext? ==> r.Err? && r.error.IllegalState?
    ensures context.Http? && !StartsWith(expression, "$") ==> r == Ok(Str(expression))
  {
    match context
      case NoContext => Ok(Str(expression))
      case OtherContext =>
        Err(IllegalState("Expected context to be a descendant of HttpResolverContext but was not"))
      case Http(s) =>
        if expression == "$statusCode" then Ok(Str(IntToString(s.statusCode)))
        else if StartsWith(expression, "$response.") then
          if StartsWith(expression, "$response.header") then
            if |expression| < 17 then Err(IndexOutOfBounds("begin 17, length " + IntToString(|expression|)))
            else Ok(OptValue(HeaderValue(s.responseHeaders, expression[17..])))
          else if StartsWith(expression, "$response.body") then ResolveResponseBody(o, expression, s)
          else Err(NotSupported(expression))
        else if StartsWith(expression, "$request.") then
          if StartsWith(expression, "$request.header") then
            if |expression| < 16 then Err(IndexOutOfBounds("begin 16, length " + IntToString(|expression|)))
            else Ok(OptValue(HeaderValue(s.requestHeaders, expression[16..])))
          else if StartsWith(expression, "$request.body") then
            match s.requestBody
              case None => Err(NullReference("request body"))
              case Some(body) => if IsBlank(body) then Ok(Null) else Ok(Str(body))
          else if StartsWith(expression, "$request.path") then
            if |expression| < 14 then Err(IndexOutOfBounds("begin 14, length " + IntToString(|expression|)))
            else
              var name := expression[14..];
              Ok(if name in s.pathParams then Str(s.pathParams[name]) else Null)
          else Err(NotSupported(expression))
        else if StartsWith(expression, "$url") then Ok(Str(s.url))
        else if StartsWith(expression, "$method") then Ok(Str(s.httpMethod))
        else if StartsWith(expression, "$message") then Ok(OptValue(s.message))
        else Ok(Str(expression))
  }

  /** The first `k` characters of two prefixes disagree: no string starts with both. */
  lemma PrefixClash(s: string, a: string, b: string, k: nat)
    requires StartsWith(s, a) && k < |a| && k < |b| && a[k] != b[k]
    ensures !StartsWith(s, b)
  {
    assert s[..|a|][k] == s[k];
  }

  /** `$statusCode` is the status of the latest response. */
  lemma StatusCode(o: Oracles, s: Snapshot)
    ensures ResolveHttp(o, "$statusCode", Http(s)) == Ok(Str(IntToString(s.statusCode)))
  {
  }

  /** `$response.header.<name>` and `$request.header.<name>` read the last header
    * of that name, compared ignoring case; null when there is none. */
  lemma HeaderLookup(o: Oracles, expression: string, s: Snapshot)
    ensures StartsWith(expression, "$response.header.") ==>
      ResolveHttp(o, expression, Http(s)) == Ok(OptValue(HeaderValue(s.responseHeaders, expression[17..])))
    ensures StartsWith(expression, "$request.header.") ==>
      ResolveHttp(o, expression, Http(s)) == Ok(OptValue(HeaderValue(s.requestHeaders, expression[16..])))
  {
    if StartsWith(expression, "$response.header.") {
      PrefixClash(expression, "$response.header.", "$statusCode", 1);
      StartsWithShorter(expression, "$response.header.", "$response.");
      StartsWithShorter(expression, "$response.header.", "$response.header");
    }
    if StartsWith(expression, "$request.header.") {
      PrefixClash(expression, "$request.header.", "$statusCode", 1);
      PrefixClash(expression, "$request.header.", "$response.", 3);
      StartsWithShorter(expression, "$request.header.", "$request.");
      StartsWithShorter(expression, "$request.header.", "$request.header");
    }
  }

  /** `$response.body` alone is the whole non-blank body. */
  lemma ResponseBodyWhole(o: Oracles, s: Snapshot)
    requires s.responseBody.Some? && !IsBlank(s.responseBody.value)
    ensures ResolveHttp(o, "$response.body", Http(s)) == Ok(Str(s.responseBody.value))
  {
    assert !Contains("$response.body", "$response.body#/");
    assert !Contains("$response.body", "$response.body.");
    assert !Contains("$response.body", "$response.body[");
  }

  /** `$request.path.<name>` reads the path parameter of that name, null when absent. */
  lemma RequestPathParameter(o: Oracles, expression: string, s: Snapshot)
    requires StartsWith(expression, "$request.path.")
    ensures var name := expression[14..];
      ResolveHttp(o, expression, Http(s)) == Ok(if name in s.pathParams then Str(s.pathParams[name]) else Null)
  {
    PrefixClash(expression, "$request.path.", "$statusCode", 1);
    PrefixClash(expression, "$request.path.", "$response.", 3);
    PrefixClash(expression, "$request.path.", "$request.header", 9);
    PrefixClash(expression, "$request.path.", "$request.body", 9);
    assert StartsWith(expression, "$request.") && StartsWith(expression, "$request.path");
  }

  /** `$request.body` is the body that was sent, null when it was blank. */
  lemma RequestBodyText(o: Oracles, expression: string, s: Snapshot)
    requires StartsWith(expression, "$request.body") && s.requestBody.Some?
    ensures ResolveHttp(o, expression, Http(s)) ==
      Ok(if IsBlank(s.requestBody.value) then Null else Str(s.requestBody.value))
  {
    PrefixClash(expression, "$request.body", "$statusCode", 1);
    PrefixClash(expression, "$request.body", "$response.", 3);
    PrefixClash(expression, "$request.body", "$request.header", 9);
    assert StartsWith(expression, "$request.");
  }

  /** A blank response body reads as null, whatever path follows `$response.body`. */
  lemma ResponseBodyBlank(o: Oracles, expression: string, s: Snapshot)
    requires StartsWith(expression, "$response.body")
    requires s.responseBody.Some? && IsBlank(s.responseBody.value)
    ensures ResolveHttp(o, expression, Http(s)) == Ok(Null)
  {
    PrefixClash(expression, "$response.body", "$statusCode", 1);
    PrefixClash(expression, "$response.body", "$response.header", 10);
    assert StartsWith(expression, "$response.");
  }

  /** A `$response.` expression that is neither a header nor the body is refused. */
  lemma ResponseOtherUnsupported(o: Oracles, expression: string, s: Snapshot)
    requires StartsWith(expression, "$response.")
    requires !StartsWith(expression, "$response.header") && !StartsWith(expression, "$response.body")
    ensures ResolveHttp(o, expression, Http(s)) == Err(NotSupported(expression))
  {
    PrefixClash(expression, "$response.", "$statusCode", 1);
  }

  /** A `$request.` expression that is not a header, the body or a path parameter is refused. */
  lemma RequestOtherUnsupported(o: Oracles, expression: string, s: Snapshot)
    requires StartsWith(expression, "$request.")
    requires !StartsWith(expression, "$request.header") && !StartsWith(expression, "$request.body")
    requires !StartsWith(expression, "$request.path")
    ensures ResolveHttp(o, expression, Http(s)) == Err(NotSupported(expression))
  {
    PrefixClash(expression, "$request.", "$statusCode", 1);
    PrefixClash(expression, "$request.", "$response.", 3);
  }

  /** `$url` and `$method` read the request line of the latest exchange. */
  lemma UrlAndMethod(o: Oracles, expression: string, s: Snapshot)
    ensures StartsWith(expression, "$url") ==> ResolveHttp(o, expression, Http(s)) == Ok(Str(s.url))
    ensures StartsWith(expression, "$method") ==> ResolveHttp(o, expression, Http(s)) == Ok(Str(s.httpMethod))
  {
    if StartsWith(expression, "$url") {
      PrefixClash(expression, "$url", "$statusCode", 1);
      PrefixClash(expression, "$url", "$response.", 1);
      PrefixClash(expression, "$url", "$request.", 1);
    }
    if StartsWith(expression, "$method") {
      PrefixClash(expression, "$method", "$statusCode", 1);
      PrefixClash(expression, "$method", "$response.", 1);
      PrefixClash(expression, "$method", "$request.", 1);
      PrefixClash(expression, "$method", "$url", 1);
    }
  }

  /** The status code expression reads back as the number it was written from. */
  lemma StatusCodeRoundTrip(o: Oracles, s: Snapshot)
    ensures ResolveHttp(o, "$statusCode", Http(s)).Ok?
    ensures ParseInt(ResolveHttp(o, "$statusCode", Http(s)).value.s) == Some(s.statusCode)
  {
    ParseIntToString(s.statusCode);
  }
}
