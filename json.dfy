/** A JSON tree as Jackson's JsonNode presents it: object fields keep their
  * order (ObjectNode is backed by a LinkedHashMap), numbers are integers.
  * Includes JSON Pointer evaluation after section 4 of RFC 6901, the way
  * JsonNode.at(pointer) applies it. */
module Json {
  import opened Wrappers
  import opened Strings

  datatype Json =
    | JNull
    | JBool(b: bool)
    | JNum(n: int)
    | JStr(s: string)
    | JArr(items: seq<Json>)
    | JObj(fields: seq<(string, Json)>)

  /** The value of the first field called `key`. */
  function Lookup(fields: seq<(string, Json)>, key: string): (r: Option<Json>)
    ensures r.Some? <==> exists i :: 0 <= i < |fields| && fields[i].0 == key
    ensures r.Some? ==> exists i :: 0 <= i < |fields| && fields[i] == (key, r.value)
    decreases |fields|
  {
    if |fields| == 0 then None
    else if fields[0].0 == key then Some(fields[0].1)
    else
      var r := Lookup(fields[1..], key);
      assert forall i :: 0 <= i < |fields| - 1 ==> fields[1..][i] == fields[i + 1];
      r
  }

  /** JsonNode.get(name): only objects have fields. */
  function Get(j: Json, key: string): Option<Json> {
    if j.JObj? then Lookup(j.fields, key) else None
  }

  /** JsonNode.has(name). */
  predicate Has(j: Json, key: string) {
    Get(j, key).Some?
  }

  /** JsonNode.fieldNames(), in document order. */
  function FieldNames(j: Json): (r: seq<string>)
    ensures j.JObj? ==> |r| == |j.fields| && forall i :: 0 <= i < |r| ==> r[i] == j.fields[i].0
    ensures !j.JObj? ==> r == []
  {
    if j.JObj? then seq(|j.fields|, i requires 0 <= i < |j.fields| => j.fields[i].0) else []
  }

  /** JsonNode.isValueNode(): everything but arrays and objects (null included). */
  predicate IsValueNode(j: Json) {
    !j.JArr? && !j.JObj?
  }

  /** JsonNode.asText(): containers give "". */
  function AsText(j: Json): string {
    match j
      case JNull => "null"
      case JBool(b) => if b then "true" else "false"
      case JNum(n) => IntToString(n)
      case JStr(s) => s
      case JArr(_) => ""
      case JObj(_) => ""
  }

  // ----- JSON Pointer (section 4 of RFC 6901) ----------------------------------

  /** Decodes one reference token: "~1" stands for "/" and "~0" for "~". */
  function Unescape(t: string): string
    decreases |t|
  {
    if |t| == 0 then ""
    else if |t| >= 2 && t[0] == '~' && t[1] == '1' then "/" + Unescape(t[2..])
    else if |t| >= 2 && t[0] == '~' && t[1] == '0' then "~" + Unescape(t[2..])
    else [t[0]] + Unescape(t[1..])
  }

  /** Encodes a member name as a reference token. */
  function Escape(t: string): (r: string)
    ensures '/' !in r
    decreases |t|
  {
    if |t| == 0 then ""
    else if t[0] == '/' then "~1" + Escape(t[1..])
    else if t[0] == '~' then "~0" + Escape(t[1..])
    else [t[0]] + Escape(t[1..])
  }

  /** Decoding an encoded name gives the name back. */
  lemma {:induction false} UnescapeEscape(t: string)
    ensures Unescape(Escape(t)) == t
    decreases |t|
  {
    if |t| > 0 {
      UnescapeEscape(t[1..]);
      var e := Escape(t[1..]);
      if t[0] == '/' {
        assert ("~1" + e)[2..] == e;
      } else if t[0] == '~' {
        assert ("~0" + e)[2..] == e;
      } else {
        assert ([t[0]] + e)[1..] == e;
      }
      assert [t[0]] + t[1..] == t;
    }
  }

  function UnescapeAll(ts: seq<string>): (r: seq<string>)
    ensures |r| == |ts| && forall i :: 0 <= i < |ts| ==> r[i] == Unescape(ts[i])
  {
    seq(|ts|, i requires 0 <= i < |ts| => Unescape(ts[i]))
  }

  /** JsonPointer.compile: "" is the whole document; any other pointer must
    * start with "/", and its tokens are the "/"-separated pieces after it. */
  function PointerTokens(p: string): Option<seq<string>> {
    if p == "" then Some([])
    else if p[0] != '/' then None
    else Some(UnescapeAll(Pieces(p[1..], '/')))
  }

  /** An array index token: "0" or digits without a leading zero. */
  function ArrayIndex(t: string): Option<nat> {
    if IsDigits(t) && (t == "0" || t[0] != '0') then Some(DigitsValue(t)) else None
  }

  /** Applies the tokens one by one; None is Jackson's MissingNode. */
  function Evaluate(j: Json, tokens: seq<string>): Option<Json>
    decreases |tokens|
  {
    if |tokens| == 0 then Some(j)
    else match j
      case JObj(fs) =>
        (match Lookup(fs, tokens[0])
          case Some(v) => Evaluate(v, tokens[1..])
          case None => None)
      case JArr(items) =>
        (match ArrayIndex(tokens[0])
          case Some(k) => if k < |items| then Evaluate(items[k], tokens[1..]) else None
          case None => None)
      case _ => None
  }

  /** JsonNode.at(pointer): a malformed pointer is an IllegalArgumentException,
    * a pointer into nowhere the MissingNode (None). */
  function At(j: Json, p: string): Result<Option<Json>> {
    match PointerTokens(p)
      case None => Err(IllegalArgument("Invalid input: JSON Pointer expression must start with '/': \"" + p + "\""))
      case Some(ts) => Ok(Evaluate(j, ts))
  }

  /** The pointer naming the given member names, one level each. */
  function PointerOf(names: seq<string>): string
    decreases |names|
  {
    if |names| == 0 then "" else "/" + Escape(names[0]) + PointerOf(names[1..])
  }

  lemma UnescapeAllCons(x: string, ys: seq<string>)
    ensures UnescapeAll([x] + ys) == [Unescape(x)] + UnescapeAll(ys)
  {
    assert forall i :: 0 < i < |ys| + 1 ==> ([x] + ys)[i] == ys[i - 1];
  }

  /** Compiling the pointer of some names yields exactly those names back. */
  lemma {:induction false} PointerOfRoundTrip(names: seq<string>)
    ensures PointerTokens(PointerOf(names)) == Some(names)
    decreases |names|
  {
    if |names| > 0 {
      var e := Escape(names[0]);
      var rest := PointerOf(names[1..]);
      var p := PointerOf(names);
      assert p == "/" + e + rest;
      assert p[1..] == e + rest;
      var tail: seq<string>;
      if |names| == 1 {
        assert e + rest == e;
        PiecesSplitFirst(e, "", '/');
        tail := [];
      } else {
        PointerOfRoundTrip(names[1..]);
        assert rest[0] == '/';
        assert e + rest == e + ['/'] + rest[1..];
        PiecesSplitFirst(e, rest[1..], '/');
        tail := Pieces(rest[1..], '/');
        assert UnescapeAll(tail) == names[1..];
      }
      assert Pieces(p[1..], '/') == [e] + tail;
      UnescapeEscape(names[0]);
      UnescapeAllCons(e, tail);
      assert UnescapeAll(tail) == names[1..];
      assert [names[0]] + names[1..] == names;
    }
  }
}
