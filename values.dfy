/** The Java objects a runtime expression can resolve to, and the library
  * calls the interpreter makes but that are not part of this model (JSON
  * and XML parsing, serialisation, JsonPath, XPath, java.util.regex,
  * content-type matching), passed in as functions. */
module Values {
  import opened Wrappers
  import opened Strings
  import opened Json

  /** `Null` is Java null; `Node` a Jackson JsonNode; `Dict` and `List` the
    * maps and lists ObjectMapper.convertValue makes of the workflow inputs. */
  datatype Value =
    | Null
    | Str(s: string)
    | Num(n: int)
    | Bool(b: bool)
    | Node(j: Json)
    | Dict(entries: map<string, Value>)
    | List(items: seq<Value>)

  datatype Oracles = Oracles(
    parseJson: string -> Option<Json>,             // ObjectMapper.readTree; None when it throws
    parseXml: string -> Option<Json>,              // XmlMapper.readTree; None when it throws
    writeJson: Json -> string,                     // JsonNode.toString
    showCollection: Value -> string,               // toString of a Java Map or List
    writeValue: Value -> string,                   // ObjectMapper.writeValueAsString
    jsonPathRead: (string, string) -> Option<Value>, // JsonPath.read(document, path); None when it throws
    xpathText: (string, string) -> Option<string>, // the text of the XPath node, None when absent or failing
    xpathBool: (string, string) -> Option<bool>,   // XPath BOOLEAN evaluation; None when it throws
    jsonPathSet: (string, string, string) -> Option<string>, // JsonPath.parse(document).set(path, text).jsonString(); None when it throws
    xpathSet: (string, string, Option<string>) -> Result<string>, // applyPayloadFromXPath on a document, a path and the value's text
    regexMatches: (string, string) -> Option<bool>, // String.matches(regex); None on PatternSyntaxException
    isJsonContentType: string -> bool,             // ContentType.JSON.matches
    isXmlContentType: string -> bool)              // ContentType.XML.matches

  /** String.valueOf(object), as StringBuilder.append and "%s" use it. */
  function Show(o: Oracles, v: Value): string {
    match v
      case Null => "null"
      case Str(s) => s
      case Num(n) => IntToString(n)
      case Bool(b) => if b then "true" else "false"
      case Node(j) => o.writeJson(j)
      case Dict(_) => o.showCollection(v)
      case List(_) => o.showCollection(v)
  }

  /** ObjectMapper.writeValueAsString for a value that is not a String. */
  function Serialize(o: Oracles, v: Value): string {
    match v
      case Null => "null"
      case Num(n) => IntToString(n)
      case Bool(b) => if b then "true" else "false"
      case Node(j) => o.writeJson(j)
      case _ => o.writeValue(v)
  }

  /** A TextNode is handed on as its text. */
  function UnwrapText(v: Value): Value {
    if v.Node? && v.j.JStr? then Str(v.j.s) else v
  }

  /** An HTTP exchange as the step executor leaves it behind for the
    * resolvers: the latest request and response. */
  datatype Snapshot = Snapshot(
    statusCode: int,
    url: string,
    httpMethod: string,
    message: Option<string>,
    contentType: string,
    responseHeaders: seq<(string, string)>,
    responseBody: Option<string>,
    requestHeaders: seq<(string, string)>,
    requestBody: Option<string>,
    pathParams: map<string, string>)

  /** Headers.getValue: names compare ignoring case, the last one wins. */
  function HeaderValue(headers: seq<(string, string)>, name: string): (r: Option<string>)
    ensures r.Some? ==> exists i :: 0 <= i < |headers| && EqualsIgnoreCase(headers[i].0, name) && headers[i].1 == r.value
    ensures r.None? ==> forall i :: 0 <= i < |headers| ==> !EqualsIgnoreCase(headers[i].0, name)
    decreases |headers|
  {
    if |headers| == 0 then None
    else if EqualsIgnoreCase(headers[|headers| - 1].0, name) then Some(headers[|headers| - 1].1)
    else HeaderValue(headers[..|headers| - 1], name)
  }

  /** The context the resolvers receive: none, the HTTP one, or another kind. */
  datatype Context = NoContext | Http(snapshot: Snapshot) | OtherContext
}
