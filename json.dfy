/**
 * A parsed journal line: the shape of a Newtonsoft.Json `JToken` tree as far as the engine
 * looks at it. Parsing itself is not modelled; a line either parsed into an object or the
 * parser threw with some message.
 */
module Json {
  import W = Wrappers

  /** Newtonsoft.Json's `JTokenType`, every member in declaration order. */
  datatype TokenType =
    | None | Object | Array | Constructor | Property | Comment | Integer | Float | String
    | Boolean | Null | Undefined | Date | Raw | Bytes | Guid | Uri | TimeSpan

  /** The type of a leaf token (`JValue` and the other non-container tokens). */
  type ValueType = t: TokenType | t != TokenType.Array && t != TokenType.Object witness TokenType.Integer

  /**
   * A token: a leaf, an array or an object. For a leaf, `text` is what `Value<string>()`
   * returns for it (`None` for a JSON null).
   */
  datatype Token =
    | JValue(valueType: ValueType, text: W.Option<string>)
    | JArray(items: seq<Token>)
    | JObject(members: seq<Member>)

  /** A `JProperty`: one key of an object with its value, in document order. */
  datatype Member = Member(key: string, value: Token)

  /** `JToken.Type`. */
  function TypeOf(t: Token): TokenType {
    match t
    case JValue(k, _) => k
    case JArray(_) => TokenType.Array
    case JObject(_) => TokenType.Object
  }

  /** The name `ToString()` gives a `JTokenType` member. */
  function TagName(t: TokenType): string {
    match t
    case None => "None"
    case Object => "Object"
    case Array => "Array"
    case Constructor => "Constructor"
    case Property => "Property"
    case Comment => "Comment"
    case Integer => "Integer"
    case Float => "Float"
    case String => "String"
    case Boolean => "Boolean"
    case Null => "Null"
    case Undefined => "Undefined"
    case Date => "Date"
    case Raw => "Raw"
    case Bytes => "Bytes"
    case Guid => "Guid"
    case Uri => "Uri"
    case TimeSpan => "TimeSpan"
  }

  /** `obj[key]`: the value of the first member named exactly `key`. */
  function Lookup(members: seq<Member>, key: string): (r: W.Option<Token>)
    ensures r.Some? <==> exists k :: 0 <= k < |members| && members[k].key == key
    ensures r.Some? ==> exists k :: 0 <= k < |members| && members[k].key == key && members[k].value == r.value &&
                                    (forall j :: 0 <= j < k ==> members[j].key != key)
  {
    if members == [] then W.None
    else if members[0].key == key then W.Some(members[0].value)
    else
      var r := Lookup(members[1..], key);
      assert forall k :: 0 < k < |members| ==> members[k] == members[1..][k - 1];
      r
  }

  /** One line of a journal file: a parsed object, or the message of the parser's exception. */
  datatype JournalLine = Parsed(entry: seq<Member>) | Malformed(message: string)

  /** A journal file: its path and its lines in order. */
  datatype JournalFile = JournalFile(path: string, lines: seq<JournalLine>)
}
