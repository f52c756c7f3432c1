/** `GetPartTypeName`: the C# type name generated for a leaf of a given wire type. */
module Classifier {
  import opened Wrappers
  import Json

  /**
   * The message of `new ArgumentOutOfRangeException(paramName)`. That constructor takes a
   * parameter NAME, so the framework prefixes its own text (the .NET Framework format).
   */
  function OutOfRangeMessage(paramName: string): string {
    "Specified argument was out of the range of valid values.\r\nParameter name: " + paramName
  }

  /** The message `GetPartTypeName` throws with for an unsupported tag. */
  function NotSupportedMessage(t: Json.TokenType): string {
    OutOfRangeMessage(Json.TagName(t) + " is not supported")
  }

  /** The wire types that have a C# counterpart. */
  predicate IsSupported(t: Json.TokenType) {
    t.Integer? || t.Float? || t.String? || t.Boolean? || t.Date?
  }

  /** `GetPartTypeName`: the five supported tags map to a C# type, every other tag throws. */
  function GetPartTypeName(t: Json.TokenType): (r: Result<string>)
    ensures r.Ok? <==> IsSupported(t)
    ensures r.Err? ==> r.error == NotSupportedMessage(t)
  {
    if t.Integer? then Ok("int")
    else if t.Float? then Ok("double")
    else if t.String? then Ok("string")
    else if t.Boolean? then Ok("bool")
    else if t.Date? then Ok("DateTime")
    else Err(NotSupportedMessage(t))
  }

  /** The wire type a generated C# type name stands for: the inverse of the classifier. */
  function WireTypeOf(typeName: string): (r: Option<Json.TokenType>)
    ensures r.Some? ==> IsSupported(r.value)
  {
    if typeName == "int" then Some(Json.TokenType.Integer)
    else if typeName == "double" then Some(Json.TokenType.Float)
    else if typeName == "string" then Some(Json.TokenType.String)
    else if typeName == "bool" then Some(Json.TokenType.Boolean)
    else if typeName == "DateTime" then Some(Json.TokenType.Date)
    else None
  }

  /** Classifying and reading back the tag is the identity on supported tags. */
  lemma ClassifyRoundTrip(t: Json.TokenType)
    requires IsSupported(t)
    ensures GetPartTypeName(t).Ok? && WireTypeOf(GetPartTypeName(t).value) == Some(t)
  {
  }

  /** Every name `WireTypeOf` accepts is produced by the classifier from that tag. */
  lemma ReadBackRoundTrip(typeName: string)
    requires WireTypeOf(typeName).Some?
    ensures GetPartTypeName(WireTypeOf(typeName).value) == Ok(typeName)
  {
  }

  /** Distinct supported tags get distinct type names, so a property's type determines its wire type. */
  lemma ClassifierInjective(a: Json.TokenType, b: Json.TokenType)
    requires GetPartTypeName(a).Ok? && GetPartTypeName(b).Ok?
    requires GetPartTypeName(a).value == GetPartTypeName(b).value
    ensures a == b
  {
    ClassifyRoundTrip(a);
    ClassifyRoundTrip(b);
  }

  /** A rejected tag's message names it: the parameter name is the tag followed by " is not supported". */
  lemma UnsupportedNamesTag(t: Json.TokenType)
    requires !IsSupported(t)
    ensures var msg := GetPartTypeName(t).error;
      var tail := Json.TagName(t) + " is not supported";
      |tail| <= |msg| && msg[|msg| - |tail|..] == tail
  {
    var tail := Json.TagName(t) + " is not supported";
    var msg := NotSupportedMessage(t);
    assert msg[|msg| - |tail|..] == tail;
  }
}
