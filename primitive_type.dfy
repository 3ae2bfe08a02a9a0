/** The eleven XML Schema built-in datatype names (XML Schema Part 2,
    section 3) the first version of the XSD reader recognises. */
module PrimitiveType {
  import opened Wrappers

  datatype PrimitiveType =
    | AnyType | AnyUri | Base64Binary | Boolean | DateTime | Double
    | HexBinary | Int | Integer | Long | String

  datatype ParsePrimitiveTypeError = NoMatch(input: string)

  /** The qualified name each type is written as. */
  function Token(p: PrimitiveType): string
  {
    match p
    case AnyType => "xs:anyType"
    case AnyUri => "xs:anyURI"
    case Base64Binary => "xs:base64Binary"
    case Boolean => "xs:boolean"
    case DateTime => "xs:dateTime"
    case Double => "xs:double"
    case HexBinary => "xs:hexBinary"
    case Int => "xs:int"
    case Integer => "xs:integer"
    case Long => "xs:long"
    case String => "xs:string"
  }

  /** `PrimitiveType::from_str`: exact, case-sensitive table lookup. */
  function Parse(s: string): (r: Result<PrimitiveType, ParsePrimitiveTypeError>)
    ensures r.Ok? ==> Token(r.value) == s
    ensures r.Err? ==> r.error == NoMatch(s)
  {
    if s == "xs:anyType" then Ok(AnyType)
    else if s == "xs:anyURI" then Ok(AnyUri)
    else if s == "xs:base64Binary" then Ok(Base64Binary)
    else if s == "xs:boolean" then Ok(Boolean)
    else if s == "xs:dateTime" then Ok(DateTime)
    else if s == "xs:double" then Ok(Double)
    else if s == "xs:hexBinary" then Ok(HexBinary)
    else if s == "xs:int" then Ok(Int)
    else if s == "xs:integer" then Ok(Integer)
    else if s == "xs:long" then Ok(Long)
    else if s == "xs:string" then Ok(String)
    else Err(NoMatch(s))
  }

  /** Every type's name parses back to it, so exactly the eleven names
      parse and anything else is `NoMatch` of the input. */
  lemma ParseToken(p: PrimitiveType)
    ensures Parse(Token(p)) == Ok(p)
  {
  }

  lemma ParseIffToken(s: string)
    ensures Parse(s).Ok? <==> exists p: PrimitiveType :: Token(p) == s
  {
    if exists p: PrimitiveType :: Token(p) == s {
      var p: PrimitiveType :| Token(p) == s;
      ParseToken(p);
    }
  }

  /** Names outside the table: wrong case, or types this table lacks. */
  lemma NotInTable()
    ensures Parse("xs:String") == Err(NoMatch("xs:String"))
    ensures Parse("xs:decimal").Err? && Parse("xs:float").Err?
    ensures Parse("xs:short").Err? && Parse("xs:normalizedString").Err?
  {
  }
}
