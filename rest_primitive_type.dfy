/** The fifteen XML Schema built-in datatype names (XML Schema Part 2,
    section 3) of the REST-API reader, and their OpenAPI 3.0 data types
    (section 4.4 of the OpenAPI Specification 3.0). */
module RestPrimitiveType {
  import opened Wrappers
  import opened Iter
  import opened OpenApi

  datatype PrimitiveType =
    | AnyType | AnyUri | Base64Binary | Boolean | DateTime | Decimal | Double | Float
    | HexBinary | Int | Integer | Long | NormalizedString | Short | String

  datatype ParsePrimitiveTypeError = NoMatch(input: string)

  function Token(p: PrimitiveType): string
  {
    match p
    case AnyType => "xs:anyType"
    case AnyUri => "xs:anyURI"
    case Base64Binary => "xs:base64Binary"
    case Boolean => "xs:boolean"
    case DateTime => "xs:dateTime"
    case Decimal => "xs:decimal"
    case Double => "xs:double"
    case Float => "xs:float"
    case HexBinary => "xs:hexBinary"
    case Int => "xs:int"
    case Integer => "xs:integer"
    case Long => "xs:long"
    case NormalizedString => "xs:normalizedString"
    case Short => "xs:short"
    case String => "xs:string"
  }

  /** `PrimitiveType::from_str`: exact, case-sensitive table lookup. */
  function Parse(s: string): (r: Result<PrimitiveType, ParsePrimitiveTypeError>)
    ensures r.Ok? ==> Token(r.value) == s
    ensures r.Err? ==> r.error == NoMatch(s)
  {
    if s == "xs:anyType" then Ok(AnyType)
    else if s == "xs:anyURI" then Ok(AnyUri)
    else if s == "xs:base64Binary" then Ok(Base64Binary)
    else if s == "xs:boolean" then Ok(Boolean)
    else if s == "xs:dateTime" then Ok(DateTime)
    else if s == "xs:decimal" then Ok(Decimal)
    else if s == "xs:double" then Ok(Double)
    else if s == "xs:float" then Ok(Float)
    else if s == "xs:hexBinary" then Ok(HexBinary)
    else if s == "xs:int" then Ok(Int)
    else if s == "xs:integer" then Ok(Integer)
    else if s == "xs:long" then Ok(Long)
    else if s == "xs:normalizedString" then Ok(NormalizedString)
    else if s == "xs:short" then Ok(Short)
    else if s == "xs:string" then Ok(String)
    else Err(NoMatch(s))
  }

  /** Every type's name parses back to it: exactly the fifteen names parse. */
  lemma ParseToken(p: PrimitiveType)
    ensures Parse(Token(p)) == Ok(p)
  {
  }

  lemma ParseIffToken(s: string)
    ensures Parse(s).Ok? <==> exists p: PrimitiveType :: Token(p) == s
  {
    if exists p: PrimitiveType :: Token(p) == s {
      var p: PrimitiveType :| Token(p) == s;
      ParseToken(p);
    }
  }

  // Rust's `str::parse::<i64>`.

  const I64Min: int := -0x8000_0000_0000_0000
  const I64Max: int := 0x7FFF_FFFF_FFFF_FFFF

  predicate IsDigit(c: char)
  {
    '0' <= c <= '9'
  }

  predicate AllDigits(s: string)
  {
    forall i | 0 <= i < |s| :: IsDigit(s[i])
  }

  function DigitsValue(s: string): nat
    requires AllDigits(s)
  {
    if s == [] then 0 else DigitsValue(s[..|s| - 1]) * 10 + (s[|s| - 1] as int - '0' as int)
  }

  /** An optional `+` or `-`, then one or more ASCII digits, and a value
      that fits in 64 bits; anything else fails. */
  function ParseI64(s: string): (r: Option<int>)
    ensures r.Some? ==> I64Min <= r.value <= I64Max
    ensures r.Some? ==> s != [] && |s| > (if s[0] == '-' || s[0] == '+' then 1 else 0)
  {
    if s == [] then None
    else
      var neg := s[0] == '-';
      var digits := if s[0] == '-' || s[0] == '+' then s[1..] else s;
      if digits == [] || !AllDigits(digits) then None
      else
        var v: int := if neg then 0 - DigitsValue(digits) as int else DigitsValue(digits);
        if I64Min <= v <= I64Max then Some(v) else None
  }

  /** The decimal rendering of a natural number. */
  function ShowNat(n: nat): (r: string)
    ensures r != [] && AllDigits(r)
  {
    if n < 10 then [('0' as int + n) as char]
    else ShowNat(n / 10) + [('0' as int + n % 10) as char]
  }

  /** The decimal rendering of an integer, as `i64::to_string` writes it. */
  function ShowInt(n: int): string
  {
    if n < 0 then "-" + ShowNat(-n) else ShowNat(n)
  }

  lemma {:induction false} DigitsValueShowNat(n: nat)
    ensures DigitsValue(ShowNat(n)) == n
  {
    var s := ShowNat(n);
    if n >= 10 {
      DigitsValueShowNat(n / 10);
      assert s[..|s| - 1] == ShowNat(n / 10);
    }
  }

  /** Every 64-bit integer written in decimal parses back to itself. */
  lemma ParseShowInt(n: int)
    requires I64Min <= n <= I64Max
    ensures ParseI64(ShowInt(n)) == Some(n)
  {
    if n < 0 {
      DigitsValueShowNat(-n);
      assert ShowInt(n)[1..] == ShowNat(-n);
    } else {
      DigitsValueShowNat(n);
    }
  }

  /** A primitive type with the restrictions of a simple type:
      `RestrictedPrimitiveType`. */
  datatype RestrictedPrimitiveType = RestrictedPrimitiveType(
    primitive: PrimitiveType,
    pattern: Option<string>,
    enumeration: seq<Option<string>>,
    minInclusive: Option<string>)

  predicate IsStringLike(p: PrimitiveType)
  {
    p in {AnyType, AnyUri, Base64Binary, DateTime, Decimal, HexBinary, NormalizedString, String}
  }

  predicate IsIntegral(p: PrimitiveType)
  {
    p in {Int, Integer, Long, Short}
  }

  /** An enumeration entry as an integer, when it is present and parses. */
  function EnumInteger(e: Option<string>): Option<int>
  {
    if e.Some? then ParseI64(e.value) else None
  }

  function StringFormatOf(p: PrimitiveType): StringFormat
  {
    match p
    case AnyUri => UnknownFormat("uri")
    case Base64Binary => ByteFormat
    case DateTime => DateTimeFormat
    case _ => NoStringFormat
  }

  function IntegerFormatOf(p: PrimitiveType): IntegerFormat
  {
    match p
    case Int => Int32Format
    case Long => Int64Format
    case _ => NoIntegerFormat
  }

  /** `From<&RestrictedPrimitiveType> for openapiv3::Type`. */
  function ToType(t: RestrictedPrimitiveType): (r: Type)
    ensures r.StringType? <==> IsStringLike(t.primitive)
    ensures r.IntegerType? <==> IsIntegral(t.primitive)
    ensures r.NumberType? <==> t.primitive in {Double, Float}
    ensures r.BooleanType? <==> t.primitive == Boolean
    ensures r.StringType? ==> r.enumeration == t.enumeration && r.pattern == t.pattern
    ensures r.IntegerType? ==> r.maximum.None? && |r.integers| <= |t.enumeration|
  {
    match t.primitive
    case Boolean => BooleanType
    case Double => NumberType(DoubleFormat)
    case Float => NumberType(FloatFormat)
    case Int | Integer | Long | Short =>
      IntegerType(
        IntegerFormatOf(t.primitive),
        if t.minInclusive.Some? then ParseI64(t.minInclusive.value) else None,
        None,
        FilterMap(t.enumeration, EnumInteger))
    case _ => StringType(StringFormatOf(t.primitive), t.pattern, t.enumeration)
  }

  /** The formats: `uri`, `byte` and `date-time` strings, `int32`/`int64`
      integers, `double`/`float` numbers; the other types have none. */
  lemma ToTypeFormats(t: RestrictedPrimitiveType)
    ensures t.primitive == AnyUri ==> ToType(t).format == UnknownFormat("uri")
    ensures t.primitive == Base64Binary ==> ToType(t).format == ByteFormat
    ensures t.primitive == DateTime ==> ToType(t).format == DateTimeFormat
    ensures t.primitive in {AnyType, Decimal, HexBinary, NormalizedString, String} ==> ToType(t).format == NoStringFormat
    ensures t.primitive == Int ==> ToType(t).integerFormat == Int32Format
    ensures t.primitive == Long ==> ToType(t).integerFormat == Int64Format
    ensures t.primitive in {Integer, Short} ==> ToType(t).integerFormat == NoIntegerFormat
    ensures t.primitive == Double ==> ToType(t).numberFormat == DoubleFormat
    ensures t.primitive == Float ==> ToType(t).numberFormat == FloatFormat
  {
  }

  /** An integer type's minimum is `minInclusive` read as a 64-bit
      integer, and absent when it does not parse; every enumeration entry
      that is a 64-bit integer written in decimal is kept. */
  lemma IntegerRestrictions(t: RestrictedPrimitiveType, n: int)
    requires IsIntegral(t.primitive)
    ensures ToType(t).minimum.Some? <==> t.minInclusive.Some? && ParseI64(t.minInclusive.value).Some?
    ensures t.minInclusive == Some(ShowInt(n)) && I64Min <= n <= I64Max ==> ToType(t).minimum == Some(n)
    ensures Some(ShowInt(n)) in t.enumeration && I64Min <= n <= I64Max ==> n in ToType(t).integers
  {
    if I64Min <= n <= I64Max {
      ParseShowInt(n);
      assert EnumInteger(Some(ShowInt(n))) == Some(n);
    }
  }

  /** Integer enumerations keep their order: the entries that parse, in
      the order they were written. */
  lemma IntegerEnumerationOrder(t: RestrictedPrimitiveType, a: seq<Option<string>>, b: seq<Option<string>>)
    requires IsIntegral(t.primitive) && t.enumeration == a + b
    ensures ToType(t).integers == FilterMap(a, EnumInteger) + FilterMap(b, EnumInteger)
  {
    assert ToType(t).integers == FilterMap(t.enumeration, EnumInteger);
    FilterMapAppend(a, b, EnumInteger);
  }
}
