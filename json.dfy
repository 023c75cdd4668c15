/** The parsed key file: JSON values as the loader sees them (`Json::Value`), the
    conversions it applies (`asString`, `isIntegral`, `asUInt`), and the document a key
    file holds. Reading and parsing the text is not part of this model; a key file's text
    is either an object or does not parse. */
module Json {
  import opened Bytes

  datatype JValue =
    | JNull
    | JBool(b: bool)
    | JInt(i: int)
    | JString(s: string)
    | JCompound  // an array or an object

  type JObject = map<string, JValue>

  /** What `Json::Reader::parse` leaves behind. */
  datatype Document = Unparseable | Object(members: JObject)

  function DigitChar(d: nat): char
    requires d < 10
  {
    ('0' as int + d) as char
  }

  function NatToDecimal(n: nat): (s: string)
    ensures |s| > 0 && '0' <= s[0] <= '9'
    decreases n
  {
    if n < 10 then [DigitChar(n)] else NatToDecimal(n / 10) + [DigitChar(n % 10)]
  }

  /** `Value::asString()`: strings as they are, scalars in their textual form. */
  function AsString(v: JValue): (s: string)
    ensures v.JString? ==> s == v.s
    ensures v.JInt? ==> |s| > 0 && (s[0] == '-' || '0' <= s[0] <= '9')
  {
    match v
    case JNull => ""
    case JBool(b) => if b then "true" else "false"
    case JInt(i) => if i < 0 then "-" + NatToDecimal(-i) else NatToDecimal(i)
    case JString(s) => s
    case JCompound => ""
  }

  /** `Value::isIntegral()`, for the values whose `asUInt()` is their own value: a JSON
      integer in the range of a 32-bit unsigned value. */
  predicate IsIntegral(v: JValue)
  {
    v.JInt? && 0 <= v.i <= MaxUInt32
  }

  /** `Value::asUInt()` on an integral value. */
  function AsUInt(v: JValue): (n: uint32)
    requires IsIntegral(v)
    ensures n == v.i
  {
    v.i
  }

  /** The sequence number as the key file stores it: `Json::UInt(sequence)`. */
  function FromUInt(n: uint32): (v: JValue)
    ensures IsIntegral(v) && AsUInt(v) == n
  {
    JInt(n)
  }
}
