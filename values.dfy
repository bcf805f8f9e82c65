/**
 * The JavaScript values that flow through the tool: command-line options,
 * parsed YAML records and connection profiles.
 */
module Values {

  /** A JavaScript value, as far as the tool inspects it. `NonInteger` stands
      for every number that is not an integer (fractions and NaN); only
      whether a number is an integer matters to the rules. */
  datatype Value =
    | Undefined
    | Null
    | Bool(b: bool)
    | Int(i: int)
    | NonInteger
    | Str(s: string)
    | Obj(fields: map<string, Value>)

  /** A plain object: property name to value. */
  type Record = map<string, Value>

  predicate IsDigit(c: char) { '0' <= c <= '9' }

  predicate AllDigits(s: string) { forall k :: 0 <= k < |s| ==> IsDigit(s[k]) }

  function DigitChar(d: nat): (c: char)
    requires d < 10
    ensures IsDigit(c)
  {
    ('0' as int + d) as char
  }

  /** The value of a string of decimal digits, read left to right. */
  function DecimalValue(s: string): nat
    requires AllDigits(s)
  {
    if s == [] then 0
    else DecimalValue(s[..|s| - 1]) * 10 + (s[|s| - 1] as int - '0' as int)
  }

  /** The shortest decimal spelling of `n`, as `String(n)` writes it. */
  function Decimal(n: nat): (s: string)
    ensures |s| >= 1 && AllDigits(s)
    ensures |s| > 1 ==> s[0] != '0'
  {
    if n < 10 then [DigitChar(n)] else Decimal(n / 10) + [DigitChar(n % 10)]
  }

  /** JavaScript's `Number(v)`, for the values the tool passes to it.
      A string is an optional sign followed by decimal digits; the empty
      string is 0. */
  function Number(v: Value): (r: Value)
    ensures r.Int? || r == NonInteger
    ensures v.Int? ==> r == v
    ensures v.Str? && AllDigits(v.s) ==> r == Int(DecimalValue(v.s))
  {
    match v
    case Int(i) => v
    case Str(s) =>
      if AllDigits(s) then Int(DecimalValue(s))
      else if |s| >= 2 && s[0] == '-' && AllDigits(s[1..]) then Int(0 - (DecimalValue(s[1..]) as int))
      else if |s| >= 2 && s[0] == '+' && AllDigits(s[1..]) then Int(DecimalValue(s[1..]))
      else NonInteger
    case Bool(b) => if b then Int(1) else Int(0)
    case Null => Int(0)
    case _ => NonInteger
  }

  /** The text a template literal `${v}` produces for `v`. */
  function Text(v: Value): string
  {
    match v
    case Undefined => "undefined"
    case Null => "null"
    case Bool(b) => if b then "true" else "false"
    case Int(i) => if i < 0 then "-" + Decimal(-i) else Decimal(i)
    case NonInteger => "NaN"
    case Str(s) => s
    case Obj(_) => "[object Object]"
  }
}
