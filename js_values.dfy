/** The few JavaScript values and conversions the admin client's logic depends on. */
module JsValues {

  datatype Option<+T> = None | Some(value: T)

  /**
   * A JavaScript value as far as this model needs one: a plain object is a map of its own
   * properties. Numbers are integers; arrays and functions do not occur.
   */
  datatype Value =
    | Undefined
    | Null
    | Bool(b: bool)
    | Num(n: int)
    | Str(s: string)
    | Obj(props: map<string, Value>)

  predicate IsDigit(c: char) {
    '0' <= c <= '9'
  }

  predicate AllDigits(s: string) {
    forall i :: 0 <= i < |s| ==> IsDigit(s[i])
  }

  function Digit(d: nat): (c: char)
    requires d < 10
    ensures IsDigit(c) && c as int - '0' as int == d
  {
    ('0' as int + d) as char
  }

  function DigitValue(c: char): nat
    requires IsDigit(c)
  {
    c as int - '0' as int
  }

  /** The decimal numeral of n, most significant digit first, without leading zeros. */
  function NatToDecimal(n: nat): (r: string)
    ensures |r| >= 1 && AllDigits(r)
    ensures |r| > 1 ==> r[0] != '0'
    decreases n
  {
    if n < 10 then [Digit(n)] else NatToDecimal(n / 10) + [Digit(n % 10)]
  }

  /** The number a decimal numeral denotes: the partner of NatToDecimal. */
  function DecimalValue(s: string): nat
    requires AllDigits(s)
    decreases |s|
  {
    if s == [] then 0
    else DecimalValue(s[..|s| - 1]) * 10 + DigitValue(s[|s| - 1])
  }

  lemma {:induction false} DecimalRoundTrip(n: nat)
    ensures DecimalValue(NatToDecimal(n)) == n
    decreases n
  {
    var s := NatToDecimal(n);
    if n >= 10 {
      assert s[..|s| - 1] == NatToDecimal(n / 10);
      DecimalRoundTrip(n / 10);
    }
  }

  /** How a JavaScript integer is written out when it is turned into a string. */
  function IntToDecimal(n: int): (r: string)
    ensures |r| >= 1
    ensures n >= 0 ==> AllDigits(r) && DecimalValue(r) == n
    ensures n >= 0 && |r| > 1 ==> r[0] != '0'
    ensures n < 0 ==> r[0] == '-' && AllDigits(r[1..]) && DecimalValue(r[1..]) == -n
    ensures n < 0 && |r| > 2 ==> r[1] != '0'
  {
    DecimalRoundTrip(if n >= 0 then n else -n);
    if n >= 0 then NatToDecimal(n) else "-" + NatToDecimal(-n)
  }

  /** String(v): the text that `"..." + v` appends for a value v. */
  function ToJsString(v: Value): (r: string)
    ensures v.Num? && v.n >= 0 ==> AllDigits(r) && DecimalValue(r) == v.n
    ensures v.Num? && v.n < 0 ==> |r| >= 1 && r[0] == '-' && AllDigits(r[1..]) && DecimalValue(r[1..]) == -v.n
  {
    match v
    case Undefined => "undefined"
    case Null => "null"
    case Bool(b) => if b then "true" else "false"
    case Num(n) => IntToDecimal(n)
    case Str(s) => s
    case Obj(_) => "[object Object]"
  }

  /**
   * Reading `v.message`. None means the read throws a TypeError (v is undefined or null);
   * a primitive has no such property, so the read gives undefined.
   */
  function ReadMessage(v: Value): (r: Option<Value>)
    ensures r.None? <==> v == Undefined || v == Null
    ensures v.Obj? && "message" in v.props ==> r == Some(v.props["message"])
    ensures r.Some? && !(v.Obj? && "message" in v.props) ==> r == Some(Undefined)
  {
    match v
    case Undefined => None
    case Null => None
    case Obj(props) => Some(if "message" in props then props["message"] else Undefined)
    case _ => Some(Undefined)
  }
}
