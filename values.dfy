/** PHP values as the controller sees them: request parameters, record
    attributes, PHP's truthiness test and its conversions to and from strings. */
module Values {

  datatype Option<+T> = None | Some(value: T)

  /** The scalar values a request parameter or a record attribute can hold. */
  datatype Value = Null | Bool(b: bool) | Int(i: int) | Str(s: string)

  /** `$request->all()` and a record's attributes: names mapped to values. */
  type Params = map<string, Value>

  /** PHP truthiness: null, false, 0, "" and "0" are falsy, every other value is truthy. */
  predicate Truthy(v: Value) {
    match v
    case Null => false
    case Bool(b) => b
    case Int(i) => i != 0
    case Str(s) => s != "" && s != "0"
  }

  /** `@$m[$k]` (or `@$record->k`): the value under `k`, or null when the key is absent. */
  function Get(m: Params, k: string): Value {
    if k in m then m[k] else Null
  }

  /** `isset($m[$k])`: the key is present and does not hold null. */
  predicate IsSet(m: Params, k: string) {
    k in m && m[k] != Null
  }

  predicate AllDigits(s: string) {
    forall i :: 0 <= i < |s| ==> '0' <= s[i] <= '9'
  }

  function Digit(d: nat): (c: char)
    requires d < 10
  {
    ('0' as int + d) as char
  }

  /** Decimal rendering of a natural number, most significant digit first. */
  function NatToString(n: nat): (s: string)
    ensures |s| > 0 && AllDigits(s)
  {
    if n < 10 then [Digit(n)] else NatToString(n / 10) + [Digit(n % 10)]
  }

  /** PHP's string form of an integer (`$count . " "`). */
  function IntToString(i: int): string {
    if i < 0 then "-" + NatToString(-i) else NatToString(i)
  }

  /** The number a string of decimal digits denotes. */
  function DigitsValue(s: string): nat
    requires AllDigits(s)
  {
    if |s| == 0 then 0 else DigitsValue(s[..|s| - 1]) * 10 + (s[|s| - 1] as int - '0' as int)
  }

  /** Reads a non-empty string of decimal digits; anything else is not a number. */
  function ParseNat(s: string): Option<nat> {
    if |s| == 0 || !AllDigits(s) then None else Some(DigitsValue(s))
  }

  /** Reading back the decimal rendering of a number gives the number. */
  lemma {:induction false} ParseNatToString(n: nat)
    ensures ParseNat(NatToString(n)) == Some(n)
  {
    var s := NatToString(n);
    if n < 10 {
      assert s == [Digit(n)];
      assert s[..|s| - 1] == [];
      assert DigitsValue(s) == DigitsValue([]) * 10 + n;
    } else {
      ParseNatToString(n / 10);
      assert s[..|s| - 1] == NatToString(n / 10);
      assert s[|s| - 1] as int - '0' as int == n % 10;
    }
  }

  /** PHP's conversion of a value to a string, as `.` concatenation performs it. */
  function ToText(v: Value): string {
    match v
    case Null => ""
    case Bool(b) => if b then "1" else ""
    case Int(i) => IntToString(i)
    case Str(s) => s
  }

  /** The primary key a value selects in `findOrFail`: an integer, or a string of
      decimal digits; any other value selects no row. */
  function AsKey(v: Value): Option<int> {
    match v
    case Int(i) => Some(i)
    case Str(s) => (match ParseNat(s) case Some(k) => Some(k as int) case None => None)
    case _ => None
  }

  /** A natural number written as it appears in a URL or a form selects the row with that key. */
  lemma AsKeyOfRendered(n: nat)
    ensures AsKey(Str(NatToString(n))) == Some(n)
    ensures AsKey(Int(n)) == Some(n)
  {
    ParseNatToString(n);
  }
}
