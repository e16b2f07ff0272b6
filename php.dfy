/**
 * The small part of PHP's value model that the client constructor relies on:
 * byte strings, arrays keyed by strings, `empty()` and the string conversion
 * performed by the `.` operator.
 */
module Php {
  import opened Wrappers

  /** PHP strings are sequences of bytes, not of characters. */
  newtype byte = x: int | 0 <= x < 256

  type Bytes = seq<byte>

  /** The bytes of an ASCII literal (every character of the literals used here is below 128). */
  function Lit(s: string): (r: Bytes)
    ensures |r| == |s|
    ensures forall i :: 0 <= i < |s| ==> r[i] as int == (s[i] as int) % 256
  {
    seq(|s|, i requires 0 <= i < |s| => ((s[i] as int) % 256) as byte)
  }

  /**
   * A PHP value. Arrays are keyed by byte strings: PHP stores a canonical
   * numeric string key as the integer it spells, which is a one-to-one
   * renaming, so string keys lose nothing.
   */
  datatype Value =
    | Null
    | Bool(b: bool)
    | Int(i: int)
    | Str(s: Bytes)
    | Arr(entries: PhpArray)

  type PhpArray = map<Bytes, Value>

  /** `$a[$k]` as `array_key_exists` sees it: None exactly when the key is absent (a present null is `Some(Null)`). */
  function Lookup(a: PhpArray, k: Bytes): (r: Option<Value>)
    ensures r.Some? <==> k in a
    ensures r.Some? ==> r.value == a[k]
  {
    if k in a then Some(a[k]) else None
  }

  /**
   * PHP's `empty($a[$k])`: absent, null, false, 0, "", "0" and the empty
   * array. For everything but an array this is exactly "the string form is
   * empty or the single digit zero".
   */
  predicate IsEmpty(v: Option<Value>): (r: bool)
    ensures v.None? ==> r
    ensures v.Some? && !v.value.Arr? ==> (r <==> StringCast(v.value) == [] || StringCast(v.value) == Lit("0"))
  {
    assert Lit("0") == [48] && Lit("1") == [49];
    match v
    case None => true
    case Some(Null) => true
    case Some(Bool(b)) => !b
    case Some(Int(i)) => i == 0
    case Some(Str(s)) => s == [] || s == Lit("0")
    case Some(Arr(entries)) => entries == map[]
  }

  /** The number a string of decimal digits spells, most significant first. */
  function DigitsValue(s: Bytes): int
    decreases |s|
  {
    if s == [] then 0 else DigitsValue(s[..|s| - 1]) * 10 + (s[|s| - 1] as int - 48)
  }

  /** The number a decimal numeral with an optional leading '-' spells. */
  function DecimalValue(s: Bytes): int {
    if |s| > 0 && s[0] == 45 then -DigitsValue(s[1..]) else DigitsValue(s)
  }

  /** Decimal digits of a natural number, most significant first. */
  function NatDecimal(n: nat): (r: Bytes)
    ensures |r| > 0
    ensures forall i :: 0 <= i < |r| ==> 48 <= r[i] <= 57
    ensures DigitsValue(r) == n
    ensures r[0] == 48 ==> n == 0
    decreases n
  {
    if n < 10 then [(48 + n) as byte]
    else
      var r := NatDecimal(n / 10) + [(48 + n % 10) as byte];
      assert r[..|r| - 1] == NatDecimal(n / 10);
      assert r[0] == NatDecimal(n / 10)[0];
      r
  }

  /** The decimal spelling PHP gives an integer, with a leading '-' when negative. */
  function IntDecimal(n: int): (r: Bytes)
    ensures |r| > 0
    ensures r[0] == 45 || 48 <= r[0] <= 57
    ensures DecimalValue(r) == n
    ensures r[0] == 45 <==> n < 0
    ensures n < 0 ==> r[1..] == NatDecimal(-n)
    ensures n >= 0 ==> r == NatDecimal(n)
  {
    if n < 0 then
      var r := [45] + NatDecimal(-n);
      assert r[1..] == NatDecimal(-n);
      r
    else NatDecimal(n)
  }

  /**
   * The string PHP produces for `(string) $v`, as the `.` operator and
   * `strpos` coerce their operands: null and false give "", true gives "1",
   * an integer its decimal numeral, an array "Array" (after an "Array to
   * string conversion" warning).
   */
  function StringCast(v: Value): (r: Bytes)
    ensures r == [] <==> v.Null? || v == Bool(false) || v == Str([])
    ensures v.Str? ==> r == v.s
    ensures v.Int? ==> DecimalValue(r) == v.i && r == IntDecimal(v.i)
    ensures v == Bool(true) ==> DecimalValue(r) == 1 && |r| == 1
    ensures v.Arr? ==> r == Lit("Array")
  {
    match v
    case Null => []
    case Bool(b) => if b then Lit("1") else []
    case Int(i) => IntDecimal(i)
    case Str(s) => s
    case Arr(_) => Lit("Array")
  }
}
