/**
 * The scalar values that flow through records: what a database column, a provider
 * call or a filter operand can hold, with the Python 2 operations the engine applies
 * to them: `str(...)`, `int(...)` on text, and the built-in ordering, which puts
 * `None` below every number and every number below every string.
 */
module Values {
  import opened Wrappers

  datatype Value = Null | Int(i: int) | Str(s: string)

  /** One evaluated user: property name to value (a Python dict). */
  type Record = map<string, Value>

  predicate IsDigit(c: char) {
    '0' <= c <= '9'
  }

  predicate AllDigits(s: string) {
    forall i :: 0 <= i < |s| ==> IsDigit(s[i])
  }

  function DigitChar(d: nat): (c: char)
    requires d < 10
    ensures IsDigit(c)
  {
    ('0' as int + d) as char
  }

  /** Decimal digits of a natural number, most significant first, without leading zeros. */
  function NatToString(n: nat): (r: string)
    ensures |r| >= 1 && AllDigits(r)
    decreases n
  {
    if n < 10 then [DigitChar(n)] else NatToString(n / 10) + [DigitChar(n % 10)]
  }

  /** `str(n)` for an integer. */
  function IntToString(n: int): string {
    if n < 0 then "-" + NatToString(-n) else NatToString(n)
  }

  /** `str(v)`. */
  function Show(v: Value): string {
    match v
    case Null => "None"
    case Int(n) => IntToString(n)
    case Str(s) => s
  }

  /** The number a run of decimal digits denotes. */
  function DigitsValue(s: string): nat
    requires AllDigits(s)
    decreases |s|
  {
    if s == [] then 0
    else DigitsValue(s[..|s| - 1]) * 10 + (s[|s| - 1] as int - '0' as int)
  }

  /** The whitespace `int()` ignores around its argument. */
  predicate IsSpace(c: char) {
    c == ' ' || c == '\t' || c == '\n' || c == '\r' || c == 11 as char || c == 12 as char
  }

  function StripLeft(s: string): string {
    if s != [] && IsSpace(s[0]) then StripLeft(s[1..]) else s
  }

  function StripRight(s: string): string {
    if s != [] && IsSpace(s[|s| - 1]) then StripRight(s[..|s| - 1]) else s
  }

  /** A run of one or more decimal digits and the number it denotes; anything else is no number. */
  function Decimal(d: string): Option<int> {
    if d != [] && AllDigits(d) then Some(DigitsValue(d) as int) else None
  }

  /**
   * `int(s)` on a byte string in base 10: surrounding whitespace, an optional sign,
   * more whitespace (the digit scan after the sign skips it again), one or more digits.
   */
  function ParseInt(s: string): Option<int> {
    var t := StripRight(StripLeft(s));
    if t != [] && (t[0] == '-' || t[0] == '+') then
      match Decimal(StripLeft(t[1..]))
      case Some(n) => Some(if t[0] == '-' then 0 - n else n)
      case None => None
    else Decimal(t)
  }

  /** Lexicographic order of byte strings. */
  predicate StrLess(x: string, y: string)
    decreases |x|
  {
    if x == [] then y != []
    else if y == [] then false
    else if x[0] != y[0] then x[0] < y[0]
    else StrLess(x[1..], y[1..])
  }

  /** Python 2's `a < b` on these values: None, then numbers, then strings. */
  predicate Less(a: Value, b: Value) {
    match (a, b)
    case (Null, Null) => false
    case (Null, _) => true
    case (Int(_), Null) => false
    case (Int(x), Int(y)) => x < y
    case (Int(_), Str(_)) => true
    case (Str(x), Str(y)) => StrLess(x, y)
    case (Str(_), _) => false
  }

  lemma {:induction false} DigitsOfNat(n: nat)
    ensures DigitsValue(NatToString(n)) == n
    decreases n
  {
    var r := NatToString(n);
    if n < 10 {
      assert r[..|r| - 1] == [];
    } else {
      DigitsOfNat(n / 10);
      assert r[..|r| - 1] == NatToString(n / 10);
    }
  }

  /** Whitespace between the sign and the digits is skipped: `int("- 5")` is `-5`. */
  lemma SignedDecimal(sign: char, w: string, d: string)
    requires sign == '-' || sign == '+'
    requires AllSpace(w) && d != [] && AllDigits(d)
    ensures ParseInt([sign] + w + d).Some?
    ensures ParseInt([sign] + w + d).value == if sign == '-' then 0 - DigitsValue(d) as int else DigitsValue(d) as int
  {
    var s := [sign] + w + d;
    var t := StripRight(StripLeft(s));
    assert t == s by { SignedUnstripped(sign, w, d); }
    assert StripLeft(t[1..]) == d by { assert s[1..] == w + d; SpacesThenDigits(w, d); }
  }

  predicate AllSpace(w: string) {
    forall i :: 0 <= i < |w| ==> IsSpace(w[i])
  }

  lemma SignedUnstripped(sign: char, w: string, d: string)
    requires !IsSpace(sign) && d != [] && AllDigits(d)
    ensures StripRight(StripLeft([sign] + w + d)) == [sign] + w + d
  {
    var s := [sign] + w + d;
    assert StripLeft(s) == s;
    assert s[|s| - 1] == d[|d| - 1] && IsDigit(d[|d| - 1]);
  }

  lemma {:induction false} SpacesThenDigits(w: string, d: string)
    requires AllSpace(w) && d != [] && AllDigits(d)
    ensures StripLeft(w + d) == d
    decreases |w|
  {
    if w == [] {
      assert w + d == d;
      DigitsUnstripped(d);
    } else {
      assert (w + d)[1..] == w[1..] + d;
      SpacesThenDigits(w[1..], d);
    }
  }

  /** Digits carry no whitespace to skip. */
  lemma DigitsUnstripped(d: string)
    requires d != [] && AllDigits(d)
    ensures StripLeft(d) == d && StripRight(d) == d
  {
    assert IsDigit(d[0]) && !IsSpace(d[0]);
    assert IsDigit(d[|d| - 1]) && !IsSpace(d[|d| - 1]);
  }

  /** `int(str(n)) == n`. */
  lemma ParseShownInt(n: int)
    ensures ParseInt(IntToString(n)).Some? && ParseInt(IntToString(n)).value == n
  {
    var digits := NatToString(if n < 0 then -n else n);
    DigitsOfNat(if n < 0 then -n else n);
    if n < 0 {
      assert IntToString(n) == ['-'] + [] + digits;
      SignedDecimal('-', [], digits);
    } else {
      DigitsUnstripped(digits);
      assert digits[0] != '-' && digits[0] != '+';
    }
  }




  lemma {:induction false} StrLessIrreflexive(x: string)
    ensures !StrLess(x, x)
    decreases |x|
  {
    if x != [] {
      StrLessIrreflexive(x[1..]);
    }
  }

  lemma {:induction false} StrLessTrichotomous(x: string, y: string)
    ensures x == y || StrLess(x, y) || StrLess(y, x)
    decreases |x|
  {
    if x != [] && y != [] && x[0] == y[0] {
      StrLessTrichotomous(x[1..], y[1..]);
      assert x == [x[0]] + x[1..] && y == [y[0]] + y[1..];
    }
  }

  lemma {:induction false} StrLessTransitive(x: string, y: string, z: string)
    requires StrLess(x, y) && StrLess(y, z)
    ensures StrLess(x, z)
    decreases |x|
  {
    if x != [] && x[0] == y[0] && y[0] == z[0] {
      StrLessTransitive(x[1..], y[1..], z[1..]);
    }
  }

  /** Python 2's ordering on these values is a strict total order. */
  lemma LessIsStrictTotalOrder(a: Value, b: Value, c: Value)
    ensures !Less(a, a)
    ensures a == b || Less(a, b) || Less(b, a)
    ensures Less(a, b) && Less(b, c) ==> Less(a, c)
  {
    if a.Str? {
      StrLessIrreflexive(a.s);
    }
    if a.Str? && b.Str? {
      StrLessTrichotomous(a.s, b.s);
    }
    if a.Str? && b.Str? && c.Str? && Less(a, b) && Less(b, c) {
      StrLessTransitive(a.s, b.s, c.s);
    }
  }
}
