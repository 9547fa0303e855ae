/**
 * `Property.matches`: whether a record's value for a property passes a filter
 * expression such as `age>=18` or `gender="female"`. The expression is cut into a
 * property name, an operator and an operand; surrounding quotes are dropped; for a
 * `scalar(...)` type both sides become bucket indices, otherwise the operand becomes
 * an integer when it reads as one; then one of six operators compares the two sides.
 */
module Matcher {
  import opened Wrappers
  import opened Strings
  import opened Values
  import opened Errors

  /** The characters operators are made of. */
  const OPERATOR_CHARS: set<char> := {'=', '!', '<', '>'}

  /** The six operators a filter may use. */
  predicate IsOperator(op: string) {
    op == "=" || op == "!=" || op == ">" || op == ">=" || op == "<" || op == "<="
  }

  /** The property a filter names: the text before its first operator character. */
  function FilterName(f: string): string {
    PrefixBefore(f, OPERATOR_CHARS)
  }

  /** The run of operator characters a text starts with. */
  function OperatorRun(s: string): (r: string)
    ensures |r| <= |s| && r == s[..|r|]
    ensures forall i :: 0 <= i < |r| ==> r[i] in OPERATOR_CHARS
    ensures |r| < |s| ==> s[|r|] !in OPERATOR_CHARS
  {
    if s != [] && s[0] in OPERATOR_CHARS then [s[0]] + OperatorRun(s[1..]) else ""
  }

  /** What follows the name: the longest run of operator characters, then the operand. */
  function SplitOperator(s: string): (r: (string, string))
    ensures r.0 + r.1 == s
    ensures forall i :: 0 <= i < |r.0| ==> r.0[i] in OPERATOR_CHARS
    ensures r.1 != [] ==> r.1[0] !in OPERATOR_CHARS
  {
    var op := OperatorRun(s);
    (op, s[|op|..])
  }

  lemma {:induction false} OperatorRunSnoc(p: string, c: char)
    ensures OperatorRun(p + [c]) == if OperatorRun(p) == p && c in OPERATOR_CHARS then p + [c] else OperatorRun(p)
    decreases |p|
  {
    if p == [] {
      assert [] + [c] == [c];
      assert [c][1..] == [];
    } else {
      assert (p + [c])[0] == p[0];
      assert (p + [c])[1..] == p[1..] + [c];
      if p[0] in OPERATOR_CHARS {
        OperatorRunSnoc(p[1..], c);
        assert p == [p[0]] + p[1..];
      }
    }
  }

  /** Feeding one more character to the lexer: it extends the operator until the operand has begun. */
  lemma SplitOperatorSnoc(p: string, c: char)
    ensures SplitOperator(p + [c])
         == if SplitOperator(p).1 == [] && c in OPERATOR_CHARS then (SplitOperator(p).0 + [c], "")
            else (SplitOperator(p).0, SplitOperator(p).1 + [c])
  {
    OperatorRunSnoc(p, c);
    var run := OperatorRun(p);
    assert SplitOperator(p).1 == [] <==> run == p;
    if !(run == p && c in OPERATOR_CHARS) {
      assert (p + [c])[|run|..] == p[|run|..] + [c];
    }
  }

  /** The lexing loop of `matches`, one character at a time. */
  method Lex(filterExp: string) returns (name: string, operator: string, operand: string)
    ensures name == FilterName(filterExp)
    ensures (operator, operand) == SplitOperator(filterExp[|name|..])
  {
    name := FilterName(filterExp);
    var rest := filterExp[|name|..];
    operator := "";
    operand := "";
    var i := 0;
    while i < |rest|
      invariant 0 <= i <= |rest|
      invariant (operator, operand) == SplitOperator(rest[..i])
    {
      var c := rest[i];
      SplitOperatorSnoc(rest[..i], c);
      assert rest[..i + 1] == rest[..i] + [c];
      if operand == "" {
        if c in OPERATOR_CHARS {
          operator := operator + [c];
        } else {
          operand := [c];
        }
      } else {
        operand := operand + [c];
      }
      i := i + 1;
    }
    assert rest[..i] == rest;
  }

  /** `s[1:-1]` when `s` starts and ends with the same quote character, otherwise `s`. */
  function StripQuotes(s: string): string
    requires s != []
  {
    if (s[0] == '"' && s[|s| - 1] == '"') || (s[0] == '\'' && s[|s| - 1] == '\'') then
      (if |s| >= 2 then s[1..|s| - 1] else "")
    else s
  }

  /** Whether a property type is a scalar type (`scalar(...)`, in any letter case). */
  predicate IsScalarType(tp: string) {
    StartsWith(Lower(tp), "scalar")
  }

  /** `tp.split('(')[1][:-1].split(',')`: a scalar type's list of buckets. */
  function Buckets(tp: string): Result<seq<string>, Error> {
    var parts := Split(tp, "(");
    if |parts| < 2 then Err(IndexOutOfRange) else Ok(Split(DropLast(parts[1]), ","))
  }

  /** The names of a bucket: its `=`-separated aliases; a bucket without `=` is its own second alias. */
  function Aliases(bucket: string): seq<string> {
    var names := Split(bucket, "=");
    if |names| == 1 then names + [names[0]] else names
  }

  /** The index of the first bucket one of whose aliases is `text`. */
  function BucketIndex(buckets: seq<string>, text: string): (r: Option<nat>)
    ensures r.Some? ==> r.value < |buckets| && text in Aliases(buckets[r.value])
    ensures r.Some? ==> forall j :: 0 <= j < r.value ==> text !in Aliases(buckets[j])
    ensures r.None? <==> forall j :: 0 <= j < |buckets| ==> text !in Aliases(buckets[j])
    decreases |buckets|
  {
    if buckets == [] then None
    else
      var prefix := buckets[..|buckets| - 1];
      var k := BucketIndex(prefix, text);
      assert forall j :: 0 <= j < |prefix| ==> prefix[j] == buckets[j];
      if k.Some? then k
      else if text in Aliases(buckets[|buckets| - 1]) then Some(|buckets| - 1)
      else None
  }

  /** A value after the bucket loop: a text naming a bucket becomes that bucket's index, anything else stays. */
  function Bucketed(buckets: seq<string>, v: Value): Value {
    if v.Str? && BucketIndex(buckets, v.s).Some? then Int(BucketIndex(buckets, v.s).value) else v
  }

  /** The two sides the operator compares, or the error raised on the way there. */
  function Coerce(tp: string, val: Value, operand: string): Result<(Value, Value), Error> {
    if IsScalarType(tp) then
      match Buckets(tp)
      case Err(e) => Err(e)
      case Ok(buckets) =>
        var lhs := Bucketed(buckets, val);
        var rhs := Bucketed(buckets, Str(operand));
        if !lhs.Int? then Err(InvalidOption(Show(lhs)))
        else if !rhs.Int? then Err(InvalidOption(Show(rhs)))
        else Ok((lhs, rhs))
    else
      var n := ParseInt(operand);
      Ok((val, if n.Some? then Int(n.value) else Str(operand)))
  }

  /** Python 2's comparison operators on two values. */
  function Compare(op: string, a: Value, b: Value): Result<bool, Error> {
    if op == "=" then Ok(a == b)
    else if op == "!=" then Ok(a != b)
    else if op == ">" then Ok(Less(b, a))
    else if op == ">=" then Ok(Less(b, a) || a == b)
    else if op == "<" then Ok(Less(a, b))
    else if op == "<=" then Ok(Less(a, b) || a == b)
    else Err(UnknownOperator(op))
  }

  /** `matches(val, filter_exp)` for a property of type `tp`. */
  function Satisfies(tp: string, val: Value, filterExp: string): Result<bool, Error> {
    if val.Str? && val.s == "" then Err(IndexOutOfRange)
    else
      var name := FilterName(filterExp);
      var (op, operand) := SplitOperator(filterExp[|name|..]);
      if operand == "" then Err(IndexOutOfRange)
      else
        var lhs := if val.Str? then Str(StripQuotes(val.s)) else val;
        match Coerce(tp, lhs, StripQuotes(operand))
        case Err(e) => Err(e)
        case Ok((a, b)) => Compare(op, a, b)
  }

  /** The aliases list the loop builds for one bucket. */
  method AliasList(bucket: string) returns (names: seq<string>)
    ensures names == Aliases(bucket)
  {
    names := Split(bucket, "=");
    if |names| == 1 {
      names := names + [names[0]];
    }
  }

  /** One more bucket: a text not yet matched becomes this bucket's index when it is one of its aliases. */
  lemma BucketedStep(buckets: seq<string>, idx: nat, v: Value)
    requires idx < |buckets|
    ensures var w := Bucketed(buckets[..idx], v);
      Bucketed(buckets[..idx + 1], v) == if w.Str? && w.s in Aliases(buckets[idx]) then Int(idx) else w
  {
    assert buckets[..idx + 1][..idx] == buckets[..idx];
  }

  /** The bucket loop of `matches`, reassigning the value and the operand as buckets match. */
  method MapToBuckets(buckets: seq<string>, val: Value, operand: string) returns (lhs: Value, rhs: Value)
    ensures lhs == Bucketed(buckets, val) && rhs == Bucketed(buckets, Str(operand))
  {
    lhs, rhs := val, Str(operand);
    var idx := 0;
    while idx < |buckets|
      invariant 0 <= idx <= |buckets|
      invariant lhs == Bucketed(buckets[..idx], val)
      invariant rhs == Bucketed(buckets[..idx], Str(operand))
    {
      BucketedStep(buckets, idx, val);
      BucketedStep(buckets, idx, Str(operand));
      var names := AliasList(buckets[idx]);
      if lhs.Str? && lhs.s in names {
        lhs := Int(idx);
      }
      if rhs.Str? && rhs.s in names {
        rhs := Int(idx);
      }
      idx := idx + 1;
    }
    assert buckets[..idx] == buckets;
  }

  method Matches(tp: string, val: Value, filterExp: string) returns (r: Result<bool, Error>)
    ensures r == Satisfies(tp, val, filterExp)
  {
    var name, operator, operand := Lex(filterExp);
    var v := val;
    if v.Str? {
      if v.s == "" {
        return Err(IndexOutOfRange);
      }
      v := Str(StripQuotes(v.s));
    }
    if operand == "" {
      return Err(IndexOutOfRange);
    }
    var exp := StripQuotes(operand);
    var lhs, rhs;
    if IsScalarType(tp) {
      var buckets := Buckets(tp);
      if buckets.Err? {
        return Err(buckets.error);
      }
      lhs, rhs := MapToBuckets(buckets.value, v, exp);
      if !lhs.Int? {
        return Err(InvalidOption(Show(lhs)));
      }
      if !rhs.Int? {
        return Err(InvalidOption(Show(rhs)));
      }
    } else {
      var n := ParseInt(exp);
      lhs := v;
      rhs := if n.Some? then Int(n.value) else Str(exp);
    }
    r := Compare(operator, lhs, rhs);
  }

  /** A filter written as name, operator run and operand is cut back into exactly those three pieces. */
  lemma LexFilter(name: string, op: string, operand: string)
    requires forall i :: 0 <= i < |name| ==> name[i] !in OPERATOR_CHARS
    requires op != [] && forall i :: 0 <= i < |op| ==> op[i] in OPERATOR_CHARS
    requires operand == [] || operand[0] !in OPERATOR_CHARS
    ensures FilterName(name + op + operand) == name
    ensures SplitOperator((name + op + operand)[|name|..]) == (op, operand)
  {
    assert name + op + operand == name + (op + operand);
    PrefixBeforeAt(name, op + operand, OPERATOR_CHARS);
    assert (name + op + operand)[|name|..] == op + operand;
    OperatorRunOf(op, operand);
  }

  lemma {:induction false} OperatorRunOf(op: string, operand: string)
    requires forall i :: 0 <= i < |op| ==> op[i] in OPERATOR_CHARS
    requires operand == [] || operand[0] !in OPERATOR_CHARS
    ensures OperatorRun(op + operand) == op
    decreases |op|
  {
    if op != [] {
      assert (op + operand)[1..] == op[1..] + operand;
      OperatorRunOf(op[1..], operand);
      assert [op[0]] + op[1..] == op;
    }
  }

  /** Exactly one pair of matching quotes is removed. */
  lemma StripOnePair(s: string, q: char)
    requires q == '"' || q == '\''
    ensures StripQuotes([q] + s + [q]) == s
    ensures s != [] && s[0] != '"' && s[0] != '\'' ==> StripQuotes(s) == s
  {
    assert ([q] + s + [q])[1..|s| + 1] == s;
  }

  /** The integer the six operators compare an integer value against. */
  function CompareInts(op: string, v: int, n: int): bool
    requires IsOperator(op)
  {
    if op == "=" then v == n else if op == "!=" then v != n
    else if op == ">" then v > n else if op == ">=" then v >= n
    else if op == "<" then v < n else v <= n
  }

  /** `Satisfies` on a filter written as name, operator run and a non-empty operand. */
  lemma SatisfiesFilter(tp: string, val: Value, name: string, op: string, operand: string)
    requires forall i :: 0 <= i < |name| ==> name[i] !in OPERATOR_CHARS
    requires op != [] && forall i :: 0 <= i < |op| ==> op[i] in OPERATOR_CHARS
    requires operand != [] && operand[0] !in OPERATOR_CHARS
    requires val.Str? ==> val.s != []
    ensures Satisfies(tp, val, name + op + operand)
         == match Coerce(tp, if val.Str? then Str(StripQuotes(val.s)) else val, StripQuotes(operand))
            case Err(e) => Err(e)
            case Ok((a, b)) => Compare(op, a, b)
  {
    LexFilter(name, op, operand);
  }

  /** An integer operand compares numerically against an integer value, for each of the six operators. */
  lemma MatchesInteger(tp: string, name: string, op: string, v: int, n: int)
    requires !IsScalarType(tp)
    requires forall i :: 0 <= i < |name| ==> name[i] !in OPERATOR_CHARS
    requires IsOperator(op)
    ensures Satisfies(tp, Int(v), name + op + IntToString(n)) == Ok(CompareInts(op, v, n))
  {
    var digits := IntToString(n);
    assert digits[0] == '-' || IsDigit(digits[0]);
    SatisfiesFilter(tp, Int(v), name, op, digits);
    CoerceInteger(tp, v, n);
    CompareIntegers(op, v, n);
  }

  lemma CompareIntegers(op: string, v: int, n: int)
    requires IsOperator(op)
    ensures Compare(op, Int(v), Int(n)) == Ok(CompareInts(op, v, n))
  {
  }

  /** A non-scalar property reads `str(n)` back as the integer `n`. */
  lemma CoerceInteger(tp: string, v: int, n: int)
    requires !IsScalarType(tp)
    ensures IntToString(n) != [] && StripQuotes(IntToString(n)) == IntToString(n)
    ensures Coerce(tp, Int(v), IntToString(n)) == Ok((Int(v), Int(n)))
  {
    var digits := IntToString(n);
    assert digits[0] == '-' || IsDigit(digits[0]);
    StripOnePair(digits, '"');
    ParseShownInt(n);
  }

  /** Any other run of operator characters, such as `==`, `=>` or `<>`, is rejected once both sides are read. */
  lemma RejectsOtherOperators(tp: string, name: string, op: string, operand: string, v: int)
    requires !IsScalarType(tp)
    requires forall i :: 0 <= i < |name| ==> name[i] !in OPERATOR_CHARS
    requires op != [] && forall i :: 0 <= i < |op| ==> op[i] in OPERATOR_CHARS
    requires !IsOperator(op)
    requires operand != [] && operand[0] !in OPERATOR_CHARS
    ensures Satisfies(tp, Int(v), name + op + operand) == Err(UnknownOperator(op))
  {
    SatisfiesFilter(tp, Int(v), name, op, operand);
  }

  /** A scalar type written out as a list of buckets gives back that list. */
  lemma ScalarBuckets(prefix: string, buckets: seq<string>)
    requires '(' !in prefix
    requires |buckets| >= 1
    requires forall i :: 0 <= i < |buckets| ==> ',' !in buckets[i] && '(' !in buckets[i]
    ensures Buckets(prefix + "(" + Join(buckets, ",") + ")") == Ok(buckets)
  {
    var inner := Join(buckets, ",");
    JoinAvoids(buckets, ",", '(');
    assert prefix + "(" + inner + ")" == prefix + ['('] + (inner + ")");
    SplitAtFirst(prefix, '(', inner + ")");
    SplitAbsent(inner + ")", '(');
    assert DropLast(inner + ")") == inner;
    SplitJoin(buckets, ',');
  }

  /**
   * For a scalar type a value and an operand that name buckets are compared by bucket
   * index: the first bucket among whose aliases each appears.
   */
  lemma ScalarComparesIndices(tp: string, name: string, op: string, val: string, operand: string, i: nat, j: nat)
    requires IsScalarType(tp) && Buckets(tp).Ok?
    requires forall k :: 0 <= k < |name| ==> name[k] !in OPERATOR_CHARS
    requires IsOperator(op)
    requires val != [] && val[0] != '"' && val[0] != '\''
    requires operand != [] && operand[0] !in OPERATOR_CHARS && operand[0] != '"' && operand[0] != '\''
    requires BucketIndex(Buckets(tp).value, val) == Some(i)
    requires BucketIndex(Buckets(tp).value, operand) == Some(j)
    ensures Satisfies(tp, Str(val), name + op + operand) == Ok(CompareInts(op, i, j))
  {
    SatisfiesFilter(tp, Str(val), name, op, operand);
    StripOnePair(val, '"');
    StripOnePair(operand, '"');
    CoerceScalar(tp, val, operand, i, j);
    CompareIntegers(op, i, j);
  }

  lemma CoerceScalar(tp: string, val: string, operand: string, i: nat, j: nat)
    requires IsScalarType(tp) && Buckets(tp).Ok?
    requires BucketIndex(Buckets(tp).value, val) == Some(i)
    requires BucketIndex(Buckets(tp).value, operand) == Some(j)
    ensures Coerce(tp, Str(val), operand) == Ok((Int(i), Int(j)))
  {
  }

  /** For a scalar type a value that names no bucket is an invalid option. */
  lemma ScalarUnmatched(tp: string, name: string, op: string, val: string, operand: string)
    requires IsScalarType(tp) && Buckets(tp).Ok?
    requires forall k :: 0 <= k < |name| ==> name[k] !in OPERATOR_CHARS
    requires op != [] && forall k :: 0 <= k < |op| ==> op[k] in OPERATOR_CHARS
    requires val != [] && val[0] != '"' && val[0] != '\''
    requires operand != [] && operand[0] !in OPERATOR_CHARS
    requires BucketIndex(Buckets(tp).value, val).None?
    ensures Satisfies(tp, Str(val), name + op + operand) == Err(InvalidOption(val))
  {
    SatisfiesFilter(tp, Str(val), name, op, operand);
    StripOnePair(val, '"');
    CoerceUnmatched(tp, val, StripQuotes(operand));
  }

  /** A scalar value that names no bucket is rejected before the operand is looked at. */
  lemma CoerceUnmatched(tp: string, val: string, operand: string)
    requires IsScalarType(tp) && Buckets(tp).Ok?
    requires BucketIndex(Buckets(tp).value, val).None?
    ensures Coerce(tp, Str(val), operand) == Err(InvalidOption(val))
  {
    assert Bucketed(Buckets(tp).value, Str(val)) == Str(val);
  }

  /** For a scalar type an operand that names no bucket is an invalid option, once the value has named one. */
  lemma OperandUnmatched(tp: string, name: string, op: string, val: string, operand: string, i: nat)
    requires IsScalarType(tp) && Buckets(tp).Ok?
    requires forall k :: 0 <= k < |name| ==> name[k] !in OPERATOR_CHARS
    requires op != [] && forall k :: 0 <= k < |op| ==> op[k] in OPERATOR_CHARS
    requires val != [] && val[0] != '"' && val[0] != '\''
    requires operand != [] && operand[0] !in OPERATOR_CHARS && operand[0] != '"' && operand[0] != '\''
    requires BucketIndex(Buckets(tp).value, val) == Some(i)
    requires BucketIndex(Buckets(tp).value, operand).None?
    ensures Satisfies(tp, Str(val), name + op + operand) == Err(InvalidOption(operand))
  {
    SatisfiesFilter(tp, Str(val), name, op, operand);
    StripOnePair(val, '"');
    StripOnePair(operand, '"');
    CoerceOperandUnmatched(tp, val, operand, i);
  }

  /** A scalar operand that names no bucket is rejected after a value that names one. */
  lemma CoerceOperandUnmatched(tp: string, val: string, operand: string, i: nat)
    requires IsScalarType(tp) && Buckets(tp).Ok?
    requires BucketIndex(Buckets(tp).value, val) == Some(i)
    requires BucketIndex(Buckets(tp).value, operand).None?
    ensures Coerce(tp, Str(val), operand) == Err(InvalidOption(operand))
  {
    assert Bucketed(Buckets(tp).value, Str(operand)) == Str(operand);
  }
}
