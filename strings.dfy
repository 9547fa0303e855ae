/**
 * The few string operations of Python 2 that the property engine is built from:
 * `str.split`, `sep.join`, `str.replace`, `str.find`, `str.lower`, `str.startswith`,
 * the first piece of a character-class `re.split` and the slice `s[:-1]`.
 * Strings are sequences of characters; `lower` only folds ASCII letters, as a byte
 * string does in Python 2.
 */
module Strings {

  predicate StartsWith(s: string, prefix: string) {
    |prefix| <= |s| && s[..|prefix|] == prefix
  }

  /** `s.split(sep)` for a non-empty separator: cut at each occurrence, scanning left to right. */
  function Split(s: string, sep: string): (parts: seq<string>)
    requires |sep| > 0
    ensures |parts| >= 1
    decreases |s|
  {
    if StartsWith(s, sep) then [""] + Split(s[|sep|..], sep)
    else if s == [] then [""]
    else
      var rest := Split(s[1..], sep);
      [[s[0]] + rest[0]] + rest[1..]
  }

  /** `sep.join(parts)`. */
  function Join(parts: seq<string>, sep: string): string
    decreases |parts|
  {
    if parts == [] then ""
    else if |parts| == 1 then parts[0]
    else parts[0] + sep + Join(parts[1..], sep)
  }

  /** `s.replace(target, replacement)` for a non-empty `target`: every non-overlapping occurrence, left to right. */
  function Replace(s: string, target: string, replacement: string): string
    requires |target| > 0
  {
    Join(Split(s, target), replacement)
  }

  /** `s.find(c)`: the index of the first `c`, or -1. */
  function Find(s: string, c: char): (r: int)
    ensures -1 <= r < |s|
    ensures r == -1 <==> c !in s
    ensures r >= 0 ==> s[r] == c && c !in s[..r]
  {
    if s == [] then -1
    else if s[0] == c then 0
    else
      var k := Find(s[1..], c);
      if k == -1 then -1 else k + 1
  }

  /** `re.split('[...]', s)[0]`: the text before the first character of `stops`. */
  function PrefixBefore(s: string, stops: set<char>): (r: string)
    ensures |r| <= |s| && r == s[..|r|]
    ensures forall i :: 0 <= i < |r| ==> r[i] !in stops
    ensures |r| < |s| ==> s[|r|] in stops
  {
    if s == [] || s[0] in stops then ""
    else [s[0]] + PrefixBefore(s[1..], stops)
  }

  /** `s[lo:hi]` for non-negative bounds: the upper bound is clipped to the length. */
  function Slice(s: string, lo: nat, hi: nat): (r: string)
    ensures |r| <= |s|
  {
    var h := if hi > |s| then |s| else hi;
    if lo >= h then "" else s[lo..h]
  }

  /** `s[:-1]`. */
  function DropLast(s: string): string {
    if s == [] then "" else s[..|s| - 1]
  }

  function LowerChar(c: char): char {
    if 'A' <= c <= 'Z' then (c as int + 32) as char else c
  }

  /** Concatenation is associative; stated once so that long texts can be regrouped cheaply. */
  lemma ConcatAssoc<T>(a: seq<T>, b: seq<T>, c: seq<T>)
    ensures a + b + c == a + (b + c)
  {
  }

  /** `s.lower()` on a byte string: ASCII letters only. */
  function Lower(s: string): (r: string)
    ensures |r| == |s|
    ensures forall i :: 0 <= i < |s| ==> r[i] == LowerChar(s[i])
  {
    if s == [] then "" else [LowerChar(s[0])] + Lower(s[1..])
  }

  lemma JoinCons(a: string, b: string, rest: seq<string>, sep: string)
    ensures Join([a + b] + rest, sep) == a + Join([b] + rest, sep)
  {
    if rest != [] {
      assert ([a + b] + rest)[1..] == rest;
      assert ([b] + rest)[1..] == rest;
    }
  }

  /** A piece in front of at least one more is followed by the separator. */
  lemma JoinFront(x: string, rest: seq<string>, sep: string)
    requires |rest| >= 1
    ensures Join([x] + rest, sep) == x + sep + Join(rest, sep)
  {
    assert ([x] + rest)[1..] == rest;
  }

  /** Joining the pieces of a split with the same separator gives back the text. */
  lemma {:induction false} JoinSplit(s: string, sep: string)
    requires |sep| > 0
    ensures Join(Split(s, sep), sep) == s
    decreases |s|
  {
    if StartsWith(s, sep) {
      var t := s[|sep|..];
      var rest := Split(t, sep);
      JoinSplit(t, sep);
      JoinFront("", rest, sep);
      assert s == "" + sep + t by {
        assert s[..|sep|] == sep;
      }
    } else if s != [] {
      var t := s[1..];
      var rest := Split(t, sep);
      JoinSplit(t, sep);
      JoinCons([s[0]], rest[0], rest[1..], sep);
      assert [rest[0]] + rest[1..] == rest;
      assert s == [s[0]] + t;
    }
  }

  /** A joined text holds only characters of its pieces and of the separator. */
  lemma {:induction false} JoinAvoids(parts: seq<string>, sep: string, c: char)
    requires c !in sep
    requires forall i :: 0 <= i < |parts| ==> c !in parts[i]
    ensures c !in Join(parts, sep)
    decreases |parts|
  {
    if |parts| > 1 {
      JoinAvoids(parts[1..], sep, c);
    }
  }

  /** One character of a split on a single character. */
  lemma SplitCons(x: char, t: string, c: char)
    ensures Split([x] + t, [c]) == if x == c then [""] + Split(t, [c])
                                   else [[x] + Split(t, [c])[0]] + Split(t, [c])[1..]
  {
    var s := [x] + t;
    assert s[..1] == [x] && s[1..] == t;
  }

  /** No piece of a split on a single character contains that character. */
  lemma {:induction false} SplitPiecesFree(s: string, c: char)
    ensures forall i :: 0 <= i < |Split(s, [c])| ==> c !in Split(s, [c])[i]
    decreases |s|
  {
    if StartsWith(s, [c]) {
      SplitPiecesFree(s[1..], c);
    } else if s == [] {
    } else {
      SplitPiecesFree(s[1..], c);
      assert s[0] != c;
    }
  }

  /** Text without the separator splits into itself alone. */
  lemma {:induction false} SplitAbsent(s: string, c: char)
    requires c !in s
    ensures Split(s, [c]) == [s]
    decreases |s|
  {
    if s != [] {
      assert s[..1] == [s[0]];
      SplitAbsent(s[1..], c);
      assert [s[0]] + s[1..] == s;
    }
  }

  /** Splitting what was joined, when no piece holds the separator, gives back the pieces. */
  lemma {:induction false} SplitJoin(parts: seq<string>, c: char)
    requires |parts| >= 1
    requires forall i :: 0 <= i < |parts| ==> c !in parts[i]
    ensures Split(Join(parts, [c]), [c]) == parts
    decreases |parts|
  {
    if |parts| == 1 {
      SplitAbsent(parts[0], c);
    } else {
      SplitJoin(parts[1..], c);
      assert c !in parts[0];
      SplitAtFirst(parts[0], c, Join(parts[1..], [c]));
      assert [parts[0]] + parts[1..] == parts;
    }
  }

  /** The first piece of a split on `c` is everything before the first `c`. */
  lemma {:induction false} SplitAtFirst(a: string, c: char, b: string)
    requires c !in a
    ensures Split(a + [c] + b, [c]) == [a] + Split(b, [c])
    decreases |a|
  {
    var s := a + [c] + b;
    if a == [] {
      assert s[..1] == [c];
      assert s[1..] == b;
    } else {
      assert s[..1] == [a[0]];
      assert s[1..] == a[1..] + [c] + b;
      SplitAtFirst(a[1..], c, b);
      assert [a[0]] + a[1..] == a;
    }
  }

  /** `find` on text with a known first occurrence. */
  lemma {:induction false} FindFirst(a: string, c: char, b: string)
    requires c !in a
    ensures Find(a + [c] + b, c) == |a|
    decreases |a|
  {
    if a != [] {
      assert (a + [c] + b)[1..] == a[1..] + [c] + b;
      FindFirst(a[1..], c, b);
    }
  }

  /** The character-class prefix of a text that starts with a stop character after `a`. */
  lemma {:induction false} PrefixBeforeAt(a: string, tail: string, stops: set<char>)
    requires forall i :: 0 <= i < |a| ==> a[i] !in stops
    requires tail != [] && tail[0] in stops
    ensures PrefixBefore(a + tail, stops) == a
    decreases |a|
  {
    if a != [] {
      assert (a + tail)[1..] == a[1..] + tail;
      PrefixBeforeAt(a[1..], tail, stops);
      assert [a[0]] + a[1..] == a;
    }
  }

  /** Text free of the separator stays glued to the first piece of what follows it. */
  lemma {:induction false} SplitPrefixFree(a: string, b: string, c: char)
    requires c !in a
    ensures var parts := Split(b, [c]);
      Split(a + b, [c]) == [a + parts[0]] + parts[1..]
    decreases |a|
  {
    if a == [] {
      assert a + b == b;
      var parts := Split(b, [c]);
      assert a + parts[0] == parts[0];
      assert [parts[0]] + parts[1..] == parts;
    } else {
      var s := a + b;
      assert s[..1] == [a[0]] && s != [];
      assert s[1..] == a[1..] + b;
      SplitPrefixFree(a[1..], b, c);
      var parts := Split(b, [c]);
      var rest := Split(s[1..], [c]);
      assert rest == [a[1..] + parts[0]] + parts[1..];
      assert !StartsWith(s, [c]);
      assert Split(s, [c]) == [[s[0]] + rest[0]] + rest[1..];
      assert rest[1..] == parts[1..];
      assert [a[0]] + (a[1..] + parts[0]) == a + parts[0];
    }
  }
}
