/**
 * Python 2.7's `csv.reader` applied to a single line with the default dialect: comma
 * delimiter, double-quote quoting with doubled quotes inside quoted fields, no
 * escape character, no initial-space skipping, non-strict, and the default field
 * size limit. This is how a generated property's argument text is cut into
 * arguments. The reader is the state machine of CPython's `_csv` module: every
 * character goes through `parse_process_char`, a NUL character is refused before
 * it, and the end of the line is fed as a NUL of its own.
 */
module Csv {
  import opened Wrappers
  import opened Strings
  import opened Errors

  const DELIMITER: char := ','
  const QUOTE: char := '"'
  const NUL: char := '\0'

  /** `csv.field_size_limit()` while nothing has changed it: 128 * 1024 characters. */
  const FIELD_LIMIT: nat := 131072

  predicate IsLineEnd(c: char) {
    c == '\n' || c == '\r'
  }

  /** The reader's states between two characters of a line. */
  datatype State = StartRecord | StartField | InField | InQuoted | QuoteInQuoted | EatCrnl

  /** What one character does to the field being read. */
  datatype Action = Skip | AddChar | SaveField | Fail(error: Error)

  /** The reader: its state, the field being read and the fields already saved. */
  datatype Reader = Reader(state: State, field: string, fields: seq<string>)

  const START: Reader := Reader(StartRecord, "", [])

  /** The first character of a field. */
  function FieldStart(c: char): (State, Action) {
    if IsLineEnd(c) then (EatCrnl, SaveField)
    else if c == QUOTE then (InQuoted, Skip)
    else if c == DELIMITER then (StartField, SaveField)
    else (InField, AddChar)
  }

  /** `parse_process_char` for a character other than NUL: the next state and the action. */
  function Step(state: State, c: char): (State, Action) {
    match state
    case StartRecord =>
      if IsLineEnd(c) then (EatCrnl, Skip) else FieldStart(c)
    case StartField =>
      FieldStart(c)
    case InField =>
      if IsLineEnd(c) then (EatCrnl, SaveField)
      else if c == DELIMITER then (StartField, SaveField)
      else (InField, AddChar)
    case InQuoted =>
      if c == QUOTE then (QuoteInQuoted, Skip) else (InQuoted, AddChar)
    case QuoteInQuoted =>
      if c == QUOTE then (InQuoted, AddChar)
      else if c == DELIMITER then (StartField, SaveField)
      else if IsLineEnd(c) then (EatCrnl, SaveField)
      else (InField, AddChar)
    case EatCrnl =>
      if IsLineEnd(c) then (EatCrnl, Skip) else (EatCrnl, Fail(NewlineInUnquotedField))
  }

  /** One character of the line; a field may not grow past the limit. */
  function Feed(r: Reader, c: char): Result<Reader, Error> {
    if c == NUL then Err(NullByte)
    else
      var (next, action) := Step(r.state, c);
      match action
      case Skip => Ok(Reader(next, r.field, r.fields))
      case AddChar =>
        if |r.field| >= FIELD_LIMIT then Err(FieldTooLarge(FIELD_LIMIT))
        else Ok(Reader(next, r.field + [c], r.fields))
      case SaveField => Ok(Reader(next, "", r.fields + [r.field]))
      case Fail(e) => Err(e)
  }

  /** Feeds the characters of `s` in order, stopping at the first error. */
  function Run(s: string, r: Reader): Result<Reader, Error>
    decreases |s|
  {
    if s == [] then Ok(r)
    else
      match Feed(r, s[0])
      case Err(e) => Err(e)
      case Ok(next) => Run(s[1..], next)
  }

  /**
   * The end of the line and then the end of the input: a field in progress is saved,
   * an unterminated quoted field included, unless the record already ended.
   */
  function Finish(r: Reader): seq<string> {
    if r.state == StartRecord || r.state == EatCrnl then r.fields else r.fields + [r.field]
  }

  /** The fields of a read that ran to the end of the line, or its error. */
  function Outcome(out: Result<Reader, Error>): Result<seq<string>, Error> {
    match out
    case Err(e) => Err(e)
    case Ok(r) => Ok(Finish(r))
  }

  /** `next(csv.reader([line]))`. */
  function ParseLine(line: string): Result<seq<string>, Error> {
    Outcome(Run(line, START))
  }

  /** A field's text with every quote doubled. */
  function Escape(f: string): string {
    if f == [] then []
    else (if f[0] == QUOTE then [QUOTE, QUOTE] else [f[0]]) + Escape(f[1..])
  }

  function Quoted(f: string): string {
    [QUOTE] + Escape(f) + [QUOTE]
  }

  /** The line a csv writer with full quoting produces for these fields. */
  function Encode(fields: seq<string>): string
    decreases |fields|
  {
    if fields == [] then ""
    else if |fields| == 1 then Quoted(fields[0])
    else Quoted(fields[0]) + [DELIMITER] + Encode(fields[1..])
  }

  /** Fields the default reader can read back: no NUL, none longer than the limit. */
  predicate Writable(fields: seq<string>) {
    forall i :: 0 <= i < |fields| ==> NUL !in fields[i] && |fields[i]| <= FIELD_LIMIT
  }

  /** Pieces that each fit the field limit. */
  predicate Fits(pieces: seq<string>) {
    forall i :: 0 <= i < |pieces| ==> |pieces[i]| <= FIELD_LIMIT
  }

  /** Reading two pieces of text one after the other is reading their concatenation. */
  lemma {:induction false} RunConcat(a: string, b: string, r: Reader)
    ensures Run(a + b, r) == match Run(a, r) case Err(e) => Err(e) case Ok(next) => Run(b, next)
    decreases |a|
  {
    if a == [] {
      assert a + b == b;
    } else {
      assert (a + b)[0] == a[0] && (a + b)[1..] == a[1..] + b;
      match Feed(r, a[0])
      case Err(_) =>
      case Ok(next) => RunConcat(a[1..], b, next);
    }
  }

  lemma RunOne(c: char, r: Reader)
    ensures Run([c], r) == Feed(r, c)
  {
    assert [c][1..] == [];
  }

  /** One character of the field's text, escaped, inside a quoted field. */
  lemma EscapedCharStep(c: char, field: string, fields: seq<string>)
    requires c != NUL && |field| < FIELD_LIMIT
    ensures Run(if c == QUOTE then [QUOTE, QUOTE] else [c], Reader(InQuoted, field, fields))
         == Ok(Reader(InQuoted, field + [c], fields))
  {
    var r := Reader(InQuoted, field, fields);
    if c == QUOTE {
      assert [QUOTE, QUOTE] == [QUOTE] + [QUOTE];
      RunConcat([QUOTE], [QUOTE], r);
      RunOne(QUOTE, r);
      RunOne(QUOTE, Reader(QuoteInQuoted, field, fields));
    } else {
      RunOne(c, r);
    }
  }

  lemma {:induction false} RunEscaped(g: string, field: string, fields: seq<string>)
    requires NUL !in g && |field| + |g| <= FIELD_LIMIT
    ensures Run(Escape(g), Reader(InQuoted, field, fields)) == Ok(Reader(InQuoted, field + g, fields))
    decreases |g|
  {
    if g == [] {
      assert field + g == field;
    } else {
      var piece := if g[0] == QUOTE then [QUOTE, QUOTE] else [g[0]];
      assert Escape(g) == piece + Escape(g[1..]);
      RunConcat(piece, Escape(g[1..]), Reader(InQuoted, field, fields));
      EscapedCharStep(g[0], field, fields);
      RunEscaped(g[1..], field + [g[0]], fields);
      assert field + [g[0]] + g[1..] == field + g;
    }
  }

  /** A quoted field read from the start of a field ends just after its closing quote. */
  lemma RunQuoted(f: string, r: Reader)
    requires r.state == StartRecord || r.state == StartField
    requires r.field == "" && NUL !in f && |f| <= FIELD_LIMIT
    ensures Run(Quoted(f), r) == Ok(Reader(QuoteInQuoted, f, r.fields))
  {
    RunConcat([QUOTE] + Escape(f), [QUOTE], r);
    RunConcat([QUOTE], Escape(f), r);
    RunOne(QUOTE, r);
    RunEscaped(f, "", r.fields);
    assert "" + f == f;
    RunOne(QUOTE, Reader(InQuoted, f, r.fields));
  }

  /** A line of two or more fields is the first quoted field, a delimiter and the rest. */
  lemma EncodeCons(fields: seq<string>)
    requires |fields| >= 2
    ensures Encode(fields) == Quoted(fields[0]) + ([DELIMITER] + Encode(fields[1..]))
  {
  }

  lemma {:induction false} RunEncoded(fields: seq<string>, r: Reader)
    requires fields != [] && Writable(fields)
    requires (r.state == StartRecord || r.state == StartField) && r.field == ""
    ensures Run(Encode(fields), r)
         == Ok(Reader(QuoteInQuoted, fields[|fields| - 1], r.fields + fields[..|fields| - 1]))
    decreases |fields|
  {
    RunQuoted(fields[0], r);
    if |fields| == 1 {
      assert r.fields + fields[..0] == r.fields;
    } else {
      var rest := fields[1..];
      var closed := Reader(QuoteInQuoted, fields[0], r.fields);
      var next := Reader(StartField, "", r.fields + [fields[0]]);
      EncodeCons(fields);
      RunConcat(Quoted(fields[0]), [DELIMITER] + Encode(rest), r);
      RunConcat([DELIMITER], Encode(rest), closed);
      RunOne(DELIMITER, closed);
      assert Writable(rest) by {
        forall i | 0 <= i < |rest| ensures NUL !in rest[i] && |rest[i]| <= FIELD_LIMIT {
          assert rest[i] == fields[i + 1];
        }
      }
      RunEncoded(rest, next);
      assert r.fields + [fields[0]] + rest[..|rest| - 1] == r.fields + fields[..|fields| - 1];
    }
  }

  /**
   * Reading back what a fully quoting writer wrote gives the fields, commas, quotes and
   * line breaks included, as long as no field holds a NUL or is longer than the limit.
   */
  lemma ParseEncoded(fields: seq<string>)
    requires Writable(fields)
    ensures ParseLine(Encode(fields)) == Ok(fields)
  {
    if fields != [] {
      RunEncoded(fields, START);
      assert [] + fields[..|fields| - 1] + [fields[|fields| - 1]] == fields;
    }
  }

  /** Text with no quote, NUL or line break, read outside a quoted field. */
  predicate PlainText(s: string) {
    QUOTE !in s && NUL !in s && '\n' !in s && '\r' !in s
  }

  /** What the reader gives for quote-free text whose fields are `saved + pieces`. */
  function SplitOutcome(saved: seq<string>, pieces: seq<string>): Result<seq<string>, Error> {
    if Fits(pieces) then Ok(saved + pieces) else Err(FieldTooLarge(FIELD_LIMIT))
  }

  /** One plain character read from the start of a field or inside a field. */
  lemma PlainStep(c: char, t: string, state: State, field: string, saved: seq<string>)
    requires PlainText([c]) && (state == StartField || state == InField)
    ensures Run([c] + t, Reader(state, field, saved))
         == if c == DELIMITER then Run(t, Reader(StartField, "", saved + [field]))
            else if |field| >= FIELD_LIMIT then Err(FieldTooLarge(FIELD_LIMIT))
            else Run(t, Reader(InField, field + [c], saved))
  {
    assert ([c] + t)[0] == c && ([c] + t)[1..] == t;
    assert c != QUOTE && c != NUL && !IsLineEnd(c) by {
      assert c in [c];
    }
  }

  /** After a delimiter the saved field joins the fields, and the rest of the split follows. */
  lemma DelimiterPieces(saved: seq<string>, field: string, rest: seq<string>)
    requires |rest| >= 1 && |field| <= FIELD_LIMIT
    ensures SplitOutcome(saved + [field], ["" + rest[0]] + rest[1..]) == SplitOutcome(saved, [field + ""] + rest)
  {
    var pieces := [field + ""] + rest;
    assert ["" + rest[0]] + rest[1..] == rest by {
      assert "" + rest[0] == rest[0];
    }
    assert field + "" == field;
    assert Fits(pieces) <==> Fits(rest) by {
      assert forall i :: 0 <= i < |rest| ==> pieces[i + 1] == rest[i];
    }
    assert saved + [field] + rest == saved + pieces;
  }

  /** The pieces after an ordinary character are those of the split whose first piece starts with it. */
  lemma CharPieces(field: string, c: char, rest: seq<string>)
    requires |rest| >= 1
    ensures var parts := [[c] + rest[0]] + rest[1..];
      [field + [c] + rest[0]] + rest[1..] == [field + parts[0]] + parts[1..]
  {
    var parts := [[c] + rest[0]] + rest[1..];
    assert field + [c] + rest[0] == field + parts[0];
    assert parts[1..] == rest[1..];
  }

  /** The rest of quote-free text is quote-free. */
  lemma PlainRest(c: char, t: string)
    requires PlainText([c] + t)
    ensures PlainText([c]) && PlainText(t)
  {
    assert forall x :: x in t ==> x in [c] + t;
    assert c in [c] + t;
  }

  lemma {:induction false} RunUnquoted(s: string, state: State, field: string, saved: seq<string>)
    requires PlainText(s) && (state == StartField || state == InField) && |field| <= FIELD_LIMIT
    ensures var parts := Split(s, [DELIMITER]);
      Outcome(Run(s, Reader(state, field, saved))) == SplitOutcome(saved, [field + parts[0]] + parts[1..])
    decreases |s|
  {
    if s == [] {
      var parts := Split(s, [DELIMITER]);
      assert parts == [""] && field + "" == field;
      assert [field + parts[0]] + parts[1..] == [field];
      assert Fits([field]);
    } else {
      var c, t := s[0], s[1..];
      assert s == [c] + t;
      PlainRest(c, t);
      var rest := Split(t, [DELIMITER]);
      SplitCons(c, t, DELIMITER);
      PlainStep(c, t, state, field, saved);
      if c == DELIMITER {
        RunUnquoted(t, StartField, "", saved + [field]);
        DelimiterPieces(saved, field, rest);
      } else if |field| >= FIELD_LIMIT {
        var pieces := [field + ([c] + rest[0])] + rest[1..];
        assert !Fits(pieces) by {
          assert |pieces[0]| > FIELD_LIMIT;
        }
      } else {
        RunUnquoted(t, InField, field + [c], saved);
        CharPieces(field, c, rest);
      }
    }
  }

  /**
   * Without quotes, NULs or line breaks the reader is a plain split on commas, except
   * that an empty line has no fields at all and a piece longer than the limit is refused.
   */
  lemma ParseUnquoted(line: string)
    requires PlainText(line)
    ensures ParseLine(line)
         == if line == "" then Ok([])
            else if Fits(Split(line, [DELIMITER])) then Ok(Split(line, [DELIMITER]))
            else Err(FieldTooLarge(FIELD_LIMIT))
  {
    if line != "" {
      var parts := Split(line, [DELIMITER]);
      var from := Reader(StartField, "", []);
      assert Feed(START, line[0]) == Feed(from, line[0]);
      assert Run(line, START) == Run(line, from);
      RunUnquoted(line, StartField, "", []);
      assert "" + parts[0] == parts[0];
      assert [] + ([parts[0]] + parts[1..]) == parts;
    }
  }

  /** A line the reader accepts holds no NUL character. */
  lemma {:induction false} RunHasNoNul(s: string, r: Reader)
    ensures Run(s, r).Ok? ==> NUL !in s
    decreases |s|
  {
    if s != [] {
      assert s == [s[0]] + s[1..];
      match Feed(r, s[0])
      case Err(_) =>
      case Ok(next) => RunHasNoNul(s[1..], next);
    }
  }

  lemma ParsedHasNoNul(line: string)
    ensures ParseLine(line).Ok? ==> NUL !in line
  {
    RunHasNoNul(line, START);
  }

  /** A NUL right after text the reader accepts raises "line contains NULL byte". */
  lemma NulAfterReadable(t: string, u: string)
    requires Run(t, START).Ok?
    ensures ParseLine(t + [NUL] + u) == Err(NullByte)
  {
    RunConcat(t, [NUL] + u, START);
    assert t + [NUL] + u == t + ([NUL] + u);
    assert ([NUL] + u)[0] == NUL;
  }

  /** The states quote-free text can leave the reader in. */
  predicate Unquoted(state: State) {
    state == StartRecord || state == StartField || state == InField || state == EatCrnl
  }

  lemma {:induction false} RunStaysUnquoted(s: string, r: Reader)
    requires QUOTE !in s && Unquoted(r.state)
    ensures Run(s, r).Ok? ==> Unquoted(Run(s, r).value.state)
    decreases |s|
  {
    if s != [] {
      assert s[0] in s;
      match Feed(r, s[0])
      case Err(_) =>
      case Ok(next) =>
        assert QUOTE !in s[1..] by {
          assert forall i :: 0 <= i < |s[1..]| ==> s[1..][i] == s[i + 1];
        }
        RunStaysUnquoted(s[1..], next);
    }
  }

  /** A line break ending a quote-free line changes nothing: `["a"]` is read from "a\n". */
  lemma TrailingLineEnd(t: string, c: char)
    requires QUOTE !in t && IsLineEnd(c)
    ensures ParseLine(t + [c]) == ParseLine(t)
  {
    RunConcat(t, [c], START);
    RunStaysUnquoted(t, START);
    match Run(t, START)
    case Err(_) =>
    case Ok(r) => RunOne(c, r);
  }

  /**
   * A character other than NUL or a line break after a line break outside quotes raises
   * "new-line character seen in unquoted field", as in "a\nb".
   */
  lemma LineEndThenText(t: string, c: char, d: char, u: string)
    requires QUOTE !in t && Run(t, START).Ok?
    requires IsLineEnd(c) && d != NUL && !IsLineEnd(d)
    ensures ParseLine(t + [c, d] + u) == Err(NewlineInUnquotedField)
  {
    var r := Run(t, START).value;
    RunStaysUnquoted(t, START);
    RunConcat(t + [c, d], u, START);
    RunConcat(t, [c, d], START);
    assert [c, d] == [c] + [d];
    RunConcat([c], [d], r);
    RunOne(c, r);
    RunOne(d, Feed(r, c).value);
  }
}
