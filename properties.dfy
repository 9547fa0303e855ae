/**
 * A single configured property (`Property` in managers.py). Its source string says
 * where the value comes from: a stored property `table.column@connection` reads a
 * column, a generated property `^Provider.method(arg,...)` calls a provider method.
 * The provider classes themselves are foreign code; a `Registry` stands for what
 * reflection finds in them.
 */
module Properties {
  import opened Wrappers
  import opened Strings
  import opened Values
  import opened Csv
  import opened Errors

  /** Where a generated property's provider class is looked up. */
  const PROVIDER_PACKAGE: string := "anonymizer.datasource.providers."
  /** The type a property gets when none is configured. */
  const DEFAULT_TYPE: string := "VARCHAR"
  /** The configured type that asks the provider to infer the type. */
  const INFER_TYPE: string := "###"
  /** The suffix of the provider attribute that infers a method's type. */
  const TYPE_HELPER_SUFFIX: string := "__type"

  /**
   * The provider classes reflection can find: for each class path the names of its
   * attributes, what each `<method>__type` helper answers, and what each method returns.
   */
  datatype Registry = Registry(
    attributes: map<string, set<string>>,
    inferType: (string, string, seq<string>) -> string,
    call: (string, string, seq<Value>) -> Value)

  datatype Origin =
    | Stored(connection: string, userFk: Option<Property>)
    | Generated(className: string, methodName: string, args: seq<string>)

  datatype Property = Property(
    source: string,
    table: string,
    column: string,
    aggregate: Option<string>,
    filterBy: bool,
    isPk: bool,
    name: string,
    labelText: string,
    tp: string,
    origin: Origin)

  /** Python truthiness of an optional text: `None` and `''` are false. */
  predicate Truthy(s: Option<string>) {
    s.Some? && s.value != ""
  }

  /** `s[1:]`. */
  function DropFirst(s: string): string {
    if s == [] then "" else s[1..]
  }

  /** `is_generated()`: a source starting with `^` names a provider. */
  predicate IsGeneratedSource(source: string) {
    |source| > 0 && source[0] == '^'
  }

  predicate IsGenerated(p: Property) {
    p.origin.Generated?
  }

  /** `full()`: the column as the query selects it, wrapped in its aggregate when there is one. */
  function Full(p: Property): string {
    var column := p.table + "." + p.column;
    if Truthy(p.aggregate) then p.aggregate.value + "(" + column + ")" else column
  }

  /**
   * `Property.__init__`. Empty `userFk`, `name`, `tp` and `labelText` stand for the
   * arguments Python treats as absent (None or empty). The foreign-key property is
   * parsed by the same constructor with every other argument left at its default.
   */
  function Parse(reg: Registry, source: string, userFk: string, name: string, tp: string,
                 aggregate: Option<string>, labelText: string, filterBy: bool, isPk: bool): (r: Result<Property, Error>)
    ensures r.Ok? ==> r.value.source == source
    ensures r.Ok? ==> (IsGenerated(r.value) <==> IsGeneratedSource(source))
    decreases if userFk == "" then 0 else 1
  {
    var head := Split(source, "@")[0];
    var dotted := Split(head, ".");
    if |dotted| < 2 then Err(MalformedSource(source))
    else
      var table, column := dotted[0], dotted[1];
      var name' := if name != "" then name
                   else if Truthy(aggregate) then column + "__" + aggregate.value
                   else column;
      var labelText' := if labelText != "" then labelText else name';
      var tp' := if tp != "" then tp else DEFAULT_TYPE;
      SourceHasSeparator(source, head, dotted);
      if !IsGeneratedSource(source) then
        var at := Split(source, "@");
        if |at| < 2 then Err(MalformedSource(source))
        else if userFk == "" then
          Ok(Property(source, table, column, aggregate, filterBy, isPk, name', labelText', tp', Stored(at[1], None)))
        else
          match Parse(reg, userFk, "", "", "", None, "", true, false)
          case Err(e) => Err(e)
          case Ok(fk) =>
            Ok(Property(source, table, column, aggregate, filterBy, isPk, name', labelText', tp', Stored(at[1], Some(fk))))
      else
        match GeneratedOrigin(reg, source, tp')
        case Err(e) => Err(e)
        case Ok((origin, tp'')) =>
          Ok(Property(source, table, column, aggregate, filterBy, isPk, name', labelText', tp'', origin))
  }

  /**
   * The provider class, method and arguments of a generated source with the type the
   * property ends up with: the configured one, or the provider's answer for `###`.
   */
  function GeneratedOrigin(reg: Registry, source: string, tp: string): (r: Result<(Origin, string), Error>)
    requires |Split(source, ".")| >= 2
    ensures r.Ok? ==> r.value.0.Generated?
  {
    var segments := Split(source, ".");
    var className := PROVIDER_PACKAGE + DropFirst(segments[0]);
    if className !in reg.attributes then Err(ProviderNotFound(className))
    else
      var methodName := Split(segments[1], "(")[0];
      if methodName !in reg.attributes[className] then Err(ProviderMethodNotFound(methodName))
      else
        ProviderCall(reg, className, methodName, ParseLine(ArgumentText(source)), tp)
  }

  /** `source[source.find('(') + 1:-1]`: the text between the first `(` and the last character. */
  function ArgumentText(source: string): string
    requires |source| > 0
  {
    Slice(source, Find(source, '(') + 1, |source| - 1)
  }

  /** The origin and type once the argument text has been read; an error of the csv reader is passed on. */
  function ProviderCall(reg: Registry, className: string, methodName: string, parsed: Result<seq<string>, Error>, tp: string)
    : (r: Result<(Origin, string), Error>)
    requires className in reg.attributes
    ensures r.Ok? ==> r.value.0.Generated?
  {
    match parsed
    case Err(e) => Err(e)
    case Ok(args) =>
      if tp != INFER_TYPE then Ok((Generated(className, methodName, args), tp))
      else if methodName + TYPE_HELPER_SUFFIX !in reg.attributes[className] then Err(ProviderMethodNotFound(methodName))
      else Ok((Generated(className, methodName, args), reg.inferType(className, methodName, args)))
  }

  /** A source whose text before `@` holds a `.` holds a `.` itself, so splitting it on `.` gives two pieces. */
  lemma SourceHasSeparator(source: string, head: string, dotted: seq<string>)
    requires head == Split(source, "@")[0] && dotted == Split(head, ".")
    requires |dotted| >= 2
    ensures |source| > 0 && |Split(source, ".")| >= 2
  {
    JoinSplit(source, "@");
    JoinSplit(head, ".");
    assert '.' in head by {
      if '.' !in head {
        SplitAbsent(head, '.');
        assert false;
      }
    }
    var parts := Split(source, "@");
    assert source == head + (if |parts| == 1 then "" else "@" + Join(parts[1..], "@"));
    var k :| 0 <= k < |head| && head[k] == '.';
    assert source[k] == '.';
    if |Split(source, ".")| < 2 {
      JoinSplit(source, ".");
      assert source == Split(source, ".")[0];
      SplitPiecesFree(source, '.');
      assert false;
    }
  }

  /** A stored source `t.c@conn` yields table `t`, column `c` and connection `conn`, with the default name, label and type. */
  lemma ParseStored(reg: Registry, t: string, c: string, conn: string,
                    aggregate: Option<string>, filterBy: bool, isPk: bool)
    requires '.' !in t && '@' !in t && '.' !in c && '@' !in c && '@' !in conn
    requires t == "" || t[0] != '^'
    ensures var name := if Truthy(aggregate) then c + "__" + aggregate.value else c;
      Parse(reg, t + "." + c + "@" + conn, "", "", "", aggregate, "", filterBy, isPk)
      == Ok(Property(t + "." + c + "@" + conn, t, c, aggregate, filterBy, isPk, name, name, DEFAULT_TYPE,
                     Stored(conn, None)))
  {
    var source := t + "." + c + "@" + conn;
    assert source == (t + "." + c) + ['@'] + conn;
    assert '@' !in t + "." + c;
    SplitAtFirst(t + "." + c, '@', conn);
    SplitAbsent(conn, '@');
    assert Split(source, "@") == [t + "." + c, conn];
    assert t + "." + c == t + ['.'] + c;
    SplitAtFirst(t, '.', c);
    SplitAbsent(c, '.');
    assert Split(t + "." + c, ".") == [t, c];
    assert source[0] != '^';
  }

  /** A source with no `.` before its first `@` is malformed (Python's IndexError). */
  lemma ParseWithoutColumn(reg: Registry, source: string, userFk: string, name: string, tp: string,
                           aggregate: Option<string>, labelText: string, filterBy: bool, isPk: bool)
    requires '.' !in Split(source, "@")[0]
    ensures Parse(reg, source, userFk, name, tp, aggregate, labelText, filterBy, isPk) == Err(MalformedSource(source))
  {
    SplitAbsent(Split(source, "@")[0], '.');
  }

  /** A stored source without `@` names no connection (Python's IndexError). */
  lemma ParseWithoutConnection(reg: Registry, source: string, userFk: string, name: string, tp: string,
                               aggregate: Option<string>, labelText: string, filterBy: bool, isPk: bool)
    requires '@' !in source && !IsGeneratedSource(source)
    ensures Parse(reg, source, userFk, name, tp, aggregate, labelText, filterBy, isPk) == Err(MalformedSource(source))
  {
    SplitAbsent(source, '@');
  }

  /** In `^P.m(...)` the text before the first `@` still holds the dot after the provider. */
  lemma GeneratedHead(lead: string, after: string)
    requires '.' !in lead && '@' !in lead
    ensures |Split(Split(lead + "." + after, "@")[0], ".")| >= 2
  {
    SplitPrefixFree(lead + ".", after, '@');
    var head := Split(lead + "." + after, "@")[0];
    assert head == lead + ['.'] + Split(after, "@")[0];
    SplitAtFirst(lead, '.', Split(after, "@")[0]);
  }

  /** In `^P.m(rest` the dotted segments give `^P` and a second segment whose text before `(` is `m`. */
  lemma GeneratedSegments(lead: string, methodName: string, rest: string)
    requires '.' !in lead && '.' !in methodName && '(' !in methodName
    ensures var segments := Split(lead + "." + methodName + "(" + rest, ".");
      |segments| >= 2 && segments[0] == lead && Split(segments[1], "(")[0] == methodName
  {
    var after := methodName + "(" + rest;
    assert lead + "." + methodName + "(" + rest == lead + ['.'] + after;
    SplitAtFirst(lead, '.', after);
    assert after == methodName + (['('] + rest);
    SplitPrefixFree(methodName, ['('] + rest, '.');
    var tail := Split(['('] + rest, ".");
    assert tail[0] == ['('] + Split(rest, ".")[0] by {
      assert !StartsWith(['('] + rest, ".");
      assert (['('] + rest)[1..] == rest;
    }
    var second := methodName + tail[0];
    assert second == methodName + ['('] + Split(rest, ".")[0];
    SplitAtFirst(methodName, '(', Split(rest, ".")[0]);
  }

  /** The argument text of `prefix(text)` is `text` when `prefix` has no `(`. */
  lemma GeneratedArgText(prefix: string, text: string)
    requires '(' !in prefix
    ensures ArgumentText(prefix + "(" + text + ")") == text
  {
    var source := prefix + "(" + text + ")";
    assert source == prefix + ['('] + (text + ")");
    FindFirst(prefix, '(', text + ")");
    assert source[|prefix| + 1..|source| - 1] == text;
  }

  /** How `Parse` treats a generated source once its table and column are found. */
  lemma ParseGeneratedUnfold(reg: Registry, source: string, name: string, tp: string,
                             aggregate: Option<string>, labelText: string, filterBy: bool, isPk: bool)
    requires IsGeneratedSource(source)
    requires |Split(Split(source, "@")[0], ".")| >= 2
    requires name != "" && tp != ""
    ensures |Split(source, ".")| >= 2
    ensures Parse(reg, source, "", name, tp, aggregate, labelText, filterBy, isPk)
         == match GeneratedOrigin(reg, source, tp)
            case Err(e) => Err(e)
            case Ok((origin, tp')) =>
              var dotted := Split(Split(source, "@")[0], ".");
              Ok(Property(source, dotted[0], dotted[1], aggregate, filterBy, isPk, name,
                          if labelText != "" then labelText else name, tp', origin))
  {
    SourceHasSeparator(source, Split(source, "@")[0], Split(Split(source, "@")[0], "."));
  }

  /** `GeneratedOrigin` once the provider, the method and the arguments of the source are known. */
  lemma GeneratedOriginUnfold(reg: Registry, source: string, tp: string, provider: string, methodName: string, args: seq<string>)
    requires |Split(source, ".")| >= 2
    requires DropFirst(Split(source, ".")[0]) == provider
    requires Split(Split(source, ".")[1], "(")[0] == methodName
    requires |source| > 0 && ParseLine(ArgumentText(source)) == Ok(args)
    requires PROVIDER_PACKAGE + provider in reg.attributes
    requires methodName in reg.attributes[PROVIDER_PACKAGE + provider]
    requires tp != INFER_TYPE
    ensures GeneratedOrigin(reg, source, tp) == Ok((Generated(PROVIDER_PACKAGE + provider, methodName, args), tp))
  {
    var className := PROVIDER_PACKAGE + provider;
    assert GeneratedOrigin(reg, source, tp) == ProviderCall(reg, className, methodName, ParseLine(ArgumentText(source)), tp);
  }

  /** The provider class, method and arguments of `^P.m(text)` where `text` is what a quoting csv writer makes of `args`. */
  lemma GeneratedOriginOf(reg: Registry, provider: string, methodName: string, args: seq<string>, tp: string)
    requires '.' !in provider && '(' !in provider
    requires '.' !in methodName && '(' !in methodName
    requires PROVIDER_PACKAGE + provider in reg.attributes
    requires methodName in reg.attributes[PROVIDER_PACKAGE + provider]
    requires tp != INFER_TYPE && Writable(args)
    ensures var source := "^" + provider + "." + methodName + "(" + Encode(args) + ")";
      && |Split(source, ".")| >= 2
      && GeneratedOrigin(reg, source, tp) == Ok((Generated(PROVIDER_PACKAGE + provider, methodName, args), tp))
  {
    var text := Encode(args);
    var lead := "^" + provider;
    var source := "^" + provider + "." + methodName + "(" + text + ")";
    assert |Split(source, ".")| >= 2 && DropFirst(Split(source, ".")[0]) == provider
           && Split(Split(source, ".")[1], "(")[0] == methodName by {
      ConcatAssoc(lead + "." + methodName + "(", text, ")");
      GeneratedSegments(lead, methodName, text + ")");
      assert DropFirst(lead) == provider;
    }
    assert ArgumentText(source) == text by {
      assert source == (lead + "." + methodName) + "(" + text + ")";
      GeneratedArgText(lead + "." + methodName, text);
    }
    assert ParseLine(text) == Ok(args) by {
      ParseEncoded(args);
    }
    GeneratedOriginUnfold(reg, source, tp, provider, methodName, args);
  }

  /**
   * A generated source `^P.m(args)` whose argument text is what a quoting csv writer
   * makes of `args` yields provider class `P` under the provider package, method `m`
   * and exactly `args`, quoted commas and quotes included.
   */
  lemma ParseGenerated(reg: Registry, provider: string, methodName: string, args: seq<string>,
                       name: string, tp: string, aggregate: Option<string>, labelText: string, filterBy: bool)
    requires '.' !in provider && '@' !in provider && '(' !in provider
    requires '.' !in methodName && '(' !in methodName
    requires PROVIDER_PACKAGE + provider in reg.attributes
    requires methodName in reg.attributes[PROVIDER_PACKAGE + provider]
    requires name != "" && tp != "" && tp != INFER_TYPE && Writable(args)
    ensures var r := Parse(reg, "^" + provider + "." + methodName + "(" + Encode(args) + ")", "", name, tp,
                           aggregate, labelText, filterBy, false);
      && r.Ok?
      && r.value.origin == Generated(PROVIDER_PACKAGE + provider, methodName, args)
      && r.value.name == name && r.value.tp == tp
      && r.value.labelText == (if labelText != "" then labelText else name)
  {
    var lead := "^" + provider;
    var source := "^" + provider + "." + methodName + "(" + Encode(args) + ")";
    assert source == lead + "." + (methodName + "(" + Encode(args) + ")");
    GeneratedHead(lead, methodName + "(" + Encode(args) + ")");
    ParseGeneratedUnfold(reg, source, name, tp, aggregate, labelText, filterBy, false);
    GeneratedOriginOf(reg, provider, methodName, args, tp);
  }
}
