/**
 * The older property engine (manager.py). It reads the same kind of configuration
 * but behaves differently: a property has no aggregate, label or exposure flag;
 * `info` copies the key unhashed and reports every property; a generated property's
 * arguments are cut at commas only when `info` runs, after its own name has been
 * bound to the placeholder `'test'`; `all()` has no GROUP BY; and `filter` pastes
 * the filters it is given into the WHERE clause as they are.
 *
 * `StoredCount`, `StoredNames`, `GeneratedNames`, `SelectItems`, `JoinOf`, `Joins`,
 * `JoinClause` and `QueryText` repeat definitions of the current engine because they
 * work over this module's own `Property`; `Modernize` and `QueryMatchesModern` tie
 * them to the current ones.
 */
module Legacy {
  import opened Wrappers
  import opened Strings
  import opened Values
  import opened Errors
  import Properties
  import Managers
  import Dependencies
  import Evaluator
  import Queries
  import Filtering
  import Csv

  /** What `info` binds a generated property's name to before reading its arguments. */
  const PLACEHOLDER: string := "test"
  /** A quoted argument holding a comma, as it appears between a generated source's parentheses. */
  const QUOTED_COMMA: string := "\"a,b\""
  /** The `tp` attribute a property gets when no type is configured. */
  const DEFAULT_TYPE: string := "string"

  datatype Origin =
    | Stored(connection: string, userFk: Option<Property>)
    | Generated(className: string, methodName: string)

  /**
   * A legacy property. A configured type is kept in the attribute `type`; without one the
   * constructor sets a different attribute, `tp`, to `'string'`; so exactly one of the two is set.
   */
  datatype Property = Property(
    source: string,
    table: string,
    column: string,
    name: string,
    typeAttr: Option<string>,
    tpAttr: Option<string>,
    origin: Origin)

  datatype Manager = Manager(userPk: Property, properties: seq<Property>)

  predicate IsGenerated(p: Property) {
    p.origin.Generated?
  }

  /** `full()`: always the bare `table.column`. */
  function Full(p: Property): string {
    p.table + "." + p.column
  }

  /** `Property.__init__`. Empty `userFk`, `name` and `tp` stand for the arguments Python treats as absent. */
  function Parse(reg: Properties.Registry, source: string, userFk: string, name: string, tp: string): (r: Result<Property, Error>)
    ensures r.Ok? ==> r.value.source == source
    ensures r.Ok? ==> (IsGenerated(r.value) <==> Properties.IsGeneratedSource(source))
    ensures r.Ok? ==> r.value.name == (if name != "" then name else r.value.column)
    ensures r.Ok? ==> (r.value.typeAttr.Some? <==> r.value.tpAttr.None?)
    decreases if userFk == "" then 0 else 1
  {
    var head := Split(source, "@")[0];
    var dotted := Split(head, ".");
    if |dotted| < 2 then Err(MalformedSource(source))
    else
      var table, column := dotted[0], dotted[1];
      var name' := if name != "" then name else column;
      var typeAttr, tpAttr := if tp != "" then Some(tp) else None, if tp != "" then None else Some(DEFAULT_TYPE);
      Properties.SourceHasSeparator(source, head, dotted);
      if !Properties.IsGeneratedSource(source) then
        var at := Split(source, "@");
        if |at| < 2 then Err(MalformedSource(source))
        else if userFk == "" then
          Ok(Property(source, table, column, name', typeAttr, tpAttr, Stored(at[1], None)))
        else
          match Parse(reg, userFk, "", "", "")
          case Err(e) => Err(e)
          case Ok(fk) => Ok(Property(source, table, column, name', typeAttr, tpAttr, Stored(at[1], Some(fk))))
      else
        var segments := Split(source, ".");
        var className := Properties.PROVIDER_PACKAGE + Properties.DropFirst(segments[0]);
        if className !in reg.attributes then Err(ProviderNotFound(className))
        else
          var methodName := Split(segments[1], "(")[0];
          if methodName !in reg.attributes[className] then Err(ProviderMethodNotFound(methodName))
          else Ok(Property(source, table, column, name', typeAttr, tpAttr, Generated(className, methodName)))
  }

  /**
   * The arguments `info` reads off a generated source: the text after the first `(` of the
   * second dotted segment, its last character dropped, cut at every comma. There is always
   * at least one piece; a segment without `(` raises IndexError.
   */
  function ArgumentsOf(source: string): (r: Result<seq<string>, Error>)
    ensures r.Ok? ==> |r.value| >= 1
    ensures r.Err? ==> r.error == MalformedSource(source)
  {
    var segments := Split(source, ".");
    if |segments| < 2 then Err(MalformedSource(source))
    else
      var parens := Split(segments[1], "(");
      if |parens| < 2 then Err(MalformedSource(source))
      else Ok(Split(DropLast(parens[1]), ","))
  }

  function StoredCount(props: seq<Property>): nat
    decreases |props|
  {
    if props == [] then 0
    else StoredCount(props[..|props| - 1]) + (if IsGenerated(props[|props| - 1]) then 0 else 1)
  }

  function StoredNames(props: seq<Property>): set<string>
    decreases |props|
  {
    if props == [] then {}
    else StoredNames(props[..|props| - 1]) + (if IsGenerated(props[|props| - 1]) then {} else {props[|props| - 1].name})
  }

  function GeneratedNames(props: seq<Property>): set<string>
    decreases |props|
  {
    if props == [] then {}
    else GeneratedNames(props[..|props| - 1]) + (if IsGenerated(props[|props| - 1]) then {props[|props| - 1].name} else {})
  }

  predicate UniqueNames(props: seq<Property>) {
    forall i, j :: 0 <= i < j < |props| ==> props[i].name != props[j].name
  }

  /** The first loop of `info`: one column per stored property, copied as it is. */
  function StoredPass(props: seq<Property>, row: seq<Value>): Record
    requires StoredCount(props) <= |row|
    decreases |props|
  {
    if props == [] then map[]
    else
      var prefix := props[..|props| - 1];
      var p := props[|props| - 1];
      var rec := StoredPass(prefix, row);
      if IsGenerated(p) then rec else rec[p.name := row[StoredCount(prefix)]]
  }

  /** One generated property: the placeholder is bound first, then the arguments are read and the provider called. */
  function GenerateOne(reg: Properties.Registry, p: Property, rec: Record): Result<Record, Error>
    requires IsGenerated(p)
  {
    var rec' := rec[p.name := Str(PLACEHOLDER)];
    match ArgumentsOf(p.source)
    case Err(e) => Err(e)
    case Ok(args) =>
      match Evaluator.Arguments(args, rec')
      case Err(e) => Err(e)
      case Ok(vals) => Ok(rec'[p.name := reg.call(p.origin.className, p.origin.methodName, vals)])
  }

  /** The second loop of `info`: the generated properties in declaration order. */
  function GeneratedPass(reg: Properties.Registry, props: seq<Property>, rec0: Record): (r: Result<Record, Error>)
    ensures r.Err? ==> r.error.PropertyNotFound? || r.error.MalformedSource?
    decreases |props|
  {
    if props == [] then Ok(rec0)
    else
      match GeneratedPass(reg, props[..|props| - 1], rec0)
      case Err(e) => Err(e)
      case Ok(rec) =>
        var p := props[|props| - 1];
        if !IsGenerated(p) then Ok(rec) else GenerateOne(reg, p, rec)
  }

  /** `info(row)`: every property is reported. */
  function RecordOf(reg: Properties.Registry, m: Manager, row: seq<Value>): Result<Record, Error>
    requires StoredCount(m.properties) <= |row|
  {
    GeneratedPass(reg, m.properties, StoredPass(m.properties, row))
  }

  /** `get(pk)` once the row is fetched: with no row, reading the first stored column fails. */
  function RecordOfFetched(reg: Properties.Registry, m: Manager, row: Option<seq<Value>>): Result<Record, Error>
    requires row.Some? ==> StoredCount(m.properties) <= |row.value|
  {
    if row.Some? then RecordOf(reg, m, row.value)
    else if StoredCount(m.properties) > 0 then Err(NoRow)
    else RecordOf(reg, m, [])
  }

  predicate RowsFit(m: Manager, rows: seq<seq<Value>>) {
    forall k :: 0 <= k < |rows| ==> StoredCount(m.properties) <= |rows[k]|
  }

  /** `[self.info(row) for row in rows]`. */
  function Records(reg: Properties.Registry, m: Manager, rows: seq<seq<Value>>): (r: Result<seq<Record>, Error>)
    requires RowsFit(m, rows)
    ensures r.Ok? ==> |r.value| == |rows| && forall k :: 0 <= k < |rows| ==> Ok(r.value[k]) == RecordOf(reg, m, rows[k])
    ensures r.Err? ==> exists k :: 0 <= k < |rows| && RecordOf(reg, m, rows[k]) == Err(r.error)
                                && forall j :: 0 <= j < k ==> RecordOf(reg, m, rows[j]).Ok?
    decreases |rows|
  {
    if rows == [] then Ok([])
    else
      var tail := Records(reg, m, rows[1..]);
      match RecordOf(reg, m, rows[0])
      case Err(e) => Err(e)
      case Ok(rec) => Prepend([rec], tail)
  }

  function SelectItem(p: Property): string {
    Full(p) + " AS " + p.name
  }

  function SelectItems(props: seq<Property>): seq<string>
    decreases |props|
  {
    if props == [] then []
    else
      var p := props[|props| - 1];
      SelectItems(props[..|props| - 1]) + (if IsGenerated(p) then [] else [SelectItem(p)])
  }

  function JoinOf(p: Property, fk: Property, pk: Property): string {
    "LEFT OUTER JOIN " + p.table + " ON " + Full(fk) + "=" + Full(pk) + " "
  }

  predicate Joins(p: Property) {
    p.origin.Stored? && p.origin.userFk.Some?
  }

  function JoinClause(props: seq<Property>, pk: Property): string
    decreases |props|
  {
    if props == [] then ""
    else
      var p := props[|props| - 1];
      JoinClause(props[..|props| - 1], pk) + (if Joins(p) then JoinOf(p, p.origin.userFk.value, pk) else "")
  }

  /** `query()`. */
  function QueryText(m: Manager): string {
    "SELECT " + Join(SelectItems(m.properties), ",") + " " + "FROM " + m.userPk.table + " " + JoinClause(m.properties, m.userPk)
  }

  /** `filter`'s argument as a list: anything that is not a list becomes a list of one. */
  function FilterList(f: Filtering.Filters): seq<string> {
    match f
    case Text(s) => [s]
    case Items(xs) => xs
  }

  /** The query `filter` sends: `all()`'s for no filters, otherwise every filter in the WHERE clause. */
  function FilterQuery(m: Manager, f: Filtering.Filters): string {
    if Filtering.NoFilters(f) then QueryText(m)
    else QueryText(m) + "WHERE " + Join(FilterList(f), " AND ")
  }

  function GetQuery(m: Manager, pk: Value): string {
    QueryText(m) + "WHERE " + Full(m.userPk) + "=" + Show(pk)
  }

  // ---------------------------------------------------------------------------
  // The loops of the legacy manager
  // ---------------------------------------------------------------------------

  method Info(reg: Properties.Registry, m: Manager, row: seq<Value>) returns (r: Result<Record, Error>)
    requires StoredCount(m.properties) <= |row|
    ensures r == RecordOf(reg, m, row)
  {
    var stored := FillStored(m.properties, row);
    r := FillGenerated(reg, m.properties, stored);
  }

  lemma {:induction false} StoredCountPrefix(props: seq<Property>, i: nat)
    requires i <= |props|
    ensures StoredCount(props[..i]) <= StoredCount(props)
    decreases |props|
  {
    if i < |props| {
      var prefix := props[..|props| - 1];
      assert prefix[..i] == props[..i];
      StoredCountPrefix(prefix, i);
    } else {
      assert props[..i] == props;
    }
  }

  /** The first loop of `info`, with its running column index. */
  method FillStored(props: seq<Property>, row: seq<Value>) returns (result: Record)
    requires StoredCount(props) <= |row|
    ensures result == StoredPass(props, row)
  {
    result := map[];
    var idx := 0;
    var i := 0;
    while i < |props|
      invariant 0 <= i <= |props|
      invariant StoredCount(props[..i]) <= StoredCount(props)
      invariant idx == StoredCount(props[..i])
      invariant result == StoredPass(props[..i], row)
    {
      assert props[..i + 1][..i] == props[..i];
      StoredCountPrefix(props, i + 1);
      var p := props[i];
      if !IsGenerated(p) {
        result := result[p.name := row[idx]];
        idx := idx + 1;
      }
      i := i + 1;
    }
    assert props[..i] == props;
  }

  lemma {:induction false} GeneratedPassErrExtends(reg: Properties.Registry, props: seq<Property>, rec0: Record, k: nat)
    requires k <= |props|
    requires GeneratedPass(reg, props[..k], rec0).Err?
    ensures GeneratedPass(reg, props, rec0) == GeneratedPass(reg, props[..k], rec0)
    decreases |props|
  {
    if k < |props| {
      var prefix := props[..|props| - 1];
      assert prefix[..k] == props[..k];
      GeneratedPassErrExtends(reg, prefix, rec0, k);
    } else {
      assert props[..k] == props;
    }
  }

  /** The second loop of `info`: placeholder, argument split, substitution, provider call. */
  method FillGenerated(reg: Properties.Registry, props: seq<Property>, stored: Record) returns (r: Result<Record, Error>)
    ensures r == GeneratedPass(reg, props, stored)
  {
    var result := stored;
    var i := 0;
    while i < |props|
      invariant 0 <= i <= |props|
      invariant GeneratedPass(reg, props[..i], stored) == Ok(result)
    {
      assert props[..i + 1][..i] == props[..i];
      var p := props[i];
      if IsGenerated(p) {
        result := result[p.name := Str(PLACEHOLDER)];
        var fnArgs := ArgumentsOf(p.source);
        if fnArgs.Err? {
          GeneratedPassErrExtends(reg, props, stored, i + 1);
          return Err(fnArgs.error);
        }
        var vals := Evaluator.SubstituteArguments(fnArgs.value, result);
        if vals.Err? {
          GeneratedPassErrExtends(reg, props, stored, i + 1);
          return Err(vals.error);
        }
        result := result[p.name := reg.call(p.origin.className, p.origin.methodName, vals.value)];
      }
      i := i + 1;
    }
    assert props[..i] == props;
    return Ok(result);
  }

  method BuildSelectItems(props: seq<Property>) returns (items: seq<string>)
    ensures items == SelectItems(props)
  {
    items := [];
    var i := 0;
    while i < |props|
      invariant 0 <= i <= |props|
      invariant items == SelectItems(props[..i])
    {
      assert props[..i + 1][..i] == props[..i];
      if !IsGenerated(props[i]) {
        items := items + [SelectItem(props[i])];
      }
      i := i + 1;
    }
    assert props[..i] == props;
  }

  method BuildJoinClause(props: seq<Property>, pk: Property) returns (joinClause: string)
    ensures joinClause == JoinClause(props, pk)
  {
    joinClause := "";
    var i := 0;
    while i < |props|
      invariant 0 <= i <= |props|
      invariant joinClause == JoinClause(props[..i], pk)
    {
      assert props[..i + 1][..i] == props[..i];
      var p := props[i];
      if !IsGenerated(p) {
        if p.origin.userFk.Some? {
          joinClause := joinClause + JoinOf(p, p.origin.userFk.value, pk);
        }
      }
      i := i + 1;
    }
    assert props[..i] == props;
  }

  method Query(m: Manager) returns (query: string)
    ensures query == QueryText(m)
  {
    var items := BuildSelectItems(m.properties);
    var selectClause := "SELECT " + Join(items, ",") + " ";
    var fromClause := "FROM " + m.userPk.table + " ";
    var joinClause := BuildJoinClause(m.properties, m.userPk);
    return selectClause + fromClause + joinClause;
  }

  method InfoAll(reg: Properties.Registry, m: Manager, rows: seq<seq<Value>>) returns (r: Result<seq<Record>, Error>)
    requires RowsFit(m, rows)
    ensures r == Records(reg, m, rows)
  {
    var records := [];
    var i := 0;
    assert rows[i..] == rows;
    var all := Records(reg, m, rows);
    PrependNothing(all);
    while i < |rows|
      invariant 0 <= i <= |rows|
      invariant all == Prepend(records, Records(reg, m, rows[i..]))
    {
      assert rows[i..][0] == rows[i] && rows[i..][1..] == rows[i + 1..];
      var rec := Info(reg, m, rows[i]);
      if rec.Err? {
        return Err(rec.error);
      }
      PrependConcat(records, [rec.value], Records(reg, m, rows[i + 1..]));
      records := records + [rec.value];
      i := i + 1;
    }
    assert records + [] == records;
    return Ok(records);
  }

  /** `all()`: its query, and the records of the rows returned for it. */
  method All(reg: Properties.Registry, m: Manager, rows: seq<seq<Value>>) returns (query: string, r: Result<seq<Record>, Error>)
    requires RowsFit(m, rows)
    ensures query == QueryText(m) && r == Records(reg, m, rows)
  {
    query := Query(m);
    r := InfoAll(reg, m, rows);
  }

  /** `filter(filters)`: the query, and the records of the rows returned for it, with nothing filtered afterwards. */
  method Filter(reg: Properties.Registry, m: Manager, filters: Filtering.Filters, rows: seq<seq<Value>>)
    returns (query: string, r: Result<seq<Record>, Error>)
    requires RowsFit(m, rows)
    ensures query == FilterQuery(m, filters) && r == Records(reg, m, rows)
  {
    if Filtering.NoFilters(filters) {
      query, r := All(reg, m, rows);
      return;
    }
    query := Query(m);
    var fs := if filters.Items? then filters.items else [filters.text];
    var whereClause := "WHERE " + Join(fs, " AND ");
    query := query + whereClause;
    r := InfoAll(reg, m, rows);
  }

  /** The WHERE clause of `get` appended to `query()`. */
  method BuildGetQuery(m: Manager, pk: Value) returns (query: string)
    ensures query == GetQuery(m, pk)
  {
    var whereClause := "WHERE " + Full(m.userPk) + "=" + Show(pk);
    query := Query(m);
    query := query + whereClause;
  }

  /** `get(pk)`: its query, and the record of the row fetched for it. */
  method Get(reg: Properties.Registry, m: Manager, pk: Value, row: Option<seq<Value>>)
    returns (query: string, r: Result<Record, Error>)
    requires row.Some? ==> StoredCount(m.properties) <= |row.value|
    ensures query == GetQuery(m, pk) && r == RecordOfFetched(reg, m, row)
  {
    query := BuildGetQuery(m, pk);
    if row.None? && StoredCount(m.properties) > 0 {
      return query, Err(NoRow);
    }
    r := Info(reg, m, if row.Some? then row.value else []);
  }

  // ---------------------------------------------------------------------------
  // Parsing
  // ---------------------------------------------------------------------------

  /** A stored source `t.c@conn` yields table `t`, column `c`, name `c` and connection `conn`; `tp` is `'string'`. */
  lemma ParseStored(reg: Properties.Registry, t: string, c: string, conn: string)
    requires '.' !in t && '@' !in t && '.' !in c && '@' !in c && '@' !in conn
    requires t == "" || t[0] != '^'
    ensures Parse(reg, t + "." + c + "@" + conn, "", "", "")
         == Ok(Property(t + "." + c + "@" + conn, t, c, c, None, Some(DEFAULT_TYPE), Stored(conn, None)))
  {
    var source := t + "." + c + "@" + conn;
    assert source == (t + "." + c) + ['@'] + conn;
    assert '@' !in t + "." + c;
    SplitAtFirst(t + "." + c, '@', conn);
    SplitAbsent(conn, '@');
    assert Split(source, "@") == [t + "." + c, conn];
    assert t + "." + c == t + ['.'] + c;
    SplitAtFirst(t, '.', c);
    SplitAbsent(c, '.');
    assert Split(t + "." + c, ".") == [t, c];
    assert source[0] != '^';
  }

  /** A generated source `^P.m(...)` names provider class `P` under the provider package and its method `m`. */
  lemma ParseGenerated(reg: Properties.Registry, provider: string, methodName: string, rest: string, name: string, tp: string)
    requires '.' !in provider && '@' !in provider && '(' !in provider
    requires '.' !in methodName && '(' !in methodName
    requires Properties.PROVIDER_PACKAGE + provider in reg.attributes
    requires methodName in reg.attributes[Properties.PROVIDER_PACKAGE + provider]
    ensures var r := Parse(reg, "^" + provider + "." + methodName + "(" + rest, "", name, tp);
      r.Ok? && r.value.origin == Generated(Properties.PROVIDER_PACKAGE + provider, methodName)
  {
    var lead := "^" + provider;
    var source := "^" + provider + "." + methodName + "(" + rest;
    assert source == lead + "." + (methodName + "(" + rest);
    Properties.GeneratedHead(lead, methodName + "(" + rest);
    Properties.GeneratedSegments(lead, methodName, rest);
    assert Properties.DropFirst(lead) == provider;
    assert source[0] == '^';
  }

  /** Splitting `a.b` on dots, when neither side holds one. */
  lemma TwoSegments(a: string, b: string, c: char)
    requires c !in a && c !in b
    ensures Split(a + [c] + b, [c]) == [a, b]
  {
    SplitAtFirst(a, c, b);
    SplitAbsent(b, c);
  }

  /** The arguments of `^P.m(text)` are the comma-separated pieces of `text` when it holds no dot or `(`. */
  lemma ArgumentsOfText(provider: string, methodName: string, text: string)
    requires '.' !in provider && '.' !in methodName && '(' !in methodName
    requires '.' !in text && '(' !in text
    ensures ArgumentsOf("^" + provider + "." + methodName + "(" + text + ")") == Ok(Split(text, ","))
  {
    SourceSegments(provider, methodName, text);
    assert DropLast(text + ")") == text;
  }

  /** How `^P.m(text)` splits at its dot and then at its parenthesis. */
  lemma SourceSegments(provider: string, methodName: string, text: string)
    requires '.' !in provider && '.' !in methodName && '(' !in methodName
    requires '.' !in text && '(' !in text
    ensures Split("^" + provider + "." + methodName + "(" + text + ")", ".") == ["^" + provider, methodName + ['('] + (text + ")")]
    ensures Split(methodName + ['('] + (text + ")"), "(") == [methodName, text + ")"]
  {
    var lead := "^" + provider;
    var inner := text + ")";
    var after := methodName + ['('] + inner;
    assert "^" + provider + "." + methodName + "(" + text + ")" == lead + ['.'] + after;
    assert '.' !in after;
    TwoSegments(lead, after, '.');
    TwoSegments(methodName, inner, '(');
  }

  /**
   * The arguments of `^P.m(a1,...,an)` are `a1`, ..., `an` when no argument holds a
   * comma, a dot or a parenthesis.
   */
  lemma ArgumentsOfJoined(provider: string, methodName: string, args: seq<string>)
    requires '.' !in provider && '.' !in methodName && '(' !in methodName
    requires |args| >= 1
    requires forall i :: 0 <= i < |args| ==> '.' !in args[i] && '(' !in args[i] && ',' !in args[i]
    ensures ArgumentsOf("^" + provider + "." + methodName + "(" + Join(args, ",") + ")") == Ok(args)
  {
    JoinAvoids(args, ",", '.');
    JoinAvoids(args, ",", '(');
    ArgumentsOfText(provider, methodName, Join(args, ","));
    SplitJoin(args, ',');
  }

  /** Empty parentheses give one empty argument. */
  lemma EmptyParentheses(provider: string, methodName: string)
    requires '.' !in provider && '.' !in methodName && '(' !in methodName
    ensures ArgumentsOf("^" + provider + "." + methodName + "()") == Ok([""])
  {
    ArgumentsOfText(provider, methodName, "");
    assert "^" + provider + "." + methodName + "(" + "" + ")" == "^" + provider + "." + methodName + "()";
  }

  /** The modern engine's csv reading finds no argument at all between empty parentheses. */
  lemma ModernEmptyParentheses(reg: Properties.Registry, provider: string, methodName: string, tp: string)
    requires '.' !in provider && '(' !in provider
    requires '.' !in methodName && '(' !in methodName
    requires Properties.PROVIDER_PACKAGE + provider in reg.attributes
    requires methodName in reg.attributes[Properties.PROVIDER_PACKAGE + provider]
    requires tp != Properties.INFER_TYPE
    ensures var source := "^" + provider + "." + methodName + "()";
      && |Split(source, ".")| >= 2
      && Properties.GeneratedOrigin(reg, source, tp)
         == Ok((Properties.Generated(Properties.PROVIDER_PACKAGE + provider, methodName, []), tp))
  {
    assert "^" + provider + "." + methodName + "(" + Csv.Encode([]) + ")" == "^" + provider + "." + methodName + "()" by {
      assert Csv.Encode([]) == "";
    }
    Properties.GeneratedOriginOf(reg, provider, methodName, [], tp);
  }

  /** A quoted argument holding a comma is cut in two, quotes and all. */
  lemma QuotedCommaSplit(provider: string, methodName: string)
    requires '.' !in provider && '.' !in methodName && '(' !in methodName
    ensures ArgumentsOf("^" + provider + "." + methodName + "(" + QUOTED_COMMA + ")") == Ok(["\"a", "b\""])
  {
    ArgumentsOfText(provider, methodName, QUOTED_COMMA);
    assert QUOTED_COMMA == "\"a" + [','] + "b\"";
    TwoSegments("\"a", "b\"", ',');
  }

  /** Equal argument texts make equal sources. */
  lemma SameCall(provider: string, methodName: string, x: string, y: string)
    requires x == y
    ensures "^" + provider + "." + methodName + "(" + x + ")" == "^" + provider + "." + methodName + "(" + y + ")"
  {
  }

  /** A fully quoting csv writer writes the one field `a,b` as `"a,b"`. */
  lemma EncodeQuotedComma()
    ensures Csv.Encode(["a,b"]) == QUOTED_COMMA
  {
    assert "a,b"[1..] == ",b" && ",b"[1..] == "b" && "b"[1..] == "";
    assert Csv.Escape("a,b") == "a,b";
  }

  /** The modern engine's csv reading keeps the quoted `a,b` as one argument. */
  lemma ModernQuotedComma(reg: Properties.Registry, provider: string, methodName: string, tp: string)
    requires '.' !in provider && '(' !in provider
    requires '.' !in methodName && '(' !in methodName
    requires Properties.PROVIDER_PACKAGE + provider in reg.attributes
    requires methodName in reg.attributes[Properties.PROVIDER_PACKAGE + provider]
    requires tp != Properties.INFER_TYPE
    ensures var source := "^" + provider + "." + methodName + "(" + QUOTED_COMMA + ")";
      && |Split(source, ".")| >= 2
      && Properties.GeneratedOrigin(reg, source, tp)
         == Ok((Properties.Generated(Properties.PROVIDER_PACKAGE + provider, methodName, ["a,b"]), tp))
  {
    assert Csv.Writable(["a,b"]) by {
      assert "a,b" == ['a', ',', 'b'];
    }
    Properties.GeneratedOriginOf(reg, provider, methodName, ["a,b"], tp);
    EncodeQuotedComma();
    SameCall(provider, methodName, Csv.Encode(["a,b"]), QUOTED_COMMA);
  }

  // ---------------------------------------------------------------------------
  // info
  // ---------------------------------------------------------------------------

  lemma {:induction false} StoredPassKeys(props: seq<Property>, row: seq<Value>)
    requires StoredCount(props) <= |row|
    ensures StoredPass(props, row).Keys == StoredNames(props)
    decreases |props|
  {
    if props != [] {
      StoredPassKeys(props[..|props| - 1], row);
    }
  }

  /** A successful generated pass adds exactly the generated names; the placeholders are all overwritten. */
  lemma {:induction false} GeneratedPassKeys(reg: Properties.Registry, props: seq<Property>, rec0: Record)
    requires GeneratedPass(reg, props, rec0).Ok?
    ensures GeneratedPass(reg, props, rec0).value.Keys == rec0.Keys + GeneratedNames(props)
    decreases |props|
  {
    if props != [] {
      GeneratedPassKeys(reg, props[..|props| - 1], rec0);
    }
  }

  lemma {:induction false} NamesAre(props: seq<Property>, x: string)
    ensures x in StoredNames(props) + GeneratedNames(props) <==> exists i :: 0 <= i < |props| && props[i].name == x
    decreases |props|
  {
    if props != [] {
      var prefix := props[..|props| - 1];
      NamesAre(prefix, x);
      assert forall i :: 0 <= i < |prefix| ==> prefix[i] == props[i];
    }
  }

  /** A successful legacy `info` reports every property, whatever it is: nothing is stripped. */
  lemma RecordKeys(reg: Properties.Registry, m: Manager, row: seq<Value>, x: string)
    requires StoredCount(m.properties) <= |row|
    requires RecordOf(reg, m, row).Ok?
    ensures x in RecordOf(reg, m, row).value <==> exists i :: 0 <= i < |m.properties| && m.properties[i].name == x
  {
    StoredPassKeys(m.properties, row);
    GeneratedPassKeys(reg, m.properties, StoredPass(m.properties, row));
    NamesAre(m.properties, x);
  }

  /**
   * A generated property's arguments can be cut out of its source, and each of their
   * references names a known key or the property itself.
   */
  predicate ReadableAt(p: Property, known: set<string>) {
    && ArgumentsOf(p.source).Ok?
    && forall r :: r in Dependencies.Refs(ArgumentsOf(p.source).value) ==> r in known || r == p.name
  }

  /** Every generated property is readable once the initial keys and the generated properties before it are known. */
  predicate Readable(props: seq<Property>, known: set<string>) {
    forall i :: 0 <= i < |props| && IsGenerated(props[i]) ==> ReadableAt(props[i], known + GeneratedNames(props[..i]))
  }

  lemma ReadableSnoc(props: seq<Property>, known: set<string>)
    requires props != []
    ensures var prefix, p := props[..|props| - 1], props[|props| - 1];
      Readable(props, known) <==> Readable(prefix, known) && (IsGenerated(p) ==> ReadableAt(p, known + GeneratedNames(prefix)))
  {
    var prefix := props[..|props| - 1];
    assert forall i :: 0 <= i < |prefix| ==> prefix[i] == props[i] && prefix[..i] == props[..i];
  }

  lemma GenerateOneSucceeds(reg: Properties.Registry, p: Property, rec: Record)
    requires IsGenerated(p)
    ensures GenerateOne(reg, p, rec).Ok? <==> ReadableAt(p, rec.Keys)
  {
    var rec' := rec[p.name := Str(PLACEHOLDER)];
    assert forall r :: r in rec' <==> r in rec.Keys || r == p.name;
    if ArgumentsOf(p.source).Ok? {
      Evaluator.ArgumentsSucceed(ArgumentsOf(p.source).value, rec');
    }
  }

  /** The legacy generated pass succeeds exactly when every property is readable in declaration order. */
  lemma {:induction false} GeneratedPassSucceeds(reg: Properties.Registry, props: seq<Property>, rec0: Record)
    ensures GeneratedPass(reg, props, rec0).Ok? <==> Readable(props, rec0.Keys)
    decreases |props|
  {
    if props != [] {
      var prefix := props[..|props| - 1];
      var p := props[|props| - 1];
      GeneratedPassSucceeds(reg, prefix, rec0);
      ReadableSnoc(props, rec0.Keys);
      var before := GeneratedPass(reg, prefix, rec0);
      if before.Ok? {
        GeneratedPassKeys(reg, prefix, rec0);
        if IsGenerated(p) {
          GenerateOneSucceeds(reg, p, before.value);
        }
      }
    }
  }

  /**
   * Legacy `info` succeeds exactly when every generated property is readable, with the
   * stored names and the earlier generated names known; otherwise it raises IndexError on
   * the source or `PropertyNotFoundException`.
   */
  lemma RecordSucceeds(reg: Properties.Registry, m: Manager, row: seq<Value>)
    requires StoredCount(m.properties) <= |row|
    ensures RecordOf(reg, m, row).Ok? <==> Readable(m.properties, StoredNames(m.properties))
    ensures RecordOf(reg, m, row).Err? ==>
      RecordOf(reg, m, row).error.PropertyNotFound? || RecordOf(reg, m, row).error.MalformedSource?
  {
    StoredPassKeys(m.properties, row);
    GeneratedPassSucceeds(reg, m.properties, StoredPass(m.properties, row));
  }

  /** Under unique names a stored property holds its own column, unhashed. */
  lemma {:induction false} StoredPassValue(props: seq<Property>, row: seq<Value>, i: nat)
    requires StoredCount(props) <= |row|
    requires UniqueNames(props) && i < |props| && !IsGenerated(props[i])
    ensures StoredCount(props[..i]) < |row|
    ensures var rec := StoredPass(props, row);
      props[i].name in rec && rec[props[i].name] == row[StoredCount(props[..i])]
    decreases |props|
  {
    var n := |props|;
    var prefix := props[..n - 1];
    var p := props[n - 1];
    StoredCountPrefix(props, i + 1);
    assert props[..i + 1][..i] == props[..i];
    var before := StoredPass(prefix, row);
    assert StoredPass(props, row) == if IsGenerated(p) then before else before[p.name := row[StoredCount(prefix)]];
    if i == n - 1 {
      assert prefix == props[..i];
    } else {
      assert prefix[..i] == props[..i];
      assert prefix[i] == props[i];
      StoredPassValue(prefix, row, i);
      assert p.name != props[i].name;
    }
  }

  lemma {:induction false} GeneratedPassKeepsStored(reg: Properties.Registry, props: seq<Property>, rec0: Record, x: string)
    requires GeneratedPass(reg, props, rec0).Ok?
    requires x !in GeneratedNames(props) && x in rec0
    ensures x in GeneratedPass(reg, props, rec0).value && GeneratedPass(reg, props, rec0).value[x] == rec0[x]
    decreases |props|
  {
    if props != [] {
      GeneratedPassKeepsStored(reg, props[..|props| - 1], rec0, x);
    }
  }

  lemma {:induction false} GeneratedNamesAre(props: seq<Property>, x: string)
    ensures x in GeneratedNames(props) <==> exists i :: 0 <= i < |props| && IsGenerated(props[i]) && props[i].name == x
    decreases |props|
  {
    if props != [] {
      var prefix := props[..|props| - 1];
      GeneratedNamesAre(prefix, x);
      assert forall i :: 0 <= i < |prefix| ==> prefix[i] == props[i];
    }
  }

  /**
   * Under unique names a generated property holds what its provider method returns for
   * its arguments, substituted from the record the properties before it have built with
   * the placeholder `'test'` bound to the property's own name.
   */
  lemma {:induction false} GeneratedPassValue(reg: Properties.Registry, props: seq<Property>, rec0: Record, i: nat)
    requires UniqueNames(props) && i < |props| && IsGenerated(props[i])
    requires GeneratedPass(reg, props, rec0).Ok?
    ensures GeneratedPass(reg, props[..i], rec0).Ok? && ArgumentsOf(props[i].source).Ok?
    ensures var p := props[i];
      var bound := GeneratedPass(reg, props[..i], rec0).value[p.name := Str(PLACEHOLDER)];
      && Evaluator.Arguments(ArgumentsOf(p.source).value, bound).Ok?
      && p.name in GeneratedPass(reg, props, rec0).value
      && GeneratedPass(reg, props, rec0).value[p.name]
         == reg.call(p.origin.className, p.origin.methodName, Evaluator.Arguments(ArgumentsOf(p.source).value, bound).value)
    decreases |props|
  {
    var n := |props|;
    var prefix := props[..n - 1];
    if i == n - 1 {
      assert prefix == props[..i];
    } else {
      assert prefix[..i] == props[..i];
      assert UniqueNames(prefix) by {
        assert forall j :: 0 <= j < n - 1 ==> prefix[j] == props[j];
      }
      GeneratedPassValue(reg, prefix, rec0, i);
      assert props[n - 1].name != props[i].name;
    }
  }

  /** Under unique names the legacy record holds the primary key exactly as the row's first column has it. */
  lemma PrimaryKeyUnhashed(reg: Properties.Registry, m: Manager, row: seq<Value>)
    requires StoredCount(m.properties) <= |row|
    requires UniqueNames(m.properties) && |m.properties| > 0
    requires m.properties[0] == m.userPk && !IsGenerated(m.userPk)
    requires RecordOf(reg, m, row).Ok?
    ensures |row| > 0 && m.userPk.name in RecordOf(reg, m, row).value
    ensures RecordOf(reg, m, row).value[m.userPk.name] == row[0]
  {
    var props := m.properties;
    StoredPassValue(props, row, 0);
    assert props[..0] == [];
    GeneratedNamesAre(props, m.userPk.name);
    GeneratedPassKeepsStored(reg, props, StoredPass(props, row), m.userPk.name);
  }

  /** A generated property whose one argument is `@` its own name is given the placeholder `'test'`. */
  lemma SelfReferenceSeesPlaceholder(reg: Properties.Registry, props: seq<Property>, rec0: Record, g: Property)
    requires IsGenerated(g) && ArgumentsOf(g.source) == Ok(["@" + g.name])
    requires GeneratedPass(reg, props, rec0).Ok?
    ensures GeneratedPass(reg, props + [g], rec0)
         == Ok(GeneratedPass(reg, props, rec0).value[g.name := reg.call(g.origin.className, g.origin.methodName, [Str(PLACEHOLDER)])])
  {
    assert (props + [g])[..|props|] == props;
    var rec := GeneratedPass(reg, props, rec0).value;
    var rec' := rec[g.name := Str(PLACEHOLDER)];
    var a := "@" + g.name;
    assert a[1..] == g.name;
    assert ["@" + g.name][1..] == [];
    assert Evaluator.Arguments([], rec') == Ok([]);
    assert [Str(PLACEHOLDER)] + [] == [Str(PLACEHOLDER)];
    assert Evaluator.Arguments(["@" + g.name], rec') == Ok([Str(PLACEHOLDER)]);
    var v := reg.call(g.origin.className, g.origin.methodName, [Str(PLACEHOLDER)]);
    assert rec'[g.name := v] == rec[g.name := v];
  }

  /** The same self-reference in the modern engine, with no placeholder bound, raises `PropertyNotFoundException`. */
  lemma ModernSelfReferenceFails(reg: Properties.Registry, props: seq<Properties.Property>, rec0: Record,
                                 g: Properties.Property)
    requires g.origin.Generated? && g.origin.args == ["@" + g.name]
    requires Evaluator.GeneratedPass(reg, props, rec0).Ok?
    requires g.name !in rec0 && g.name !in Evaluator.GeneratedNames(props)
    ensures Evaluator.GeneratedPass(reg, props + [g], rec0) == Err(PropertyNotFound(g.name))
  {
    assert (props + [g])[..|props|] == props;
    Evaluator.GeneratedPassKeys(reg, props, rec0);
    var a := "@" + g.name;
    assert a[1..] == g.name;
  }

  // ---------------------------------------------------------------------------
  // Query text, against the modern engine
  // ---------------------------------------------------------------------------

  /** The modern property a legacy one amounts to in a query: no aggregate, exposed, labelled by its name. */
  function Modernize(p: Property): (q: Properties.Property)
    ensures q.name == p.name && q.table == p.table && Properties.Full(q) == Full(p)
    ensures Properties.IsGenerated(q) <==> IsGenerated(p)
    decreases p
  {
    var origin := match p.origin
      case Stored(conn, fk) => Properties.Stored(conn, if fk.Some? then Some(Modernize(fk.value)) else None)
      case Generated(className, methodName) => Properties.Generated(className, methodName, []);
    Properties.Property(p.source, p.table, p.column, None, true, false, p.name, p.name,
                        if p.typeAttr.Some? then p.typeAttr.value else Properties.DEFAULT_TYPE, origin)
  }

  function ModernizeAll(props: seq<Property>): (qs: seq<Properties.Property>)
    ensures |qs| == |props|
  {
    seq(|props|, i requires 0 <= i < |props| => Modernize(props[i]))
  }

  function ModernManager(m: Manager): Managers.Manager {
    Managers.Manager(Modernize(m.userPk), ModernizeAll(m.properties), "")
  }

  lemma ModernizeAllPrefix(props: seq<Property>)
    requires props != []
    ensures ModernizeAll(props)[..|props| - 1] == ModernizeAll(props[..|props| - 1])
    ensures ModernizeAll(props)[|props| - 1] == Modernize(props[|props| - 1])
  {
  }

  /** A property joins in the modern query exactly when it joins in the legacy one, on the same condition. */
  lemma ModernizeJoin(p: Property, pk: Property)
    ensures Queries.Joins(Modernize(p)) <==> Joins(p)
    ensures Joins(p) ==> Queries.JoinOf(Modernize(p), Modernize(p).origin.userFk.value, Modernize(pk))
                         == JoinOf(p, p.origin.userFk.value, pk)
  {
  }

  lemma {:induction false} SelectItemsMatch(props: seq<Property>)
    ensures Queries.SelectItems(ModernizeAll(props)) == SelectItems(props)
    decreases |props|
  {
    if props != [] {
      ModernizeAllPrefix(props);
      SelectItemsMatch(props[..|props| - 1]);
    }
  }

  lemma {:induction false} JoinClauseMatch(props: seq<Property>, pk: Property)
    ensures Queries.JoinClause(ModernizeAll(props), Modernize(pk)) == JoinClause(props, pk)
    decreases |props|
  {
    if props != [] {
      ModernizeAllPrefix(props);
      ModernizeJoin(props[|props| - 1], pk);
      JoinClauseMatch(props[..|props| - 1], pk);
    }
  }

  /**
   * Legacy `query()` is the modern `query()` of the same properties: the select list, the
   * FROM table and the joins are built the same way.
   */
  lemma QueryMatchesModern(m: Manager)
    ensures QueryText(m) == Queries.QueryText(ModernManager(m))
  {
    SelectItemsMatch(m.properties);
    JoinClauseMatch(m.properties, m.userPk);
  }

  /** Legacy `all()` runs `query()` alone, where the modern one groups by the primary key. */
  lemma AllQueryWithoutGroupBy(m: Manager)
    ensures Queries.AllQuery(ModernManager(m)) == QueryText(m) + " GROUP BY " + Full(m.userPk)
  {
    QueryMatchesModern(m);
  }

  /** Legacy `get(pk)` sends the same query as the modern one. */
  lemma GetQueryMatchesModern(m: Manager, pk: Value)
    ensures GetQuery(m, pk) == Queries.GetQuery(ModernManager(m), pk)
  {
    QueryMatchesModern(m);
  }

  /**
   * A non-empty filter text goes into the WHERE clause as it is, exactly like a list holding
   * only it; in particular it is not cut at `and`.
   */
  lemma TextIsOneFilter(m: Manager, s: string)
    requires s != ""
    ensures FilterQuery(m, Filtering.Text(s)) == FilterQuery(m, Filtering.Items([s]))
    ensures FilterQuery(m, Filtering.Text(s)) == QueryText(m) + "WHERE " + s
  {
  }

  /** The filters of a non-empty list are joined by ` AND ` after `WHERE`, first to last. */
  lemma FilterWhereClause(m: Manager, f: string, fs: seq<string>)
    ensures FilterQuery(m, Filtering.Items([f] + fs))
         == QueryText(m) + "WHERE " + f + (if fs == [] then "" else " AND " + Join(fs, " AND "))
  {
    var xs := [f] + fs;
    assert xs[0] == f && xs[1..] == fs;
  }
}
