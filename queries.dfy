/**
 * `PropertyManager.query`, `all` and `get`: the SQL text sent to the primary key's
 * connection, and the records made from the rows it returns. The database is not
 * modelled; the rows are an input.
 */
module Queries {
  import opened Wrappers
  import opened Strings
  import opened Values
  import opened Errors
  import opened Properties
  import opened Managers
  import opened Evaluator

  /** The stored properties, in declaration order. */
  function StoredOnly(props: seq<Property>): (r: seq<Property>)
    decreases |props|
  {
    if props == [] then []
    else
      var p := props[|props| - 1];
      StoredOnly(props[..|props| - 1]) + (if IsGenerated(p) then [] else [p])
  }

  /** One entry of the select list. */
  function SelectItem(p: Property): string {
    Full(p) + " AS " + p.name
  }

  /** The select list: one item per stored property, in declaration order. */
  function SelectItems(props: seq<Property>): seq<string>
    decreases |props|
  {
    if props == [] then []
    else
      var p := props[|props| - 1];
      SelectItems(props[..|props| - 1]) + (if IsGenerated(p) then [] else [SelectItem(p)])
  }

  /** One `LEFT OUTER JOIN` clause: the property's table joined on its foreign key. */
  function JoinOf(p: Property, fk: Property, pk: Property): string {
    "LEFT OUTER JOIN " + p.table + " ON " + Full(fk) + "=" + Full(pk) + " "
  }

  /** Whether a property brings a join: a stored property with a foreign key. */
  predicate Joins(p: Property) {
    p.origin.Stored? && p.origin.userFk.Some?
  }

  /** The join clause: one join per stored property with a foreign key, in declaration order. */
  function JoinClause(props: seq<Property>, pk: Property): string
    decreases |props|
  {
    if props == [] then ""
    else
      var p := props[|props| - 1];
      JoinClause(props[..|props| - 1], pk) + (if Joins(p) then JoinOf(p, p.origin.userFk.value, pk) else "")
  }

  /** `query()`. */
  function QueryText(m: Manager): string {
    "SELECT " + Join(SelectItems(m.properties), ",") + " " + "FROM " + m.userPk.table + " " + JoinClause(m.properties, m.userPk)
  }

  /** The query of `all()`. */
  function AllQuery(m: Manager): string {
    QueryText(m) + " GROUP BY " + Full(m.userPk)
  }

  /** The query of `get(pk)`, with the key formatted as Python's `str` does. */
  function GetQuery(m: Manager, pk: Value): string {
    QueryText(m) + "WHERE " + Full(m.userPk) + "=" + Show(pk)
  }

  /** Every row returned for the query has a column for each stored property. */
  predicate RowsFit(m: Manager, rows: seq<seq<Value>>) {
    forall k :: 0 <= k < |rows| ==> StoredCount(m.properties) <= |rows[k]|
  }

  /** `[self.info(row) for row in rows]`: the first error raised, or one record per row. */
  function Records(reg: Registry, hash: string -> string, m: Manager, rows: seq<seq<Value>>): (r: Result<seq<Record>, Error>)
    requires RowsFit(m, rows)
    ensures r.Ok? ==> |r.value| == |rows| && forall k :: 0 <= k < |rows| ==> Ok(r.value[k]) == RecordOf(reg, hash, m, rows[k])
    ensures r.Err? ==> exists k :: 0 <= k < |rows| && RecordOf(reg, hash, m, rows[k]) == Err(r.error)
                                && forall j :: 0 <= j < k ==> RecordOf(reg, hash, m, rows[j]).Ok?
    decreases |rows|
  {
    if rows == [] then Ok([])
    else
      var tail := Records(reg, hash, m, rows[1..]);
      match RecordOf(reg, hash, m, rows[0])
      case Err(e) => Err(e)
      case Ok(rec) => Prepend([rec], tail)
  }

  /** The select list as the comprehension of `query` builds it. */
  method BuildSelectItems(props: seq<Property>) returns (items: seq<string>)
    ensures items == SelectItems(props)
  {
    items := [];
    var i := 0;
    while i < |props|
      invariant 0 <= i <= |props|
      invariant items == SelectItems(props[..i])
    {
      assert props[..i + 1][..i] == props[..i];
      if !IsGenerated(props[i]) {
        items := items + [SelectItem(props[i])];
      }
      i := i + 1;
    }
    assert props[..i] == props;
  }

  /** The join loop of `query`. */
  method BuildJoinClause(props: seq<Property>, pk: Property) returns (joinClause: string)
    ensures joinClause == JoinClause(props, pk)
  {
    joinClause := "";
    var i := 0;
    while i < |props|
      invariant 0 <= i <= |props|
      invariant joinClause == JoinClause(props[..i], pk)
    {
      assert props[..i + 1][..i] == props[..i];
      var p := props[i];
      if !IsGenerated(p) {
        if p.origin.userFk.Some? {
          joinClause := joinClause + JoinOf(p, p.origin.userFk.value, pk);
        }
      }
      i := i + 1;
    }
    assert props[..i] == props;
  }

  method Query(m: Manager) returns (query: string)
    ensures query == QueryText(m)
  {
    var items := BuildSelectItems(m.properties);
    var selectClause := "SELECT " + Join(items, ",") + " ";
    var fromClause := "FROM " + m.userPk.table + " ";
    var joinClause := BuildJoinClause(m.properties, m.userPk);
    return selectClause + fromClause + joinClause;
  }

  /** `info` on each row in turn. */
  method InfoAll(reg: Registry, hash: string -> string, m: Manager, rows: seq<seq<Value>>) returns (r: Result<seq<Record>, Error>)
    requires RowsFit(m, rows)
    ensures r == Records(reg, hash, m, rows)
  {
    var records := [];
    var i := 0;
    assert rows[i..] == rows;
    var all := Records(reg, hash, m, rows);
    PrependNothing(all);
    while i < |rows|
      invariant 0 <= i <= |rows|
      invariant all == Prepend(records, Records(reg, hash, m, rows[i..]))
    {
      assert rows[i..][0] == rows[i] && rows[i..][1..] == rows[i + 1..];
      var rec := Info(reg, hash, m, rows[i]);
      if rec.Err? {
        return Err(rec.error);
      }
      PrependConcat(records, [rec.value], Records(reg, hash, m, rows[i + 1..]));
      records := records + [rec.value];
      i := i + 1;
    }
    assert records + [] == records;
    return Ok(records);
  }

  /** `all()`: its query, and the records of the rows the database returns for it. */
  method All(reg: Registry, hash: string -> string, m: Manager, rows: seq<seq<Value>>)
    returns (query: string, r: Result<seq<Record>, Error>)
    requires RowsFit(m, rows)
    ensures query == AllQuery(m) && r == Records(reg, hash, m, rows)
  {
    query := Query(m);
    query := query + " GROUP BY " + Full(m.userPk);
    r := InfoAll(reg, hash, m, rows);
  }

  /** The WHERE clause of `get` appended to `query()`. */
  method BuildGetQuery(m: Manager, pk: Value) returns (query: string)
    ensures query == GetQuery(m, pk)
  {
    var whereClause := "WHERE " + Full(m.userPk) + "=" + Show(pk);
    query := Query(m);
    query := query + whereClause;
  }

  /** `get(pk)`: its query, and the record of the row fetched for it (none when no row matches). */
  method Get(reg: Registry, hash: string -> string, m: Manager, pk: Value, row: Option<seq<Value>>)
    returns (query: string, r: Result<Record, Error>)
    requires row.Some? ==> StoredCount(m.properties) <= |row.value|
    ensures query == GetQuery(m, pk) && r == RecordOfFetched(reg, hash, m, row)
  {
    query := BuildGetQuery(m, pk);
    if row.None? && StoredCount(m.properties) > 0 {
      return query, Err(NoRow);
    }
    r := Info(reg, hash, m, if row.Some? then row.value else []);
  }

  /** Splitting a property list splits its stored properties the same way: the order is kept. */
  lemma {:induction false} StoredOnlyAppend(a: seq<Property>, b: seq<Property>)
    ensures StoredOnly(a + b) == StoredOnly(a) + StoredOnly(b)
    decreases |b|
  {
    if b == [] {
      assert a + b == a;
    } else {
      var b' := b[..|b| - 1];
      assert (a + b)[..|a + b| - 1] == a + b';
      StoredOnlyAppend(a, b');
    }
  }

  /** The stored properties are exactly those that are not generated, one per stored property. */
  lemma {:induction false} StoredOnlyMembers(props: seq<Property>, p: Property)
    ensures p in StoredOnly(props) <==> p in props && !IsGenerated(p)
    ensures |StoredOnly(props)| == StoredCount(props)
    decreases |props|
  {
    if props != [] {
      var prefix := props[..|props| - 1];
      StoredOnlyMembers(prefix, p);
      assert props == prefix + [props[|props| - 1]];
    }
  }

  /** The select list names each stored property, in declaration order, as `full() AS name`. */
  lemma {:induction false} SelectItemsAre(props: seq<Property>)
    ensures |SelectItems(props)| == |StoredOnly(props)|
    ensures forall k :: 0 <= k < |SelectItems(props)| ==> SelectItems(props)[k] == SelectItem(StoredOnly(props)[k])
    decreases |props|
  {
    if props != [] {
      SelectItemsAre(props[..|props| - 1]);
    }
  }

  /** Joins are not deduplicated: the same joining property twice joins its table twice. */
  lemma JoinsNotDeduplicated(props: seq<Property>, p: Property, pk: Property)
    requires Joins(p)
    ensures JoinClause(props + [p, p], pk) == JoinClause(props, pk) + JoinOf(p, p.origin.userFk.value, pk) + JoinOf(p, p.origin.userFk.value, pk)
  {
    var s := props + [p, p];
    assert s[..|s| - 1] == props + [p];
    assert (props + [p])[..|props|] == props;
  }

  /** Without foreign keys there is no join at all. */
  lemma {:induction false} NoForeignKeysNoJoins(props: seq<Property>, pk: Property)
    requires forall k :: 0 <= k < |props| ==> !Joins(props[k])
    ensures JoinClause(props, pk) == ""
    decreases |props|
  {
    if props != [] {
      NoForeignKeysNoJoins(props[..|props| - 1], pk);
    }
  }

  /** `all()` yields records exactly when `info` succeeds on every row. */
  lemma {:induction false} RecordsSucceed(reg: Registry, hash: string -> string, m: Manager, rows: seq<seq<Value>>)
    requires RowsFit(m, rows)
    ensures Records(reg, hash, m, rows).Ok? <==> forall k :: 0 <= k < |rows| ==> RecordOf(reg, hash, m, rows[k]).Ok?
    decreases |rows|
  {
    if rows != [] {
      RecordsSucceed(reg, hash, m, rows[1..]);
      assert forall k :: 1 <= k < |rows| ==> rows[1..][k - 1] == rows[k];
    }
  }
}
