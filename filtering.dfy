/**
 * `PropertyManager.filter` and `filter_by_generated`. Each filter is routed by the
 * property it names: filters on generated properties are applied to the records
 * afterwards, filters on plain columns go into the WHERE clause and filters on
 * aggregated columns into the HAVING clause.
 */
module Filtering {
  import opened Wrappers
  import opened Strings
  import opened Values
  import opened Errors
  import opened Properties
  import opened Managers
  import opened Matcher
  import opened Evaluator
  import opened Queries

  /** `filter`'s argument: a text of `AND`-separated filters, or a list of filters. */
  datatype Filters = Text(text: string) | Items(items: seq<string>)

  /** `not filters`. */
  predicate NoFilters(f: Filters) {
    match f
    case Text(s) => s == ""
    case Items(xs) => xs == []
  }

  /** The filters one by one: a text is cut at each ` AND ` or ` and `. */
  function FilterList(f: Filters): seq<string> {
    match f
    case Text(s) => Split(Replace(s, " and ", " AND "), " AND ")
    case Items(xs) => xs
  }

  datatype Kind = GeneratedFilter | ConcreteFilter | AggregateFilter

  /** Where one filter goes: by the exposed property it names, or the error raised looking it up. */
  function KindOf(props: seq<Property>, f: string): Result<Kind, Error>
  {
    var name := FilterName(f);
    match FindByName(props, name)
    case None => Err(NoSuchProperty(name))
    case Some(p) =>
      if !p.filterBy then Err(PropertyNotFound(p.name))
      else if IsGenerated(p) then Ok(GeneratedFilter)
      else if p.aggregate.None? then Ok(ConcreteFilter)
      else Ok(AggregateFilter)
  }

  /** The generated, concrete and aggregate lists of `filter`'s routing loop. */
  function Routed(props: seq<Property>, fs: seq<string>): Result<(seq<string>, seq<string>, seq<string>), Error>
    decreases |fs|
  {
    if fs == [] then Ok(([], [], []))
    else
      var f := fs[|fs| - 1];
      match Routed(props, fs[..|fs| - 1])
      case Err(e) => Err(e)
      case Ok((g, c, a)) =>
        match KindOf(props, f)
        case Err(e) => Err(e)
        case Ok(GeneratedFilter) => Ok((g + [f], c, a))
        case Ok(ConcreteFilter) => Ok((g, c + [f], a))
        case Ok(AggregateFilter) => Ok((g, c, a + [f]))
  }

  /** The filters of one kind, in their original order. */
  function OfKind(props: seq<Property>, fs: seq<string>, k: Kind): seq<string>
    decreases |fs|
  {
    if fs == [] then []
    else
      var f := fs[|fs| - 1];
      OfKind(props, fs[..|fs| - 1], k) + (if KindOf(props, f) == Ok(k) then [f] else [])
  }

  /**
   * The query `filter` sends, extending the query text `base`: WHERE for the concrete
   * filters, then GROUP BY the primary key, then HAVING for the aggregate ones.
   */
  function FilterQuery(base: string, pk: Property, concrete: seq<string>, aggregate: seq<string>): string {
    base
    + (if concrete != [] then "WHERE " + Join(concrete, " AND ") else "")
    + " GROUP BY " + Full(pk)
    + (if aggregate != [] then " HAVING " + Join(aggregate, " AND ") else "")
  }

  /** Whether a record passes one generated filter on property `p`. */
  predicate HoldsFor(p: Property, g: string, r: Record) {
    p.name in r && Satisfies(p.tp, r[p.name], g) == Ok(true)
  }

  /** Whether a record passes one filter of the post-filter (only generated properties are checked). */
  predicate Holds(props: seq<Property>, g: string, r: Record) {
    var p := FindByName(props, FilterName(g));
    p.Some? && IsGenerated(p.value) ==> HoldsFor(p.value, g, r)
  }

  /** Whether a record passes every filter. */
  predicate Passes(props: seq<Property>, gs: seq<string>, r: Record) {
    forall i :: 0 <= i < |gs| ==> Holds(props, gs[i], r)
  }

  /** The records passing one filter, in order. */
  function Holding(props: seq<Property>, g: string, rs: seq<Record>): seq<Record>
    decreases |rs|
  {
    if rs == [] then []
    else (if Holds(props, g, rs[0]) then [rs[0]] else []) + Holding(props, g, rs[1..])
  }

  /** The records passing every filter, in order. */
  function Passing(props: seq<Property>, gs: seq<string>, rs: seq<Record>): seq<Record>
    decreases |rs|
  {
    if rs == [] then []
    else (if Passes(props, gs, rs[0]) then [rs[0]] else []) + Passing(props, gs, rs[1..])
  }

  /** The inner loop of `filter_by_generated`: the records `matches` accepts, or the first error raised. */
  function KeepMatching(p: Property, g: string, rs: seq<Record>): Result<seq<Record>, Error>
    decreases |rs|
  {
    if rs == [] then Ok([])
    else
      var r := rs[0];
      if p.name !in r then Err(KeyNotFound(p.name))
      else
        match Satisfies(p.tp, r[p.name], g)
        case Err(e) => Err(e)
        case Ok(keep) => Prepend(if keep then [r] else [], KeepMatching(p, g, rs[1..]))
  }

  /** `filter_by_generated(results, gs)`. */
  function PostFilter(props: seq<Property>, rs: seq<Record>, gs: seq<string>): Result<seq<Record>, Error>
    decreases |gs|
  {
    if gs == [] then Ok(rs)
    else
      match PostFilter(props, rs, gs[..|gs| - 1])
      case Err(e) => Err(e)
      case Ok(cur) =>
        var g := gs[|gs| - 1];
        var name := FilterName(g);
        match FindByName(props, name)
        case None => Err(NoSuchProperty(name))
        case Some(p) => if IsGenerated(p) then KeepMatching(p, g, cur) else Ok(cur)
  }

  /** The query `filter` sends, or the routing error. */
  function FilterQueryOf(m: Manager, filters: Filters): Result<string, Error> {
    if NoFilters(filters) then Ok(AllQuery(m))
    else
      match Routed(m.properties, FilterList(filters))
      case Err(e) => Err(e)
      case Ok((_, c, a)) => Ok(FilterQuery(QueryText(m), m.userPk, c, a))
  }

  /** What `filter` returns, given the rows the database answers its query with. */
  function FilterResult(reg: Registry, hash: string -> string, m: Manager, filters: Filters, rows: seq<seq<Value>>)
    : Result<seq<Record>, Error>
    requires RowsFit(m, rows)
  {
    if NoFilters(filters) then Records(reg, hash, m, rows)
    else
      match Routed(m.properties, FilterList(filters))
      case Err(e) => Err(e)
      case Ok((g, _, _)) => Narrowed(reg, hash, m, g, rows)
  }

  /** The records of the rows, kept by the filters on generated properties. */
  function Narrowed(reg: Registry, hash: string -> string, m: Manager, gs: seq<string>, rows: seq<seq<Value>>)
    : Result<seq<Record>, Error>
    requires RowsFit(m, rows)
  {
    match Records(reg, hash, m, rows)
    case Err(e) => Err(e)
    case Ok(recs) => PostFilter(m.properties, recs, gs)
  }

  /** The routing loop of `filter`. */
  method Route(m: Manager, fs: seq<string>) returns (r: Result<(seq<string>, seq<string>, seq<string>), Error>)
    ensures r == Routed(m.properties, fs)
  {
    var generated, concrete, aggregate := [], [], [];
    var i := 0;
    while i < |fs|
      invariant 0 <= i <= |fs|
      invariant Routed(m.properties, fs[..i]) == Ok((generated, concrete, aggregate))
    {
      var f := fs[i];
      assert fs[..i + 1][..i] == fs[..i] && fs[..i + 1][i] == f;
      var prop := GetPropertyByName(m, FilterName(f));
      if prop.None? {
        RoutedErrExtends(m.properties, fs, i + 1);
        return Err(NoSuchProperty(FilterName(f)));
      }
      if !prop.value.filterBy {
        RoutedErrExtends(m.properties, fs, i + 1);
        return Err(PropertyNotFound(prop.value.name));
      }
      if IsGenerated(prop.value) {
        generated := generated + [f];
      } else if prop.value.aggregate.None? {
        concrete := concrete + [f];
      } else {
        aggregate := aggregate + [f];
      }
      i := i + 1;
    }
    assert fs[..i] == fs;
    return Ok((generated, concrete, aggregate));
  }

  lemma {:induction false} RoutedErrExtends(props: seq<Property>, fs: seq<string>, k: nat)
    requires k <= |fs|
    requires Routed(props, fs[..k]).Err?
    ensures Routed(props, fs) == Routed(props, fs[..k])
    decreases |fs|
  {
    if k < |fs| {
      var prefix := fs[..|fs| - 1];
      assert prefix[..k] == fs[..k];
      RoutedErrExtends(props, prefix, k);
    } else {
      assert fs[..k] == fs;
    }
  }

  /** The inner loop of `filter_by_generated`. */
  method KeepMatches(p: Property, g: string, results: seq<Record>) returns (r: Result<seq<Record>, Error>)
    ensures r == KeepMatching(p, g, results)
  {
    var newResults := [];
    var i := 0;
    assert results[i..] == results;
    var all := KeepMatching(p, g, results);
    assert all.Ok? ==> [] + all.value == all.value;
    while i < |results|
      invariant 0 <= i <= |results|
      invariant all == Prepend(newResults, KeepMatching(p, g, results[i..]))
    {
      var result := results[i];
      if p.name !in result {
        KeepMatchingMissing(p, g, results, i, newResults);
        return Err(KeyNotFound(p.name));
      }
      var keep := Matches(p.tp, result[p.name], g);
      KeepMatchingStep(p, g, results, i, newResults, keep);
      if keep.Err? {
        return Err(keep.error);
      }
      var next := newResults + if keep.value then [result] else [];
      assert all == Prepend(next, KeepMatching(p, g, results[i + 1..]));
      newResults := next;
      i := i + 1;
    }
    assert newResults + [] == newResults;
    return Ok(newResults);
  }

  /** A record without the property's entry stops `KeepMatching` with a `KeyError`. */
  lemma KeepMatchingMissing(p: Property, g: string, rs: seq<Record>, i: nat, done: seq<Record>)
    requires i < |rs| && p.name !in rs[i]
    ensures Prepend(done, KeepMatching(p, g, rs[i..])) == Err(KeyNotFound(p.name))
  {
    assert rs[i..][0] == rs[i];
  }

  /** One step of `KeepMatching` from position `i`, given what `matches` says of record `i`. */
  lemma KeepMatchingStep(p: Property, g: string, rs: seq<Record>, i: nat, done: seq<Record>, verdict: Result<bool, Error>)
    requires i < |rs| && p.name in rs[i]
    requires verdict == Satisfies(p.tp, rs[i][p.name], g)
    ensures verdict.Err? ==> Prepend(done, KeepMatching(p, g, rs[i..])) == Err(verdict.error)
    ensures verdict.Ok? ==>
      Prepend(done, KeepMatching(p, g, rs[i..]))
      == Prepend(done + (if verdict.value then [rs[i]] else []), KeepMatching(p, g, rs[i + 1..]))
  {
    var s := rs[i..];
    assert s[0] == rs[i] && s[1..] == rs[i + 1..];
    if verdict.Ok? {
      PrependConcat(done, if verdict.value then [rs[i]] else [], KeepMatching(p, g, rs[i + 1..]));
    }
  }

  lemma {:induction false} PostFilterErrExtends(props: seq<Property>, rs: seq<Record>, gs: seq<string>, k: nat)
    requires k <= |gs|
    requires PostFilter(props, rs, gs[..k]).Err?
    ensures PostFilter(props, rs, gs) == PostFilter(props, rs, gs[..k])
    decreases |gs|
  {
    if k < |gs| {
      var prefix := gs[..|gs| - 1];
      assert prefix[..k] == gs[..k];
      PostFilterErrExtends(props, rs, prefix, k);
    } else {
      assert gs[..k] == gs;
    }
  }

  /** One more filter of the post-filter, applied to what the filters before it kept. */
  lemma PostFilterNext(props: seq<Property>, rs: seq<Record>, gs: seq<string>, i: nat, cur: seq<Record>)
    requires i < |gs| && PostFilter(props, rs, gs[..i]) == Ok(cur)
    ensures PostFilter(props, rs, gs[..i + 1])
         == match FindByName(props, FilterName(gs[i]))
            case None => Err(NoSuchProperty(FilterName(gs[i])))
            case Some(p) => if IsGenerated(p) then KeepMatching(p, gs[i], cur) else Ok(cur)
  {
    assert gs[..i + 1][..i] == gs[..i] && gs[..i + 1][i] == gs[i];
  }

  /** `filter_by_generated`: the records are narrowed filter by filter. */
  method FilterByGenerated(m: Manager, results: seq<Record>, gs: seq<string>) returns (r: Result<seq<Record>, Error>)
    ensures r == PostFilter(m.properties, results, gs)
  {
    var current := results;
    var i := 0;
    while i < |gs|
      invariant 0 <= i <= |gs|
      invariant PostFilter(m.properties, results, gs[..i]) == Ok(current)
    {
      var g := gs[i];
      PostFilterNext(m.properties, results, gs, i, current);
      var prop := GetPropertyByName(m, FilterName(g));
      if prop.None? {
        PostFilterErrExtends(m.properties, results, gs, i + 1);
        return Err(NoSuchProperty(FilterName(g)));
      }
      if IsGenerated(prop.value) {
        var kept := KeepMatches(prop.value, g, current);
        if kept.Err? {
          PostFilterErrExtends(m.properties, results, gs, i + 1);
          return Err(kept.error);
        }
        current := kept.value;
      }
      i := i + 1;
    }
    assert gs[..i] == gs;
    return Ok(current);
  }

  /** `filter(filters)`: the query sent, and the records kept from the rows the database answers it with. */
  method Filter(reg: Registry, hash: string -> string, m: Manager, filters: Filters, rows: seq<seq<Value>>)
    returns (query: Result<string, Error>, r: Result<seq<Record>, Error>)
    requires RowsFit(m, rows)
    ensures query == FilterQueryOf(m, filters) && r == FilterResult(reg, hash, m, filters, rows)
  {
    if NoFilters(filters) {
      var q;
      q, r := All(reg, hash, m, rows);
      return Ok(q), r;
    }
    var fs := FilterList(filters);
    var routed := Route(m, fs);
    if routed.Err? {
      return Err(routed.error), Err(routed.error);
    }
    var (generated, concrete, aggregate) := routed.value;
    var q := Query(m);
    q := BuildFilterQuery(q, m.userPk, concrete, aggregate);
    query := Ok(q);
    r := Narrow(reg, hash, m, generated, rows);
  }

  /** The query text `filter` assembles after routing. */
  method BuildFilterQuery(base: string, pk: Property, concrete: seq<string>, aggregate: seq<string>) returns (query: string)
    ensures query == FilterQuery(base, pk, concrete, aggregate)
  {
    query := base;
    if concrete != [] {
      var whereClause := "WHERE " + Join(concrete, " AND ");
      query := query + whereClause;
    }
    var groupBy := " GROUP BY " + Full(pk);
    query := query + groupBy;
    if aggregate != [] {
      var havingClause := " HAVING " + Join(aggregate, " AND ");
      query := query + havingClause;
    }
  }

  /** The records of the rows, narrowed by the filters on generated properties. */
  method Narrow(reg: Registry, hash: string -> string, m: Manager, gs: seq<string>, rows: seq<seq<Value>>)
    returns (r: Result<seq<Record>, Error>)
    requires RowsFit(m, rows)
    ensures r == Narrowed(reg, hash, m, gs, rows)
  {
    var recs := InfoAll(reg, hash, m, rows);
    if recs.Err? {
      return Err(recs.error);
    }
    r := FilterByGenerated(m, recs.value, gs);
  }

  /**
   * A filter is routed exactly when the property it names exists and may be filtered
   * by; a missing property fails as an attribute read on `None`, a hidden one raises
   * `PropertyNotFoundException`.
   */
  lemma KindOfExposed(props: seq<Property>, f: string)
    ensures KindOf(props, f).Ok? <==> FindByName(props, FilterName(f)).Some? && FindByName(props, FilterName(f)).value.filterBy
    ensures FindByName(props, FilterName(f)).None? ==> KindOf(props, f) == Err(NoSuchProperty(FilterName(f)))
    ensures FindByName(props, FilterName(f)).Some? && !FindByName(props, FilterName(f)).value.filterBy
            ==> KindOf(props, f) == Err(PropertyNotFound(FilterName(f)))
    ensures KindOf(props, f).Ok? ==>
      var p := FindByName(props, FilterName(f)).value;
      KindOf(props, f).value == if IsGenerated(p) then GeneratedFilter else if p.aggregate.None? then ConcreteFilter else AggregateFilter
  {
  }

  /** Routing succeeds exactly when every filter names an exposed property. */
  lemma {:induction false} RoutedSucceeds(props: seq<Property>, fs: seq<string>)
    ensures Routed(props, fs).Ok? <==> forall i :: 0 <= i < |fs| ==> KindOf(props, fs[i]).Ok?
    decreases |fs|
  {
    if fs != [] {
      var prefix := fs[..|fs| - 1];
      RoutedSucceeds(props, prefix);
      assert forall i :: 0 <= i < |prefix| ==> prefix[i] == fs[i];
    }
  }

  /** A successful routing puts each filter in the list of its kind, keeping the original order. */
  lemma {:induction false} RoutedLists(props: seq<Property>, fs: seq<string>)
    requires Routed(props, fs).Ok?
    ensures Routed(props, fs).value
         == (OfKind(props, fs, GeneratedFilter), OfKind(props, fs, ConcreteFilter), OfKind(props, fs, AggregateFilter))
    decreases |fs|
  {
    if fs != [] {
      var prefix := fs[..|fs| - 1];
      var f := fs[|fs| - 1];
      RoutedLists(props, prefix);
      var k := KindOf(props, f).value;
      assert OfKind(props, fs, k) == OfKind(props, prefix, k) + [f];
      forall k' | k' != k
        ensures OfKind(props, fs, k') == OfKind(props, prefix, k')
      {
        assert OfKind(props, prefix, k') + [] == OfKind(props, prefix, k');
      }
    }
  }

  /** The three lists together hold each filter exactly as often as the input does. */
  lemma {:induction false} RoutedPartition(props: seq<Property>, fs: seq<string>)
    requires Routed(props, fs).Ok?
    ensures multiset(Routed(props, fs).value.0) + multiset(Routed(props, fs).value.1) + multiset(Routed(props, fs).value.2)
         == multiset(fs)
    decreases |fs|
  {
    if fs != [] {
      var prefix := fs[..|fs| - 1];
      RoutedShape(props, fs);
      RoutedPartition(props, prefix);
      MultisetSnoc(fs);
      var r0 := Routed(props, prefix).value;
      AddToOne(r0.0, r0.1, r0.2, prefix, fs[|fs| - 1]);
    }
  }

  lemma MultisetSnoc<T>(s: seq<T>)
    requires s != []
    ensures multiset(s) == multiset(s[..|s| - 1]) + multiset{s[|s| - 1]}
  {
    assert s == s[..|s| - 1] + [s[|s| - 1]];
  }

  lemma RoutedShape(props: seq<Property>, fs: seq<string>)
    requires fs != [] && Routed(props, fs).Ok?
    ensures Routed(props, fs[..|fs| - 1]).Ok?
    ensures var r := Routed(props, fs).value; var r0 := Routed(props, fs[..|fs| - 1]).value; var f := fs[|fs| - 1];
      r == (r0.0 + [f], r0.1, r0.2) || r == (r0.0, r0.1 + [f], r0.2) || r == (r0.0, r0.1, r0.2 + [f])
  {
  }

  /** Appending one filter to one of three lists that partition a sequence partitions the longer sequence. */
  lemma AddToOne<T>(g: seq<T>, c: seq<T>, a: seq<T>, fs: seq<T>, f: T)
    requires multiset(g) + multiset(c) + multiset(a) == multiset(fs)
    ensures multiset(g + [f]) + multiset(c) + multiset(a) == multiset(fs) + multiset{f}
    ensures multiset(g) + multiset(c + [f]) + multiset(a) == multiset(fs) + multiset{f}
    ensures multiset(g) + multiset(c) + multiset(a + [f]) == multiset(fs) + multiset{f}
  {
  }

  /** A filter list is routed into the list of its kind and no other. */
  lemma {:induction false} OfKindMembers(props: seq<Property>, fs: seq<string>, k: Kind, f: string)
    ensures f in OfKind(props, fs, k) <==> f in fs && KindOf(props, f) == Ok(k)
    decreases |fs|
  {
    if fs != [] {
      var prefix := fs[..|fs| - 1];
      OfKindMembers(props, prefix, k, f);
      assert fs == prefix + [fs[|fs| - 1]];
    }
  }

  /** Without concrete or aggregate filters, `filter` sends the query of `all()`. */
  lemma OnlyGeneratedFiltersQueryAll(m: Manager)
    ensures FilterQuery(QueryText(m), m.userPk, [], []) == AllQuery(m)
  {
    assert QueryText(m) + "" + " GROUP BY " + Full(m.userPk) + "" == AllQuery(m);
  }

  /** The records `matches` accepts are those that pass the filter, for a generated property. */
  lemma {:induction false} KeepMatchingHolds(props: seq<Property>, g: string, rs: seq<Record>)
    requires FindByName(props, FilterName(g)).Some? && IsGenerated(FindByName(props, FilterName(g)).value)
    requires KeepMatching(FindByName(props, FilterName(g)).value, g, rs).Ok?
    ensures KeepMatching(FindByName(props, FilterName(g)).value, g, rs).value == Holding(props, g, rs)
    decreases |rs|
  {
    if rs != [] {
      KeepMatchingHolds(props, g, rs[1..]);
    }
  }

  /** A filter on a property that is not generated keeps every record. */
  lemma {:induction false} HoldingStored(props: seq<Property>, g: string, rs: seq<Record>)
    requires FindByName(props, FilterName(g)).Some? && !IsGenerated(FindByName(props, FilterName(g)).value)
    ensures Holding(props, g, rs) == rs
    decreases |rs|
  {
    if rs != [] {
      HoldingStored(props, g, rs[1..]);
      assert [rs[0]] + rs[1..] == rs;
    }
  }

  /** With no filter every record passes. */
  lemma {:induction false} PassingNone(props: seq<Property>, rs: seq<Record>)
    ensures Passing(props, [], rs) == rs
    decreases |rs|
  {
    if rs != [] {
      PassingNone(props, rs[1..]);
      assert [rs[0]] + rs[1..] == rs;
    }
  }

  /** Narrowing the passing records by one more filter gives the records passing all of them. */
  lemma {:induction false} PassingSnoc(props: seq<Property>, gs: seq<string>, rs: seq<Record>)
    requires gs != []
    ensures Holding(props, gs[|gs| - 1], Passing(props, gs[..|gs| - 1], rs)) == Passing(props, gs, rs)
    decreases |rs|
  {
    if rs != [] {
      var r := rs[0];
      var prefix, g := gs[..|gs| - 1], gs[|gs| - 1];
      PassingSnoc(props, gs, rs[1..]);
      PassesSnoc(props, gs, r);
      if Passes(props, prefix, r) {
        HoldingCons(props, g, r, Passing(props, prefix, rs[1..]));
      } else {
        assert [] + Passing(props, prefix, rs[1..]) == Passing(props, prefix, rs[1..]);
      }
    }
  }

  /** A record passes a list of filters when it passes all but the last and then the last. */
  lemma PassesSnoc(props: seq<Property>, gs: seq<string>, r: Record)
    requires gs != []
    ensures Passes(props, gs, r) <==> Passes(props, gs[..|gs| - 1], r) && Holds(props, gs[|gs| - 1], r)
  {
    var prefix := gs[..|gs| - 1];
    assert forall i :: 0 <= i < |prefix| ==> prefix[i] == gs[i];
  }

  lemma HoldingCons(props: seq<Property>, g: string, r: Record, rs: seq<Record>)
    ensures Holding(props, g, [r] + rs) == (if Holds(props, g, r) then [r] else []) + Holding(props, g, rs)
  {
    assert ([r] + rs)[1..] == rs;
  }

  /**
   * A successful `filter_by_generated` keeps, in their original order, exactly the
   * records that `matches` accepts for every filter on a generated property.
   */
  lemma {:induction false} PostFilterKeepsPassing(props: seq<Property>, rs: seq<Record>, gs: seq<string>)
    requires PostFilter(props, rs, gs).Ok?
    ensures PostFilter(props, rs, gs).value == Passing(props, gs, rs)
    decreases |gs|
  {
    if gs == [] {
      PassingNone(props, rs);
    } else {
      var prefix := gs[..|gs| - 1];
      var g := gs[|gs| - 1];
      PostFilterStep(props, rs, gs);
      PostFilterKeepsPassing(props, rs, prefix);
      LastFilterHolds(props, g, PostFilter(props, rs, prefix).value);
      PassingSnoc(props, gs, rs);
    }
  }

  /** What one filter of the post-filter keeps is what passes it. */
  lemma LastFilterHolds(props: seq<Property>, g: string, cur: seq<Record>)
    requires FindByName(props, FilterName(g)).Some?
    requires var p := FindByName(props, FilterName(g)).value; IsGenerated(p) ==> KeepMatching(p, g, cur).Ok?
    ensures var p := FindByName(props, FilterName(g)).value;
      (if IsGenerated(p) then KeepMatching(p, g, cur).value else cur) == Holding(props, g, cur)
  {
    if IsGenerated(FindByName(props, FilterName(g)).value) {
      KeepMatchingHolds(props, g, cur);
    } else {
      HoldingStored(props, g, cur);
    }
  }

  /** The last filter of a successful post-filter narrows the records the others kept. */
  lemma PostFilterStep(props: seq<Property>, rs: seq<Record>, gs: seq<string>)
    requires gs != [] && PostFilter(props, rs, gs).Ok?
    ensures PostFilter(props, rs, gs[..|gs| - 1]).Ok?
    ensures var cur := PostFilter(props, rs, gs[..|gs| - 1]).value;
      var g := gs[|gs| - 1];
      var p := FindByName(props, FilterName(g));
      p.Some? && (IsGenerated(p.value) ==> KeepMatching(p.value, g, cur).Ok?)
      && PostFilter(props, rs, gs).value == if IsGenerated(p.value) then KeepMatching(p.value, g, cur).value else cur
  {
  }

  /** `re.split('[=<>]', f)[0]`: the name `filter` and `filter_by_generated` look up. */
  function FilterNameAsWritten(f: string): string {
    PrefixBefore(f, {'=', '<', '>'})
  }

  /**
   * With the name cut before `=`, `<` or `>` only, a `!=` filter looks up its name with
   * a trailing `!`: no property is found and reading `filter_by` of `None` fails, where
   * the matcher itself reads the name without the `!`.
   */
  lemma NotEqualNameAsWritten(props: seq<Property>, name: string, operand: string)
    requires forall i :: 0 <= i < |name| ==> name[i] !in OPERATOR_CHARS
    requires operand == [] || operand[0] !in OPERATOR_CHARS
    requires FindByName(props, name + "!").None?
    ensures FilterNameAsWritten(name + "!=" + operand) == name + "!"
    ensures FindByName(props, FilterNameAsWritten(name + "!=" + operand)).None?
    ensures FilterName(name + "!=" + operand) == name
  {
    var f := name + "!=" + operand;
    assert f == (name + "!") + ("=" + operand);
    var a := name + "!";
    assert forall i :: 0 <= i < |a| ==> a[i] !in {'=', '<', '>'} by {
      assert forall i :: 0 <= i < |name| ==> a[i] == name[i];
    }
    PrefixBeforeAt(a, "=" + operand, {'=', '<', '>'});
    LexFilter(name, "!=", operand);
  }

  /** With the name cut before any operator character, every filter of an exposed property is routed. */
  lemma NotEqualRouted(props: seq<Property>, name: string, operand: string)
    requires forall i :: 0 <= i < |name| ==> name[i] !in OPERATOR_CHARS
    requires operand == [] || operand[0] !in OPERATOR_CHARS
    requires FindByName(props, name).Some? && FindByName(props, name).value.filterBy
    ensures KindOf(props, name + "!=" + operand).Ok?
  {
    LexFilter(name, "!=", operand);
  }
}
