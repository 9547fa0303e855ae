/**
 * `PropertyManager.get_dependencies`: the properties a generated property reads
 * through its `@name` arguments, each followed by its own dependencies, in order.
 * The code has no cycle check; the model asks for a ranking of the names under
 * which every reference points to a strictly lower rank.
 */
module Dependencies {
  import opened Wrappers
  import opened Errors
  import opened Properties
  import opened Managers
  import Csv

  /** The names a list of arguments refers to: each non-empty argument that starts with `@`, without it. */
  function Refs(args: seq<string>): (r: seq<string>)
    ensures |r| <= |args|
    decreases |args|
  {
    if args == [] then []
    else (if args[0] != "" && args[0][0] == '@' then [args[0][1..]] else []) + Refs(args[1..])
  }

  /** A name is referred to exactly when `@name` is one of the arguments. */
  lemma {:induction false} RefsAreAtArguments(args: seq<string>, x: string)
    ensures x in Refs(args) <==> "@" + x in args
    decreases |args|
  {
    if args != [] {
      RefsAreAtArguments(args[1..], x);
      var a := args[0];
      if a != "" && a[0] == '@' {
        assert a == "@" + a[1..];
      }
      assert "@" + x in args <==> "@" + x == a || "@" + x in args[1..];
    }
  }

  /** The names a property's own arguments refer to; a stored property refers to none. */
  function ArgRefs(p: Property): seq<string> {
    if p.origin.Generated? then Refs(p.origin.args) else []
  }

  /** Every property has a rank, and every reference that resolves points to a lower rank. */
  predicate Acyclic(props: seq<Property>, rank: map<string, nat>) {
    && (forall p :: p in props ==> p.name in rank)
    && (forall p, r :: p in props && r in ArgRefs(p) && FindByName(props, r).Some? ==> rank[r] < rank[p.name])
  }

  /** `get_dependencies(p)`: a reference to a name no property has raises on the missing property. */
  function DependenciesOf(props: seq<Property>, p: Property, ghost rank: map<string, nat>): Result<seq<Property>, Error>
    requires Acyclic(props, rank) && p in props
    decreases rank[p.name], 1, 0
  {
    if !IsGenerated(p) then Ok([])
    else DepsOfRefs(props, ArgRefs(p), rank, rank[p.name])
  }

  /** The loop of `get_dependencies` over the references still to visit. */
  function DepsOfRefs(props: seq<Property>, refs: seq<string>, ghost rank: map<string, nat>, ghost bound: nat)
    : Result<seq<Property>, Error>
    requires Acyclic(props, rank)
    requires forall r :: r in refs && FindByName(props, r).Some? ==> rank[r] < bound
    decreases bound, 0, |refs|
  {
    if refs == [] then Ok([])
    else
      match FindByName(props, refs[0])
      case None => Err(NoSuchProperty(refs[0]))
      case Some(dep) =>
        match DependenciesOf(props, dep, rank)
        case Err(e) => Err(e)
        case Ok(below) =>
          match DepsOfRefs(props, refs[1..], rank, bound)
          case Err(e) => Err(e)
          case Ok(rest) => Ok([dep] + below + rest)
  }

  /** `d` is read directly by `q`: one of `q`'s references resolves to `d`. */
  predicate Edge(props: seq<Property>, q: Property, d: Property) {
    exists r :: r in ArgRefs(q) && FindByName(props, r) == Some(d)
  }

  /** A chain of properties each of which reads the next. */
  predicate IsPath(props: seq<Property>, path: seq<Property>) {
    forall k :: 0 <= k < |path| - 1 ==> Edge(props, path[k], path[k + 1])
  }

  /** `d` is reachable from `p` through one or more references. */
  predicate Reaches(props: seq<Property>, p: Property, d: Property, path: seq<Property>) {
    |path| >= 2 && path[0] == p && path[|path| - 1] == d && IsPath(props, path)
  }

  /** A stored property depends on nothing. */
  lemma StoredHasNoDependencies(props: seq<Property>, p: Property, rank: map<string, nat>)
    requires Acyclic(props, rank) && p in props && !IsGenerated(p)
    ensures DependenciesOf(props, p, rank) == Ok([])
  {
  }

  /** A step in front of a path is a longer path. */
  lemma PrependEdge(props: seq<Property>, p: Property, d: Property, path: seq<Property>)
    requires |path| >= 2 && IsPath(props, path) && path[|path| - 1] == d
    requires Edge(props, p, path[0])
    ensures Reaches(props, p, d, [p] + path)
  {
    var longer := [p] + path;
    forall k | 0 <= k < |longer| - 1 ensures Edge(props, longer[k], longer[k + 1]) {
      if k > 0 {
        assert longer[k] == path[k - 1] && longer[k + 1] == path[k];
      }
    }
  }

  /** Everything the walk returns is reachable from the property. */
  lemma {:induction false} DependenciesReachable(props: seq<Property>, p: Property, rank: map<string, nat>, d: Property)
    returns (path: seq<Property>)
    requires Acyclic(props, rank) && p in props
    requires DependenciesOf(props, p, rank).Ok? && d in DependenciesOf(props, p, rank).value
    ensures Reaches(props, p, d, path)
    decreases rank[p.name], 1
  {
    var refs := ArgRefs(p);
    var r, first := RefsReachable(props, refs, rank, rank[p.name], d);
    var dep := FindByName(props, r).value;
    assert Edge(props, p, dep);
    if d == dep {
      path := [p, d];
    } else {
      PrependEdge(props, p, d, first);
      path := [p] + first;
    }
  }

  /** Each element of the loop's result is a resolved reference or reachable from one. */
  lemma {:induction false} RefsReachable(props: seq<Property>, refs: seq<string>, rank: map<string, nat>, bound: nat,
                                         d: Property) returns (r: string, path: seq<Property>)
    requires Acyclic(props, rank)
    requires forall x :: x in refs && FindByName(props, x).Some? ==> rank[x] < bound
    requires DepsOfRefs(props, refs, rank, bound).Ok? && d in DepsOfRefs(props, refs, rank, bound).value
    ensures r in refs && FindByName(props, r).Some?
    ensures d == FindByName(props, r).value || Reaches(props, FindByName(props, r).value, d, path)
    decreases bound, 0, |refs|
  {
    var dep := FindByName(props, refs[0]).value;
    var below := DependenciesOf(props, dep, rank).value;
    var rest := DepsOfRefs(props, refs[1..], rank, bound).value;
    assert DepsOfRefs(props, refs, rank, bound).value == [dep] + below + rest;
    if d == dep {
      r, path := refs[0], [];
    } else if d in below {
      r := refs[0];
      path := DependenciesReachable(props, dep, rank, d);
    } else {
      assert d in rest;
      r, path := RefsReachable(props, refs[1..], rank, bound, d);
    }
  }

  /** A resolved reference is in the loop's result, together with its own dependencies. */
  lemma {:induction false} RefsIncluded(props: seq<Property>, refs: seq<string>, rank: map<string, nat>, bound: nat,
                                        r: string)
    requires Acyclic(props, rank)
    requires forall x :: x in refs && FindByName(props, x).Some? ==> rank[x] < bound
    requires DepsOfRefs(props, refs, rank, bound).Ok? && r in refs
    ensures FindByName(props, r).Some?
    ensures var dep := FindByName(props, r).value;
      && dep in DepsOfRefs(props, refs, rank, bound).value
      && DependenciesOf(props, dep, rank).Ok?
      && forall q :: q in DependenciesOf(props, dep, rank).value ==> q in DepsOfRefs(props, refs, rank, bound).value
    decreases |refs|
  {
    var all := DepsOfRefs(props, refs, rank, bound).value;
    var dep0 := FindByName(props, refs[0]).value;
    var below := DependenciesOf(props, dep0, rank).value;
    var rest := DepsOfRefs(props, refs[1..], rank, bound).value;
    assert all == [dep0] + below + rest;
    if r != refs[0] {
      RefsIncluded(props, refs[1..], rank, bound, r);
    }
  }

  /** Everything reachable from the property is in what the walk returns. */
  lemma {:induction false} ReachableIncluded(props: seq<Property>, p: Property, rank: map<string, nat>,
                                             d: Property, path: seq<Property>)
    requires Acyclic(props, rank) && p in props
    requires DependenciesOf(props, p, rank).Ok?
    requires Reaches(props, p, d, path)
    ensures d in DependenciesOf(props, p, rank).value
    decreases |path|
  {
    assert Edge(props, path[0], path[1]);
    var r :| r in ArgRefs(p) && FindByName(props, r) == Some(path[1]);
    assert IsGenerated(p);
    RefsIncluded(props, ArgRefs(p), rank, rank[p.name], r);
    if |path| > 2 {
      var tail := path[1..];
      forall k | 0 <= k < |tail| - 1 ensures Edge(props, tail[k], tail[k + 1]) {
        assert tail[k] == path[k + 1] && tail[k + 1] == path[k + 2];
      }
      assert Reaches(props, path[1], d, tail);
      ReachableIncluded(props, path[1], rank, d, tail);
    }
  }

  /** The properties in the walk's result are exactly those reachable through references. */
  lemma DependenciesAreReachable(props: seq<Property>, p: Property, rank: map<string, nat>, d: Property)
    requires Acyclic(props, rank) && p in props
    requires DependenciesOf(props, p, rank).Ok?
    ensures d in DependenciesOf(props, p, rank).value <==> exists path :: Reaches(props, p, d, path)
  {
    if d in DependenciesOf(props, p, rank).value {
      var path := DependenciesReachable(props, p, rank, d);
    }
    if exists path :: Reaches(props, p, d, path) {
      var path :| Reaches(props, p, d, path);
      ReachableIncluded(props, p, rank, d, path);
    }
  }

  /** A reference to a name no property has makes the walk fail. */
  lemma {:induction false} UnresolvedReferenceFails(props: seq<Property>, p: Property, rank: map<string, nat>, r: string)
    requires Acyclic(props, rank) && p in props && IsGenerated(p)
    requires r in ArgRefs(p) && FindByName(props, r).None?
    ensures DependenciesOf(props, p, rank).Err?
  {
    if DependenciesOf(props, p, rank).Ok? {
      RefsIncluded(props, ArgRefs(p), rank, rank[p.name], r);
      assert false;
    }
  }

  /** The first position of each name in declaration order. */
  function DeclarationRank(props: seq<Property>): map<string, nat> {
    map p | p in props :: p.name := IndexOfName(props, p.name) as nat
  }

  /** References that only point back to properties declared earlier can never form a cycle. */
  lemma DeclarationOrderAcyclic(props: seq<Property>)
    requires forall p, r :: p in props && r in ArgRefs(p) && FindByName(props, r).Some?
               ==> IndexOfName(props, r) < IndexOfName(props, p.name)
    ensures Acyclic(props, DeclarationRank(props))
  {
    var rank := DeclarationRank(props);
    forall p | p in props ensures p.name in rank && rank[p.name] == IndexOfName(props, p.name) {
    }
    forall p, r | p in props && r in ArgRefs(p) && FindByName(props, r).Some? ensures rank[r] < rank[p.name] {
      assert FindByName(props, r).value in props;
    }
  }

  /**
   * The loop of `get_dependencies` as written: it reads the first character of each
   * argument without first checking that the argument is non-empty.
   */
  function RefsAsWritten(args: seq<string>): Result<seq<string>, Error>
    decreases |args|
  {
    if args == [] then Ok([])
    else if args[0] == "" then Err(IndexOutOfRange)
    else
      match RefsAsWritten(args[1..])
      case Err(e) => Err(e)
      case Ok(rest) => Ok((if args[0][0] == '@' then [args[0][1..]] else []) + rest)
  }

  /** On arguments that are all non-empty the scan as written agrees with `Refs`. */
  lemma {:induction false} RefsAsWrittenAgrees(args: seq<string>)
    requires forall i :: 0 <= i < |args| ==> args[i] != ""
    ensures RefsAsWritten(args) == Ok(Refs(args))
    decreases |args|
  {
    if args != [] {
      RefsAsWrittenAgrees(args[1..]);
    }
  }

  /**
   * `^P.m(a,)` passes the empty string as its second argument. Row evaluation skips
   * it, but the dependency walk as written fails on it, while `Refs` finds no reference.
   */
  lemma EmptyArgumentBreaksDependencies()
    ensures Csv.ParseLine("a,") == Ok(["a", ""])
    ensures RefsAsWritten(["a", ""]) == Err(IndexOutOfRange)
    ensures Refs(["a", ""]) == []
  {
    var field := Csv.Reader(Csv.InField, "a", []);
    var next := Csv.Reader(Csv.StartField, "", ["a"]);
    assert "a,"[1..] == "," && ","[1..] == "";
    assert "a,"[0] == 'a' && "" + ['a'] == "a";
    assert Csv.Feed(Csv.START, 'a') == Ok(field);
    assert Csv.Step(Csv.InField, ',') == (Csv.StartField, Csv.SaveField);
    assert field.fields + [field.field] == ["a"];
    assert Csv.Feed(field, ',') == Ok(next) && Csv.Run("", next) == Ok(next);
    assert Csv.Run(",", field) == Ok(next);
    assert Csv.Run("a,", Csv.START) == Ok(next);
    assert Csv.ParseLine("a,") == Ok(Csv.Finish(next));
    assert Csv.Finish(next) == ["a"] + [""] == ["a", ""];
  }
}
