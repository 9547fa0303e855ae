/**
 * `UserManager.combine`: merging a new list of user records with an old one. A new
 * record without an old record of the same primary key is kept as it is; a matched
 * record is copied, and each generated property whose dependencies all hold the same
 * values in the old record and in the copy takes its old value back, so that values a
 * provider computed once (a random pseudonym, say) survive a re-read of the rows.
 */
module Merge {
  import opened Wrappers
  import opened Values
  import opened Errors
  import opened Properties
  import opened Managers
  import opened Dependencies
  import opened Evaluator

  /** The first old record with the primary key of `user`, or the `KeyError` raised reading a key. */
  function FindOld(pkName: string, olds: seq<Record>, user: Record): (r: Result<Option<Record>, Error>)
    ensures r.Ok? && r.value.Some? ==>
      r.value.value in olds && pkName in user && pkName in r.value.value && r.value.value[pkName] == user[pkName]
    ensures r.Err? ==> r == Err(KeyNotFound(pkName))
    decreases |olds|
  {
    if olds == [] then Ok(None)
    else if pkName !in olds[0] || pkName !in user then Err(KeyNotFound(pkName))
    else if olds[0][pkName] == user[pkName] then Ok(Some(olds[0]))
    else FindOld(pkName, olds[1..], user)
  }

  /** Every dependency is present in both records with the same value: the negation of `combine`'s `dirty`. */
  predicate Clean(deps: seq<Property>, prior: Record, u: Record) {
    forall i :: 0 <= i < |deps| ==> deps[i].name in prior && deps[i].name in u && u[deps[i].name] == prior[deps[i].name]
  }

  /** The copy of `user` after `combine` has gone over the properties `ps`, in order. */
  function MergeOver(props: seq<Property>, ps: seq<Property>, prior: Record, user: Record, ghost rank: map<string, nat>)
    : Result<Record, Error>
    requires Acyclic(props, rank) && forall p :: p in ps ==> p in props
    decreases |ps|
  {
    if ps == [] then Ok(user)
    else
      match MergeOver(props, ps[..|ps| - 1], prior, user, rank)
      case Err(e) => Err(e)
      case Ok(u) => Restore(props, ps[|ps| - 1], prior, u, rank)
  }

  /** One property's turn: a generated property with clean dependencies takes its old value back. */
  function Restore(props: seq<Property>, p: Property, prior: Record, u: Record, ghost rank: map<string, nat>)
    : Result<Record, Error>
    requires Acyclic(props, rank) && p in props
  {
    if !IsGenerated(p) then Ok(u)
    else
      match DependenciesOf(props, p, rank)
      case Err(e) => Err(e)
      case Ok(deps) =>
        if !Clean(deps, prior, u) then Ok(u)
        else if p.name in prior then Ok(u[p.name := prior[p.name]])
        else Err(KeyNotFound(p.name))
  }

  /** What `combine` makes of one new record. */
  function MergeOne(m: Manager, olds: seq<Record>, user: Record, ghost rank: map<string, nat>): Result<Record, Error>
    requires Acyclic(m.properties, rank) && FindPrimaryKey(m.properties).Some?
  {
    match FindOld(FindPrimaryKey(m.properties).value.name, olds, user)
    case Err(e) => Err(e)
    case Ok(None) => Ok(user)
    case Ok(Some(prior)) => MergeOver(m.properties, m.properties, prior, user, rank)
  }

  /** `combine(old_list, new_list)`: one record per new record, in order, or the first error raised. */
  function Combined(m: Manager, olds: seq<Record>, news: seq<Record>, ghost rank: map<string, nat>)
    : (r: Result<seq<Record>, Error>)
    requires Acyclic(m.properties, rank) && FindPrimaryKey(m.properties).Some?
    ensures r.Ok? ==> |r.value| == |news| && forall k :: 0 <= k < |news| ==> Ok(r.value[k]) == MergeOne(m, olds, news[k], rank)
    decreases |news|
  {
    if news == [] then Ok([])
    else
      match MergeOne(m, olds, news[0], rank)
      case Err(e) => Err(e)
      case Ok(u) => Prepend([u], Combined(m, olds, news[1..], rank))
  }

  /** The search for the old record, stopping at the first match. */
  method FindMatch(pkName: string, olds: seq<Record>, user: Record) returns (r: Result<Option<Record>, Error>)
    ensures r == FindOld(pkName, olds, user)
  {
    var i := 0;
    while i < |olds|
      invariant 0 <= i <= |olds|
      invariant FindOld(pkName, olds, user) == FindOld(pkName, olds[i..], user)
    {
      assert olds[i..][0] == olds[i] && olds[i..][1..] == olds[i + 1..];
      var oldUser := olds[i];
      if pkName !in oldUser || pkName !in user {
        return Err(KeyNotFound(pkName));
      }
      if oldUser[pkName] == user[pkName] {
        return Ok(Some(oldUser));
      }
      i := i + 1;
    }
    return Ok(None);
  }

  /** The dependency loop of `combine`, stopping at the first changed or missing dependency. */
  method IsDirty(deps: seq<Property>, prior: Record, u: Record) returns (dirty: bool)
    ensures dirty == !Clean(deps, prior, u)
  {
    dirty := false;
    var i := 0;
    while i < |deps|
      invariant 0 <= i <= |deps|
      invariant Clean(deps[..i], prior, u)
    {
      var dependency := deps[i];
      if dependency.name !in prior || dependency.name !in u {
        dirty := true;
        break;
      } else if u[dependency.name] != prior[dependency.name] {
        dirty := true;
        break;
      }
      assert forall j :: 0 <= j < i ==> deps[..i + 1][j] == deps[..i][j];
      i := i + 1;
    }
    if !dirty {
      assert deps[..i] == deps;
    }
  }

  /** The copy of a matched record, updated property by property. */
  method MergeRecord(props: seq<Property>, prior: Record, user: Record, ghost rank: map<string, nat>)
    returns (r: Result<Record, Error>)
    requires Acyclic(props, rank)
    ensures r == MergeOver(props, props, prior, user, rank)
  {
    var u := user;
    var i := 0;
    while i < |props|
      invariant 0 <= i <= |props|
      invariant MergeOver(props, props[..i], prior, user, rank) == Ok(u)
    {
      var prop := props[i];
      MergeNext(props, i, prior, user, rank, u);
      if IsGenerated(prop) {
        var dependencies := DependenciesOf(props, prop, rank);
        if dependencies.Err? {
          MergeOverErrExtends(props, props, i + 1, prior, user, rank);
          return Err(dependencies.error);
        }
        var dirty := IsDirty(dependencies.value, prior, u);
        if !dirty {
          if prop.name !in prior {
            MergeOverErrExtends(props, props, i + 1, prior, user, rank);
            return Err(KeyNotFound(prop.name));
          }
          u := u[prop.name := prior[prop.name]];
        }
      }
      i := i + 1;
    }
    assert props[..i] == props;
    return Ok(u);
  }

  /** The step of `MergeOver` that adds property `i` of the whole list to the copy `u` made so far. */
  lemma MergeNext(props: seq<Property>, i: nat, prior: Record, user: Record, rank: map<string, nat>, u: Record)
    requires Acyclic(props, rank) && i < |props|
    requires MergeOver(props, props[..i], prior, user, rank) == Ok(u)
    ensures forall p :: p in props[..i + 1] ==> p in props
    ensures MergeOver(props, props[..i + 1], prior, user, rank) == Restore(props, props[i], prior, u, rank)
  {
    var ps := props[..i + 1];
    assert ps[..|ps| - 1] == props[..i];
    assert ps[|ps| - 1] == props[i];
  }

  lemma {:induction false} MergeOverErrExtends(props: seq<Property>, ps: seq<Property>, k: nat, prior: Record, user: Record,
                                               rank: map<string, nat>)
    requires Acyclic(props, rank) && (forall p :: p in ps ==> p in props) && k <= |ps|
    requires MergeOver(props, ps[..k], prior, user, rank).Err?
    ensures MergeOver(props, ps, prior, user, rank) == MergeOver(props, ps[..k], prior, user, rank)
    decreases |ps|
  {
    if k < |ps| {
      var prefix := ps[..|ps| - 1];
      assert prefix[..k] == ps[..k];
      MergeOverErrExtends(props, prefix, k, prior, user, rank);
    } else {
      assert ps[..k] == ps;
    }
  }

  /** What the body of `combine`'s outer loop makes of one new record. */
  method MergeUser(m: Manager, olds: seq<Record>, user: Record, ghost rank: map<string, nat>) returns (r: Result<Record, Error>)
    requires Acyclic(m.properties, rank) && FindPrimaryKey(m.properties).Some?
    ensures r == MergeOne(m, olds, user, rank)
  {
    var pk := GetPrimaryKey(m);
    var found := FindMatch(pk.value.name, olds, user);
    if found.Err? {
      return Err(found.error);
    }
    if found.value.None? {
      return Ok(user);
    }
    r := MergeRecord(m.properties, found.value.value, user, rank);
  }

  /** `combine`. */
  method Combine(m: Manager, olds: seq<Record>, news: seq<Record>, ghost rank: map<string, nat>)
    returns (r: Result<seq<Record>, Error>)
    requires Acyclic(m.properties, rank) && FindPrimaryKey(m.properties).Some?
    ensures r == Combined(m, olds, news, rank)
  {
    var result := [];
    var i := 0;
    assert news[i..] == news;
    var all := Combined(m, olds, news, rank);
    assert all.Ok? ==> [] + all.value == all.value;
    while i < |news|
      invariant 0 <= i <= |news|
      invariant all == Prepend(result, Combined(m, olds, news[i..], rank))
    {
      CombinedStep(m, olds, news, i, result, rank);
      var u := MergeUser(m, olds, news[i], rank);
      if u.Err? {
        return Err(u.error);
      }
      result := result + [u.value];
      i := i + 1;
    }
    assert result + [] == result;
    return Ok(result);
  }

  /** One step of `Combined` from position `i`. */
  lemma CombinedStep(m: Manager, olds: seq<Record>, news: seq<Record>, i: nat, done: seq<Record>, rank: map<string, nat>)
    requires Acyclic(m.properties, rank) && FindPrimaryKey(m.properties).Some? && i < |news|
    ensures Prepend(done, Combined(m, olds, news[i..], rank))
         == match MergeOne(m, olds, news[i], rank)
            case Err(e) => Err(e)
            case Ok(u) => Prepend(done + [u], Combined(m, olds, news[i + 1..], rank))
  {
    assert news[i..][0] == news[i] && news[i..][1..] == news[i + 1..];
    var tail := Combined(m, olds, news[i + 1..], rank);
    var one := MergeOne(m, olds, news[i], rank);
    if one.Ok? && tail.Ok? {
      assert done + ([one.value] + tail.value) == done + [one.value] + tail.value;
    }
  }

  /** A new record with no old record of the same primary key comes out unchanged. */
  lemma UnmatchedUnchanged(m: Manager, olds: seq<Record>, user: Record, rank: map<string, nat>)
    requires Acyclic(m.properties, rank) && FindPrimaryKey(m.properties).Some?
    requires FindOld(FindPrimaryKey(m.properties).value.name, olds, user) == Ok(None)
    ensures MergeOne(m, olds, user, rank) == Ok(user)
  {
  }

  /** No old record matches exactly when every old record carries a different primary key. */
  lemma {:induction false} NoMatch(pkName: string, olds: seq<Record>, user: Record)
    requires pkName in user && forall k :: 0 <= k < |olds| ==> pkName in olds[k]
    ensures FindOld(pkName, olds, user) == Ok(None) <==> forall k :: 0 <= k < |olds| ==> olds[k][pkName] != user[pkName]
    decreases |olds|
  {
    if olds != [] {
      NoMatch(pkName, olds[1..], user);
      assert forall k :: 1 <= k < |olds| ==> olds[1..][k - 1] == olds[k];
    }
  }

  /** The first old record with an equal primary key is the one found. */
  lemma {:induction false} FirstMatch(pkName: string, olds: seq<Record>, user: Record, k: nat)
    requires pkName in user && forall j :: 0 <= j < |olds| ==> pkName in olds[j]
    requires k < |olds| && olds[k][pkName] == user[pkName]
    requires forall j :: 0 <= j < k ==> olds[j][pkName] != user[pkName]
    ensures FindOld(pkName, olds, user) == Ok(Some(olds[k]))
    decreases k
  {
    if k > 0 {
      assert forall j :: 0 <= j < |olds| - 1 ==> olds[1..][j] == olds[j + 1];
      FirstMatch(pkName, olds[1..], user, k - 1);
    }
  }

  /** Keys that are not names of generated properties keep the new record's entry: stored values are never restored. */
  lemma {:induction false} MergeKeepsStored(props: seq<Property>, ps: seq<Property>, prior: Record, user: Record,
                                            rank: map<string, nat>, x: string)
    requires Acyclic(props, rank) && forall p :: p in ps ==> p in props
    requires MergeOver(props, ps, prior, user, rank).Ok?
    requires x !in GeneratedNames(ps)
    ensures var r := MergeOver(props, ps, prior, user, rank).value; (x in r <==> x in user) && (x in user ==> r[x] == user[x])
    decreases |ps|
  {
    if ps != [] {
      MergeKeepsStored(props, ps[..|ps| - 1], prior, user, rank, x);
    }
  }

  /** The merge adds no key besides names of generated properties. */
  lemma {:induction false} MergeKeys(props: seq<Property>, ps: seq<Property>, prior: Record, user: Record,
                                     rank: map<string, nat>)
    requires Acyclic(props, rank) && forall p :: p in ps ==> p in props
    requires MergeOver(props, ps, prior, user, rank).Ok?
    ensures user.Keys <= MergeOver(props, ps, prior, user, rank).value.Keys <= user.Keys + GeneratedNames(ps)
    decreases |ps|
  {
    if ps != [] {
      MergeKeys(props, ps[..|ps| - 1], prior, user, rank);
    }
  }

  /**
   * Under unique names, a generated property at position `i` takes its old value when
   * its dependencies are clean in the copy as the earlier properties left it, and
   * otherwise keeps the new record's entry.
   */
  lemma {:induction false} MergeGenerated(props: seq<Property>, ps: seq<Property>, prior: Record, user: Record,
                                          rank: map<string, nat>, i: nat)
    requires Acyclic(props, rank) && forall p :: p in ps ==> p in props
    requires UniqueNames(ps) && i < |ps| && IsGenerated(ps[i])
    requires MergeOver(props, ps, prior, user, rank).Ok?
    ensures MergeOver(props, ps[..i], prior, user, rank).Ok? && DependenciesOf(props, ps[i], rank).Ok?
    ensures var r := MergeOver(props, ps, prior, user, rank).value;
      var u := MergeOver(props, ps[..i], prior, user, rank).value;
      var name := ps[i].name;
      if Clean(DependenciesOf(props, ps[i], rank).value, prior, u) then name in prior && name in r && r[name] == prior[name]
      else (name in r <==> name in user) && (name in user ==> r[name] == user[name])
    decreases |ps|
  {
    var n := |ps|;
    if i == n - 1 {
      MergeGeneratedLast(props, ps, prior, user, rank);
    } else {
      var prefix := ps[..n - 1];
      assert UniqueNames(prefix);
      assert prefix[..i] == ps[..i] && prefix[i] == ps[i];
      MergeGenerated(props, prefix, prior, user, rank, i);
      assert ps[n - 1].name != ps[i].name;
    }
  }

  /** `MergeGenerated` for the last property: no earlier property has touched its entry. */
  lemma MergeGeneratedLast(props: seq<Property>, ps: seq<Property>, prior: Record, user: Record, rank: map<string, nat>)
    requires Acyclic(props, rank) && forall p :: p in ps ==> p in props
    requires UniqueNames(ps) && ps != [] && IsGenerated(ps[|ps| - 1])
    requires MergeOver(props, ps, prior, user, rank).Ok?
    ensures MergeOver(props, ps[..|ps| - 1], prior, user, rank).Ok? && DependenciesOf(props, ps[|ps| - 1], rank).Ok?
    ensures var r := MergeOver(props, ps, prior, user, rank).value;
      var u := MergeOver(props, ps[..|ps| - 1], prior, user, rank).value;
      var name := ps[|ps| - 1].name;
      if Clean(DependenciesOf(props, ps[|ps| - 1], rank).value, prior, u) then name in prior && name in r && r[name] == prior[name]
      else (name in r <==> name in user) && (name in user ==> r[name] == user[name])
  {
    var prefix := ps[..|ps| - 1];
    var name := ps[|ps| - 1].name;
    GeneratedNamesAre(prefix, name);
    assert forall j :: 0 <= j < |prefix| ==> prefix[j] == ps[j];
    MergeKeepsStored(props, prefix, prior, user, rank, name);
  }

  /** A generated property without `@` arguments always takes its old value back. */
  lemma NoReferencesKeepOld(props: seq<Property>, prior: Record, user: Record, rank: map<string, nat>, i: nat)
    requires Acyclic(props, rank) && UniqueNames(props) && i < |props| && IsGenerated(props[i])
    requires ArgRefs(props[i]) == []
    requires MergeOver(props, props, prior, user, rank).Ok?
    ensures props[i].name in prior && props[i].name in MergeOver(props, props, prior, user, rank).value
    ensures MergeOver(props, props, prior, user, rank).value[props[i].name] == prior[props[i].name]
  {
    MergeGenerated(props, props, prior, user, rank, i);
  }
}
