/**
 * `PropertyManager.info`: one database row turned into a user record. Stored
 * properties take the row's columns in declaration order, the primary key as a
 * digest of the manager token and the raw key; generated properties are then
 * computed in declaration order by their providers, with `@name` arguments read
 * from the record built so far; finally the properties one may not filter by are
 * dropped. The digest (`sha1(...).hexdigest()`) is a parameter.
 */
module Evaluator {
  import opened Wrappers
  import opened Values
  import opened Errors
  import opened Properties
  import opened Managers
  import opened Dependencies

  /** How many of the properties are stored (read from a column). */
  function StoredCount(props: seq<Property>): nat
    decreases |props|
  {
    if props == [] then 0
    else StoredCount(props[..|props| - 1]) + (if IsGenerated(props[|props| - 1]) then 0 else 1)
  }

  /** The names of the stored properties. */
  function StoredNames(props: seq<Property>): set<string>
    decreases |props|
  {
    if props == [] then {}
    else StoredNames(props[..|props| - 1]) + (if IsGenerated(props[|props| - 1]) then {} else {props[|props| - 1].name})
  }

  /** The names of the generated properties. */
  function GeneratedNames(props: seq<Property>): set<string>
    decreases |props|
  {
    if props == [] then {}
    else GeneratedNames(props[..|props| - 1]) + (if IsGenerated(props[|props| - 1]) then {props[|props| - 1].name} else {})
  }

  /** No two properties share a name. */
  predicate UniqueNames(props: seq<Property>) {
    forall i, j :: 0 <= i < j < |props| ==> props[i].name != props[j].name
  }

  /** What the primary key is replaced by: the digest of `str(token) + '###' + str(raw)`. */
  function PkDigest(hash: string -> string, token: string, raw: Value): Value {
    Str(hash(token + "###" + Show(raw)))
  }

  function StoredValue(p: Property, raw: Value, token: string, hash: string -> string): Value {
    if p.isPk then PkDigest(hash, token, raw) else raw
  }

  /** The first loop of `info`: one column per stored property, in declaration order. */
  function StoredPass(props: seq<Property>, row: seq<Value>, token: string, hash: string -> string): Record
    requires StoredCount(props) <= |row|
    decreases |props|
  {
    if props == [] then map[]
    else
      var prefix := props[..|props| - 1];
      var p := props[|props| - 1];
      var rec := StoredPass(prefix, row, token, hash);
      if IsGenerated(p) then rec else rec[p.name := StoredValue(p, row[StoredCount(prefix)], token, hash)]
  }

  /** Each `@name` argument stands for the record's value of `name`, any other argument for its text. */
  predicate Substituted(args: seq<string>, rec: Record, vals: seq<Value>)
    requires |vals| == |args|
  {
    forall i :: 0 <= i < |args| ==>
      (IsReference(args[i]) ==> RefName(args[i]) in rec && vals[i] == rec[RefName(args[i])])
      && (!IsReference(args[i]) ==> vals[i] == Str(args[i]))
  }

  /** The provider's arguments: each non-empty `@name` replaced by the record's value for `name`. */
  function Arguments(args: seq<string>, rec: Record): (r: Result<seq<Value>, Error>)
    ensures r.Ok? ==> |r.value| == |args|
    ensures r.Err? ==> r.error.PropertyNotFound?
    decreases |args|
  {
    if args == [] then Ok([])
    else
      var a := args[0];
      if IsReference(a) && RefName(a) !in rec then Err(PropertyNotFound(RefName(a)))
      else
        var v := if IsReference(a) then rec[RefName(a)] else Str(a);
        Prepend([v], Arguments(args[1..], rec))
  }

  /** The second loop of `info`: each generated property computed from the record built so far. */
  function GeneratedPass(reg: Registry, props: seq<Property>, rec0: Record): (r: Result<Record, Error>)
    ensures r.Err? ==> r.error.PropertyNotFound?
    decreases |props|
  {
    if props == [] then Ok(rec0)
    else
      match GeneratedPass(reg, props[..|props| - 1], rec0)
      case Err(e) => Err(e)
      case Ok(rec) =>
        var p := props[|props| - 1];
        if !p.origin.Generated? then Ok(rec)
        else
          match Arguments(p.origin.args, rec)
          case Err(e) => Err(e)
          case Ok(vals) => Ok(rec[p.name := reg.call(p.origin.className, p.origin.methodName, vals)])
  }

  /** Whether the first property called `key` may be filtered by, and so is reported. */
  predicate Exposed(props: seq<Property>, key: string) {
    FindByName(props, key).Some? && FindByName(props, key).value.filterBy
  }

  /** The last loop of `info`: only the entries of exposed properties are kept. */
  function Expose(props: seq<Property>, rec: Record): Record {
    map k | k in rec && Exposed(props, k) :: rec[k]
  }

  /** `info(row)`. */
  function RecordOf(reg: Registry, hash: string -> string, m: Manager, row: seq<Value>): Result<Record, Error>
    requires StoredCount(m.properties) <= |row|
  {
    var stored := StoredPass(m.properties, row, m.token, hash);
    match GeneratedPass(reg, m.properties, stored)
    case Err(e) => Err(e)
    case Ok(rec) => Ok(Expose(m.properties, rec))
  }

  /** `get(pk)` once the row is fetched: with no row, reading the first stored column fails. */
  function RecordOfFetched(reg: Registry, hash: string -> string, m: Manager, row: Option<seq<Value>>): Result<Record, Error>
    requires row.Some? ==> StoredCount(m.properties) <= |row.value|
  {
    if row.Some? then RecordOf(reg, hash, m, row.value)
    else if StoredCount(m.properties) > 0 then Err(NoRow)
    else RecordOf(reg, hash, m, [])
  }

  lemma {:induction false} StoredCountPrefix(props: seq<Property>, i: nat)
    requires i <= |props|
    ensures StoredCount(props[..i]) <= StoredCount(props)
    decreases |props|
  {
    if i < |props| {
      var prefix := props[..|props| - 1];
      StoredCountPrefix(prefix, i);
      assert prefix[..i] == props[..i];
    } else {
      assert props[..i] == props;
    }
  }

  /** The substitution loop of `info`, overwriting the copied argument list in place. */
  method SubstituteArguments(args: seq<string>, rec: Record) returns (r: Result<seq<Value>, Error>)
    ensures r == Arguments(args, rec)
  {
    var fnArgs := Strs(args);
    var idx := 0;
    assert args[idx..] == args;
    var all := Arguments(args, rec);
    PrependNothing(all);
    while idx < |args|
      invariant 0 <= idx <= |args| && |fnArgs| == |args|
      invariant forall j :: idx <= j < |args| ==> fnArgs[j] == Str(args[j])
      invariant all == Prepend(fnArgs[..idx], Arguments(args[idx..], rec))
    {
      var a := args[idx];
      if IsReference(a) {
        if RefName(a) !in rec {
          ArgumentsMissing(args, idx, rec, fnArgs[..idx]);
          return Err(PropertyNotFound(RefName(a)));
        }
        assert all == Prepend(fnArgs[idx := rec[RefName(a)]][..idx + 1], Arguments(args[idx + 1..], rec)) by {
          ArgumentsStep(args, idx, rec, fnArgs[..idx], rec[RefName(a)]);
          UpdatePrefix(fnArgs, idx, rec[RefName(a)]);
        }
        fnArgs := fnArgs[idx := rec[RefName(a)]];
      } else {
        assert all == Prepend(fnArgs[..idx + 1], Arguments(args[idx + 1..], rec)) by {
          ArgumentsStep(args, idx, rec, fnArgs[..idx], Str(a));
          TakeNext(fnArgs, idx);
        }
      }
      idx := idx + 1;
    }
    assert args[idx..] == [] && fnArgs[..idx] == fnArgs;
    assert fnArgs + [] == fnArgs;
    return Ok(fnArgs);
  }

  /** An argument of the form `@name` refers to the property `name`. */
  predicate IsReference(a: string) {
    a != "" && a[0] == '@'
  }

  /** The property an `@name` argument refers to. */
  function RefName(a: string): string
    requires IsReference(a)
  {
    a[1..]
  }

  /** `prop.fn_args[:]`: the argument texts as string values. */
  function Strs(args: seq<string>): (r: seq<Value>)
    ensures |r| == |args| && forall j :: 0 <= j < |args| ==> r[j] == Str(args[j])
  {
    if args == [] then [] else [Str(args[0])] + Strs(args[1..])
  }

  /** Writing position `i` of a sequence extends its prefix by the new value and keeps what follows. */
  lemma UpdatePrefix<T>(s: seq<T>, i: nat, v: T)
    requires i < |s|
    ensures s[i := v][..i + 1] == s[..i] + [v]
    ensures forall j :: i < j < |s| ==> s[i := v][j] == s[j]
  {
  }

  /** A successful substitution puts each referenced value, and each other argument's text, at its argument's place. */
  lemma {:induction false} ArgumentsValues(args: seq<string>, rec: Record)
    requires Arguments(args, rec).Ok?
    ensures Substituted(args, rec, Arguments(args, rec).value)
    decreases |args|
  {
    if args != [] {
      ArgumentsValues(args[1..], rec);
      var vals := Arguments(args, rec).value;
      assert forall i :: 1 <= i < |args| ==> vals[i] == Arguments(args[1..], rec).value[i - 1] && args[i] == args[1..][i - 1];
    }
  }

  /** The prefix one longer is the prefix and the next element. */
  lemma TakeNext<T>(s: seq<T>, i: nat)
    requires i < |s|
    ensures s[..i + 1] == s[..i] + [s[i]]
  {
  }

  /** A step of `Arguments` from position `i` that names a missing property fails. */
  lemma ArgumentsMissing(args: seq<string>, i: nat, rec: Record, done: seq<Value>)
    requires i < |args| && IsReference(args[i]) && RefName(args[i]) !in rec
    ensures Prepend(done, Arguments(args[i..], rec)) == Err(PropertyNotFound(RefName(args[i])))
  {
    assert args[i..][0] == args[i];
  }

  /** A step of `Arguments` from position `i` that yields the value `v`. */
  lemma ArgumentsStep(args: seq<string>, i: nat, rec: Record, done: seq<Value>, v: Value)
    requires i < |args|
    requires IsReference(args[i]) ==> RefName(args[i]) in rec && v == rec[RefName(args[i])]
    requires !IsReference(args[i]) ==> v == Str(args[i])
    ensures Prepend(done, Arguments(args[i..], rec)) == Prepend(done + [v], Arguments(args[i + 1..], rec))
  {
    assert args[i..][0] == args[i];
    assert args[i..][1..] == args[i + 1..];
    PrependConcat(done, [v], Arguments(args[i + 1..], rec));
  }

  /** A failure of the generated pass on a prefix is the failure of the whole pass. */
  lemma {:induction false} GeneratedPassErrExtends(reg: Registry, props: seq<Property>, rec0: Record, k: nat)
    requires k <= |props|
    requires GeneratedPass(reg, props[..k], rec0).Err?
    ensures GeneratedPass(reg, props, rec0) == GeneratedPass(reg, props[..k], rec0)
    decreases |props|
  {
    if k < |props| {
      var prefix := props[..|props| - 1];
      assert prefix[..k] == props[..k];
      GeneratedPassErrExtends(reg, prefix, rec0, k);
    } else {
      assert props[..k] == props;
    }
  }

  /** `info`'s three loops. */
  method Info(reg: Registry, hash: string -> string, m: Manager, row: seq<Value>) returns (r: Result<Record, Error>)
    requires StoredCount(m.properties) <= |row|
    ensures r == RecordOf(reg, hash, m, row)
  {
    var stored := FillStored(m, row, hash);
    var generated := FillGenerated(reg, m.properties, stored);
    if generated.Err? {
      return Err(generated.error);
    }
    var final := ExposedOnly(m, generated.value);
    return Ok(final);
  }

  method FillStored(m: Manager, row: seq<Value>, hash: string -> string) returns (result: Record)
    requires StoredCount(m.properties) <= |row|
    ensures result == StoredPass(m.properties, row, m.token, hash)
  {
    var props := m.properties;
    result := map[];
    var idx := 0;
    var i := 0;
    while i < |props|
      invariant 0 <= i <= |props|
      invariant StoredCount(props[..i]) <= StoredCount(props)
      invariant idx == StoredCount(props[..i])
      invariant result == StoredPass(props[..i], row, m.token, hash)
    {
      assert props[..i + 1][..i] == props[..i];
      StoredCountPrefix(props, i + 1);
      var p := props[i];
      if !IsGenerated(p) {
        if p.isPk {
          result := result[p.name := PkDigest(hash, m.token, row[idx])];
        } else {
          result := result[p.name := row[idx]];
        }
        idx := idx + 1;
      }
      i := i + 1;
    }
    assert props[..i] == props;
  }

  method FillGenerated(reg: Registry, props: seq<Property>, stored: Record) returns (r: Result<Record, Error>)
    ensures r == GeneratedPass(reg, props, stored)
  {
    var result := stored;
    var i := 0;
    while i < |props|
      invariant 0 <= i <= |props|
      invariant GeneratedPass(reg, props[..i], stored) == Ok(result)
    {
      assert props[..i + 1][..i] == props[..i];
      var p := props[i];
      if p.origin.Generated? {
        var fnArgs := SubstituteArguments(p.origin.args, result);
        if fnArgs.Err? {
          GeneratedPassErrExtends(reg, props, stored, i + 1);
          return Err(fnArgs.error);
        }
        result := result[p.name := reg.call(p.origin.className, p.origin.methodName, fnArgs.value)];
      }
      i := i + 1;
    }
    assert props[..i] == props;
    return Ok(result);
  }

  /** The exposure loop; the keys are visited in whatever order the dictionary yields them. */
  method ExposedOnly(m: Manager, result: Record) returns (final: Record)
    ensures final == Expose(m.properties, result)
  {
    final := map[];
    var keys := result.Keys;
    assert final == ExposedOutside(m.properties, result, keys);
    while keys != {}
      invariant keys <= result.Keys
      invariant final == ExposedOutside(m.properties, result, keys)
      decreases |keys|
    {
      var key :| key in keys;
      var prop := GetPropertyByName(m, key);
      ExposeStep(m.properties, result, keys, key);
      if prop.Some? && prop.value.filterBy {
        final := final[key := result[key]];
      }
      keys := keys - {key};
    }
    assert final == Expose(m.properties, result);
  }

  /** The exposed entries of `rec` whose keys the loop has already visited: those outside `keys`. */
  function ExposedOutside(props: seq<Property>, rec: Record, keys: set<string>): Record {
    map k | k in rec && k !in keys && Exposed(props, k) :: rec[k]
  }

  /** Visiting `key` adds its entry exactly when its property is exposed. */
  lemma ExposeStep(props: seq<Property>, rec: Record, keys: set<string>, key: string)
    requires key in keys && keys <= rec.Keys
    ensures ExposedOutside(props, rec, keys - {key})
         == if Exposed(props, key) then ExposedOutside(props, rec, keys)[key := rec[key]] else ExposedOutside(props, rec, keys)
  {
  }

  /** The stored pass fills exactly the names of the stored properties. */
  lemma {:induction false} StoredPassKeys(props: seq<Property>, row: seq<Value>, token: string, hash: string -> string)
    requires StoredCount(props) <= |row|
    ensures StoredPass(props, row, token, hash).Keys == StoredNames(props)
    decreases |props|
  {
    if props != [] {
      StoredPassKeys(props[..|props| - 1], row, token, hash);
    }
  }

  /** A successful generated pass adds exactly the names of the generated properties. */
  lemma {:induction false} GeneratedPassKeys(reg: Registry, props: seq<Property>, rec0: Record)
    requires GeneratedPass(reg, props, rec0).Ok?
    ensures GeneratedPass(reg, props, rec0).value.Keys == rec0.Keys + GeneratedNames(props)
    decreases |props|
  {
    if props != [] {
      GeneratedPassKeys(reg, props[..|props| - 1], rec0);
    }
  }

  lemma {:induction false} StoredNamesAre(props: seq<Property>, x: string)
    ensures x in StoredNames(props) <==> exists i :: 0 <= i < |props| && !IsGenerated(props[i]) && props[i].name == x
    decreases |props|
  {
    if props != [] {
      var prefix := props[..|props| - 1];
      StoredNamesAre(prefix, x);
      assert forall i :: 0 <= i < |prefix| ==> prefix[i] == props[i];
    }
  }

  lemma {:induction false} GeneratedNamesAre(props: seq<Property>, x: string)
    ensures x in GeneratedNames(props) <==> exists i :: 0 <= i < |props| && IsGenerated(props[i]) && props[i].name == x
    decreases |props|
  {
    if props != [] {
      var prefix := props[..|props| - 1];
      GeneratedNamesAre(prefix, x);
      assert forall i :: 0 <= i < |prefix| ==> prefix[i] == props[i];
    }
  }

  /** A successful `info` reports exactly the names whose first property may be filtered by. */
  lemma RecordKeys(reg: Registry, hash: string -> string, m: Manager, row: seq<Value>, x: string)
    requires StoredCount(m.properties) <= |row|
    requires RecordOf(reg, hash, m, row).Ok?
    ensures x in RecordOf(reg, hash, m, row).value <==> Exposed(m.properties, x)
  {
    var props := m.properties;
    var stored := StoredPass(props, row, m.token, hash);
    StoredPassKeys(props, row, m.token, hash);
    GeneratedPassKeys(reg, props, stored);
    StoredNamesAre(props, x);
    GeneratedNamesAre(props, x);
    if Exposed(props, x) {
      var k := IndexOfName(props, x);
      assert props[k].name == x;
    }
  }

  /** Every argument reference can be read exactly when its name is already in the record. */
  lemma {:induction false} ArgumentsSucceed(args: seq<string>, rec: Record)
    ensures Arguments(args, rec).Ok? <==> forall r :: r in Refs(args) ==> r in rec
    decreases |args|
  {
    if args != [] {
      ArgumentsSucceed(args[1..], rec);
    }
  }

  /**
   * Every reference of the generated property at position `i` names a property that
   * is already known before it: one of the initial keys, or a generated property
   * declared before it.
   */
  predicate Computable(props: seq<Property>, known: set<string>) {
    forall i :: 0 <= i < |props| ==> ComputableAt(props[i], known + GeneratedNames(props[..i]))
  }

  /** Every reference of one property names a known key. */
  predicate ComputableAt(p: Property, known: set<string>) {
    forall r :: r in ArgRefs(p) ==> r in known
  }

  /** The generated pass succeeds exactly when every reference is computable in declaration order. */
  lemma {:induction false} GeneratedPassSucceeds(reg: Registry, props: seq<Property>, rec0: Record)
    ensures GeneratedPass(reg, props, rec0).Ok? <==> Computable(props, rec0.Keys)
    decreases |props|
  {
    GeneratedPassInOrder(reg, props, rec0);
    ComputableInOrderAll(props, rec0.Keys);
  }

  /** `Computable` checked one property at a time, in declaration order. */
  predicate ComputableInOrder(props: seq<Property>, known: set<string>)
    decreases |props|
  {
    props == [] ||
      var prefix := props[..|props| - 1];
      ComputableInOrder(prefix, known) && ComputableAt(props[|props| - 1], known + GeneratedNames(prefix))
  }

  /** The generated pass succeeds exactly when each property in turn is computable from what precedes it. */
  lemma {:induction false} GeneratedPassInOrder(reg: Registry, props: seq<Property>, rec0: Record)
    ensures GeneratedPass(reg, props, rec0).Ok? <==> ComputableInOrder(props, rec0.Keys)
    decreases |props|
  {
    if props != [] {
      var prefix := props[..|props| - 1];
      GeneratedPassInOrder(reg, prefix, rec0);
      GeneratedPassLast(reg, props, rec0);
      var before := GeneratedPass(reg, prefix, rec0);
      if before.Ok? {
        GeneratedPassKeys(reg, prefix, rec0);
        ArgumentsComputable(props[|props| - 1], before.value);
      }
    }
  }

  /** The step-by-step and the all-at-once readings of `Computable` agree. */
  lemma {:induction false} ComputableInOrderAll(props: seq<Property>, known: set<string>)
    ensures ComputableInOrder(props, known) <==> Computable(props, known)
    decreases |props|
  {
    if props != [] {
      ComputableInOrderAll(props[..|props| - 1], known);
      ComputableLast(props, known);
    }
  }

  /** The generated pass over a non-empty list succeeds when it does on the prefix and the last property's arguments resolve. */
  lemma GeneratedPassLast(reg: Registry, props: seq<Property>, rec0: Record)
    requires props != []
    ensures var before := GeneratedPass(reg, props[..|props| - 1], rec0);
      var p := props[|props| - 1];
      GeneratedPass(reg, props, rec0).Ok? <==> before.Ok? && GeneratedStepOk(p, before.value)
  {
  }

  /** The step of the generated pass for `p` raises nothing: `p` is stored, or its arguments resolve. */
  predicate GeneratedStepOk(p: Property, rec: Record) {
    p.origin.Generated? ==> Arguments(p.origin.args, rec).Ok?
  }

  /** A generated property's arguments resolve against a record exactly when its references are among the record's keys. */
  lemma ArgumentsComputable(p: Property, rec: Record)
    ensures GeneratedStepOk(p, rec) <==> ComputableAt(p, rec.Keys)
  {
    if p.origin.Generated? {
      ArgumentsSucceed(p.origin.args, rec);
    }
  }

  /** A list is computable when its prefix is and the last property's references are known or generated before it. */
  lemma ComputableLast(props: seq<Property>, known: set<string>)
    requires props != []
    ensures var prefix := props[..|props| - 1];
      Computable(props, known) <==> Computable(prefix, known) && ComputableAt(props[|props| - 1], known + GeneratedNames(prefix))
  {
    var n := |props|;
    var prefix := props[..n - 1];
    if Computable(props, known) {
      forall i | 0 <= i < |prefix|
        ensures ComputableAt(prefix[i], known + GeneratedNames(prefix[..i]))
      {
        assert prefix[i] == props[i] && prefix[..i] == props[..i];
      }
    }
    if Computable(prefix, known) && ComputableAt(props[n - 1], known + GeneratedNames(prefix)) {
      forall i | 0 <= i < n
        ensures ComputableAt(props[i], known + GeneratedNames(props[..i]))
      {
        if i < n - 1 {
          assert prefix[i] == props[i] && prefix[..i] == props[..i];
        }
      }
    }
  }

  /**
   * `info` succeeds exactly when each reference of a generated property names a
   * stored property (anywhere) or a generated property declared before it; otherwise
   * it raises `PropertyNotFoundException`.
   */
  lemma RecordSucceeds(reg: Registry, hash: string -> string, m: Manager, row: seq<Value>)
    requires StoredCount(m.properties) <= |row|
    ensures RecordOf(reg, hash, m, row).Ok? <==> Computable(m.properties, StoredNames(m.properties))
    ensures RecordOf(reg, hash, m, row).Err? ==> RecordOf(reg, hash, m, row).error.PropertyNotFound?
  {
    StoredPassKeys(m.properties, row, m.token, hash);
    GeneratedPassSucceeds(reg, m.properties, StoredPass(m.properties, row, m.token, hash));
  }

  /** Under unique names a stored property holds its own column: the one after all stored properties before it. */
  lemma {:induction false} StoredPassValue(props: seq<Property>, row: seq<Value>, token: string, hash: string -> string,
                                           i: nat)
    requires StoredCount(props) <= |row|
    requires UniqueNames(props) && i < |props| && !IsGenerated(props[i])
    ensures StoredCount(props[..i]) < |row|
    ensures var rec := StoredPass(props, row, token, hash);
      props[i].name in rec && rec[props[i].name] == StoredValue(props[i], row[StoredCount(props[..i])], token, hash)
    decreases |props|
  {
    var n := |props|;
    var prefix := props[..n - 1];
    var p := props[n - 1];
    StoredCountPrefix(props, i + 1);
    assert props[..i + 1][..i] == props[..i];
    var before := StoredPass(prefix, row, token, hash);
    assert StoredPass(props, row, token, hash) == if IsGenerated(p) then before else before[p.name := StoredValue(p, row[StoredCount(prefix)], token, hash)];
    if i == n - 1 {
      assert prefix == props[..i];
    } else {
      assert prefix[..i] == props[..i];
      assert prefix[i] == props[i];
      StoredPassValue(prefix, row, token, hash, i);
      assert p.name != props[i].name;
    }
  }

  /**
   * Under unique names a generated property holds what its provider method returns for
   * its arguments, substituted from the record the properties before it have built.
   */
  lemma {:induction false} GeneratedPassValue(reg: Registry, props: seq<Property>, rec0: Record, i: nat)
    requires UniqueNames(props) && i < |props| && props[i].origin.Generated?
    requires GeneratedPass(reg, props, rec0).Ok?
    ensures GeneratedPass(reg, props[..i], rec0).Ok?
    ensures var p, before := props[i], GeneratedPass(reg, props[..i], rec0).value;
      && Arguments(p.origin.args, before).Ok?
      && p.name in GeneratedPass(reg, props, rec0).value
      && GeneratedPass(reg, props, rec0).value[p.name]
         == reg.call(p.origin.className, p.origin.methodName, Arguments(p.origin.args, before).value)
    decreases |props|
  {
    var n := |props|;
    var prefix := props[..n - 1];
    if i == n - 1 {
      assert prefix == props[..i];
    } else {
      assert prefix[..i] == props[..i];
      assert UniqueNames(prefix) by {
        assert forall j :: 0 <= j < n - 1 ==> prefix[j] == props[j];
      }
      GeneratedPassValue(reg, prefix, rec0, i);
      assert props[n - 1].name != props[i].name;
    }
  }

  /** Under unique names the generated pass leaves the stored values alone. */
  lemma {:induction false} GeneratedPassKeepsStored(reg: Registry, props: seq<Property>, rec0: Record, x: string)
    requires GeneratedPass(reg, props, rec0).Ok?
    requires x !in GeneratedNames(props) && x in rec0
    ensures x in GeneratedPass(reg, props, rec0).value && GeneratedPass(reg, props, rec0).value[x] == rec0[x]
    decreases |props|
  {
    if props != [] {
      GeneratedPassKeepsStored(reg, props[..|props| - 1], rec0, x);
    }
  }

  /**
   * Under unique names the reported primary key is the digest of the token and the
   * raw key, which is the row's first column.
   */
  lemma PrimaryKeyHashed(reg: Registry, hash: string -> string, m: Manager, row: seq<Value>)
    requires StoredCount(m.properties) <= |row|
    requires UniqueNames(m.properties) && |m.properties| > 0
    requires m.properties[0] == m.userPk && m.userPk.isPk && m.userPk.filterBy && !IsGenerated(m.userPk)
    requires RecordOf(reg, hash, m, row).Ok?
    ensures |row| > 0 && m.userPk.name in RecordOf(reg, hash, m, row).value
    ensures RecordOf(reg, hash, m, row).value[m.userPk.name] == PkDigest(hash, m.token, row[0])
  {
    var props := m.properties;
    var pk := m.userPk;
    var stored := StoredPass(props, row, m.token, hash);
    StoredPassValue(props, row, m.token, hash, 0);
    assert props[..0] == [];
    GeneratedNamesAre(props, pk.name);
    GeneratedPassKeepsStored(reg, props, stored, pk.name);
    assert IndexOfName(props, pk.name) == 0;
    RecordKeys(reg, hash, m, row, pk.name);
  }
}
