/**
 * The property manager of managers.py: the ordered list of properties built from a
 * site's configuration (primary key first), the manager token, and the lookups that
 * the rest of the engine goes through.
 */
module Managers {
  import opened Wrappers
  import opened Errors
  import opened Properties

  /** One entry of the site's `properties` list; the optional keys may be missing. */
  datatype PropertyInfo = PropertyInfo(
    source: string,
    name: string,
    tp: string,
    userFk: Option<string>,
    aggregate: Option<string>,
    labelText: Option<string>,
    expose: Option<bool>)

  /** The first site of the configuration: its primary key source and its properties. */
  datatype Site = Site(userPk: string, properties: seq<PropertyInfo>)

  /** `PropertyManager` once constructed: nothing changes it afterwards. */
  datatype Manager = Manager(userPk: Property, properties: seq<Property>, token: string)

  /** What `list_filters` reports for one exposed property. */
  datatype FilterInfo = FilterInfo(name: string, labelText: string, tp: string)

  /** The constructor call for one configuration entry, with the defaults filled in for missing keys. */
  function ParseInfo(reg: Registry, info: PropertyInfo): Result<Property, Error> {
    Parse(reg, info.source,
          if info.userFk.Some? then info.userFk.value else "",
          info.name, info.tp, info.aggregate,
          if info.labelText.Some? then info.labelText.value else info.name,
          if info.expose.Some? then info.expose.value else true,
          false)
  }

  /** Every entry parsed in order; the first entry that fails decides the error. */
  function ParseAll(reg: Registry, infos: seq<PropertyInfo>): (r: Result<seq<Property>, Error>)
    ensures r.Ok? ==> |r.value| == |infos|
    ensures r.Ok? ==> forall i :: 0 <= i < |infos| ==> ParseInfo(reg, infos[i]) == Ok(r.value[i])
    decreases |infos|
  {
    if infos == [] then Ok([])
    else
      match ParseInfo(reg, infos[0])
      case Err(e) => Err(e)
      case Ok(p) =>
        match ParseAll(reg, infos[1..])
        case Err(e) => Err(e)
        case Ok(rest) => Ok([p] + rest)
  }

  /** Construction fails with the error of the first entry that does not parse. */
  lemma {:induction false} ParseAllFirstError(reg: Registry, infos: seq<PropertyInfo>)
    requires ParseAll(reg, infos).Err?
    ensures exists i :: 0 <= i < |infos| && ParseInfo(reg, infos[i]) == Err(ParseAll(reg, infos).error)
                        && forall j :: 0 <= j < i ==> ParseInfo(reg, infos[j]).Ok?
    decreases |infos|
  {
    if ParseInfo(reg, infos[0]).Ok? {
      ParseAllFirstError(reg, infos[1..]);
      var i :| 0 <= i < |infos[1..]| && ParseInfo(reg, infos[1..][i]) == Err(ParseAll(reg, infos[1..]).error)
               && forall j :: 0 <= j < i ==> ParseInfo(reg, infos[1..][j]).Ok?;
      assert ParseInfo(reg, infos[i + 1]) == Err(ParseAll(reg, infos).error);
      forall j | 0 <= j < i + 1 ensures ParseInfo(reg, infos[j]).Ok? {
        if j > 0 {
          assert infos[j] == infos[1..][j - 1];
        }
      }
    }
  }

  /** The primary key property of a site. */
  function PrimaryKeyOf(reg: Registry, site: Site): Result<Property, Error> {
    Parse(reg, site.userPk, "", "", "", None, "", true, true)
  }

  /**
   * `PropertyManager.__init__`: the primary key, then every configured property in
   * order. An empty token stands for a missing one, which is replaced by a fresh uuid.
   */
  function ManagerOf(reg: Registry, site: Site, token: string, freshToken: string): (r: Result<Manager, Error>)
    ensures r.Ok? ==> && |r.value.properties| == |site.properties| + 1
                      && r.value.properties[0] == r.value.userPk
                      && PrimaryKeyOf(reg, site) == Ok(r.value.userPk)
                      && forall i :: 0 <= i < |site.properties| ==> ParseInfo(reg, site.properties[i]) == Ok(r.value.properties[i + 1])
    ensures r.Ok? ==> r.value.token == if token != "" then token else freshToken
    ensures r.Err? <==> PrimaryKeyOf(reg, site).Err? || ParseAll(reg, site.properties).Err?
  {
    match PrimaryKeyOf(reg, site)
    case Err(e) => Err(e)
    case Ok(pk) =>
      match ParseAll(reg, site.properties)
      case Err(e) => Err(e)
      case Ok(rest) => Ok(Manager(pk, [pk] + rest, if token != "" then token else freshToken))
  }

  /** One step of `ParseAll` from position `i`. */
  lemma ParseAllStep(reg: Registry, infos: seq<PropertyInfo>, i: nat, done: seq<Property>)
    requires i < |infos|
    ensures var p := ParseInfo(reg, infos[i]);
      Prepend(done, ParseAll(reg, infos[i..]))
      == if p.Err? then Err(p.error) else Prepend(done + [p.value], ParseAll(reg, infos[i + 1..]))
  {
    assert infos[i..][1..] == infos[i + 1..];
    var tail := ParseAll(reg, infos[i + 1..]);
    if tail.Ok? {
      var p := ParseInfo(reg, infos[i]);
      if p.Ok? {
        assert done + ([p.value] + tail.value) == done + [p.value] + tail.value;
      }
    }
  }

  /** `ManagerOf` once the primary key and the entries have been parsed. */
  lemma ManagerOfParsed(reg: Registry, site: Site, token: string, freshToken: string,
                        pk: Result<Property, Error>, all: Result<seq<Property>, Error>)
    requires pk == PrimaryKeyOf(reg, site) && all == ParseAll(reg, site.properties)
    ensures ManagerOf(reg, site, token, freshToken)
         == if pk.Err? then Err(pk.error)
            else if all.Err? then Err(all.error)
            else Ok(Manager(pk.value, [pk.value] + all.value, if token != "" then token else freshToken))
  {
  }

  /** The constructor's loop, appending one parsed property per configuration entry. */
  method ParseEntries(reg: Registry, infos: seq<PropertyInfo>) returns (r: Result<seq<Property>, Error>)
    ensures r == ParseAll(reg, infos)
  {
    var all := ParseAll(reg, infos);
    var properties := [];
    var i := 0;
    assert infos[i..] == infos;
    assert all.Ok? ==> [] + all.value == all.value;
    while i < |infos|
      invariant 0 <= i <= |infos|
      invariant all == Prepend(properties, ParseAll(reg, infos[i..]))
    {
      var p := ParseInfo(reg, infos[i]);
      ParseAllStep(reg, infos, i, properties);
      if p.Err? {
        return Err(p.error);
      }
      var next := properties + [p.value];
      assert all == Prepend(next, ParseAll(reg, infos[i + 1..]));
      properties := next;
      i := i + 1;
    }
    assert infos[i..] == [];
    assert properties + [] == properties;
    return Ok(properties);
  }

  method Build(reg: Registry, site: Site, token: string, freshToken: string) returns (r: Result<Manager, Error>)
    ensures r == ManagerOf(reg, site, token, freshToken)
  {
    var pk := PrimaryKeyOf(reg, site);
    if pk.Err? {
      return Err(pk.error);
    }
    var rest := ParseEntries(reg, site.properties);
    if rest.Err? {
      return Err(rest.error);
    }
    var t := if token != "" then token else freshToken;
    return Ok(Manager(pk.value, [pk.value] + rest.value, t));
  }

  /** The index of the first property called `name`, or -1. */
  function IndexOfName(props: seq<Property>, name: string): (k: int)
    ensures -1 <= k < |props|
    ensures k == -1 <==> forall i :: 0 <= i < |props| ==> props[i].name != name
    ensures k >= 0 ==> props[k].name == name && forall j :: 0 <= j < k ==> props[j].name != name
    decreases |props|
  {
    if props == [] then -1
    else if props[0].name == name then 0
    else
      var k := IndexOfName(props[1..], name);
      if k == -1 then -1 else k + 1
  }

  /** `get_property_by_name`: the first property with that name. */
  function FindByName(props: seq<Property>, name: string): (r: Option<Property>)
    ensures r.Some? ==> r.value in props && r.value.name == name
    ensures r.None? <==> forall p :: p in props ==> p.name != name
  {
    var k := IndexOfName(props, name);
    if k < 0 then None else Some(props[k])
  }

  method GetPropertyByName(m: Manager, name: string) returns (r: Option<Property>)
    ensures r == FindByName(m.properties, name)
  {
    var i := 0;
    while i < |m.properties|
      invariant 0 <= i <= |m.properties|
      invariant forall j :: 0 <= j < i ==> m.properties[j].name != name
    {
      if m.properties[i].name == name {
        return Some(m.properties[i]);
      }
      i := i + 1;
    }
    return None;
  }

  /** `get_primary_key`: the first property marked as the primary key. */
  function FindPrimaryKey(props: seq<Property>): (r: Option<Property>)
    ensures r.Some? ==> r.value in props && r.value.isPk
    ensures r.None? <==> forall p :: p in props ==> !p.isPk
    ensures r.Some? && props[0].isPk ==> r.value == props[0]
    decreases |props|
  {
    if props == [] then None
    else if props[0].isPk then Some(props[0])
    else FindPrimaryKey(props[1..])
  }

  method GetPrimaryKey(m: Manager) returns (r: Option<Property>)
    ensures r == FindPrimaryKey(m.properties)
  {
    var i := 0;
    while i < |m.properties|
      invariant 0 <= i <= |m.properties|
      invariant FindPrimaryKey(m.properties) == FindPrimaryKey(m.properties[i..])
    {
      if m.properties[i].isPk {
        return Some(m.properties[i]);
      }
      assert m.properties[i..][1..] == m.properties[i + 1..];
      i := i + 1;
    }
    return None;
  }

  /** A constructed manager finds its own primary key, which is the first property, and no other. */
  lemma BuiltPrimaryKey(reg: Registry, site: Site, token: string, freshToken: string)
    requires ManagerOf(reg, site, token, freshToken).Ok?
    ensures var m := ManagerOf(reg, site, token, freshToken).value;
      && FindPrimaryKey(m.properties) == Some(m.userPk)
      && forall i :: 1 <= i < |m.properties| ==> !m.properties[i].isPk
  {
    var m := ManagerOf(reg, site, token, freshToken).value;
    forall i | 1 <= i < |m.properties| ensures !m.properties[i].isPk {
      ParseNeverPk(reg, site.properties[i - 1]);
    }
  }

  /** Configured properties are never the primary key: the constructor is called with `is_pk` false. */
  lemma ParseNeverPk(reg: Registry, info: PropertyInfo)
    ensures ParseInfo(reg, info).Ok? ==> !ParseInfo(reg, info).value.isPk
  {
    var userFk := if info.userFk.Some? then info.userFk.value else "";
    var caption := if info.labelText.Some? then info.labelText.value else info.name;
    var expose := if info.expose.Some? then info.expose.value else true;
    ParseKeepsFlags(reg, info.source, userFk, info.name, info.tp, info.aggregate, caption, expose, false);
  }

  /** The column, aggregate and flags a property is given are the ones it keeps. */
  lemma ParseKeepsFlags(reg: Registry, source: string, userFk: string, name: string, tp: string,
                        aggregate: Option<string>, labelText: string, filterBy: bool, isPk: bool)
    ensures var r := Parse(reg, source, userFk, name, tp, aggregate, labelText, filterBy, isPk);
      r.Ok? ==> r.value.isPk == isPk && r.value.filterBy == filterBy && r.value.aggregate == aggregate
  {
  }

  function FilterOf(p: Property): FilterInfo {
    FilterInfo(p.name, p.labelText, p.tp)
  }

  /**
   * The positions of the properties one may filter by: each such position exactly once,
   * in increasing order.
   */
  function FilterPositions(props: seq<Property>): (idx: seq<nat>)
    ensures forall k :: 0 <= k < |idx| ==> idx[k] < |props| && props[idx[k]].filterBy
    ensures forall k, l :: 0 <= k < l < |idx| ==> idx[k] < idx[l]
    ensures forall i :: 0 <= i < |props| && props[i].filterBy ==> i in idx
    decreases |props|
  {
    if props == [] then []
    else
      var front := props[..|props| - 1];
      var rest := FilterPositions(front);
      if props[|props| - 1].filterBy then rest + [|props| - 1] else rest
  }

  /**
   * `list_filters`: name, label and type of every property one may filter by, one entry
   * per such property, in the order of the properties.
   */
  function Filters(props: seq<Property>): (r: seq<FilterInfo>)
    ensures |r| == |FilterPositions(props)|
    ensures forall k :: 0 <= k < |r| ==> r[k] == FilterOf(props[FilterPositions(props)[k]])
    decreases |props|
  {
    if props == [] then []
    else
      var rest := Filters(props[..|props| - 1]);
      var p := props[|props| - 1];
      if p.filterBy then rest + [FilterOf(p)] else rest
  }

  method ListFilters(m: Manager) returns (filters: seq<FilterInfo>)
    ensures filters == Filters(m.properties)
  {
    filters := [];
    var i := 0;
    while i < |m.properties|
      invariant 0 <= i <= |m.properties|
      invariant filters == Filters(m.properties[..i])
    {
      assert m.properties[..i + 1][..i] == m.properties[..i];
      if m.properties[i].filterBy {
        filters := filters + [FilterOf(m.properties[i])];
      }
      i := i + 1;
    }
    assert m.properties[..i] == m.properties;
  }

  /** A filter is listed exactly when some property one may filter by has that name, label and type. */
  lemma {:induction false} FiltersListed(props: seq<Property>, f: FilterInfo)
    ensures f in Filters(props) <==> exists p :: p in props && p.filterBy && f == FilterOf(p)
    decreases |props|
  {
    if props != [] {
      var prefix := props[..|props| - 1];
      FiltersListed(prefix, f);
      assert props == prefix + [props[|props| - 1]];
      forall p | p in props ensures p in prefix || p == props[|props| - 1] {
      }
    }
  }
}
