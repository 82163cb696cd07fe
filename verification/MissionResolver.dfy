/** `resolve_symbols` as it runs: declarations are objects whose attributes are
    overwritten while later look-ups read them. Proved against `Resolver`. */
module MissionResolver {
  import opened Wrappers
  import opened Resolver
  import opened ResolverPass

  class Declaration {
    const id: string
    const typeName: string
    var attributes: Attributes

    constructor (id: string, typeName: string, attributes: Attributes)
      ensures View() == Datum(id, typeName, attributes)
    {
      this.id, this.typeName, this.attributes := id, typeName, attributes;
    }

    ghost function View(): Datum
      reads this
    {
      Datum(id, typeName, attributes)
    }
  }

  ghost function Views(ds: seq<Declaration>): (views: seq<Datum>)
    reads ds
    ensures |views| == |ds| && forall i :: 0 <= i < |ds| ==> views[i] == ds[i].View()
  {
    seq(|ds|, i requires 0 <= i < |ds| reads ds => ds[i].View())
  }

  twostate lemma SameViews(ds: seq<Declaration>)
    requires forall d | d in ds :: d.attributes == old(d.attributes)
    ensures Views(ds) == old(Views(ds))
  {}

  ghost predicate Distinct(ds: seq<Declaration>) {
    forall i, j :: 0 <= i < j < |ds| ==> ds[i] != ds[j]
  }

  ghost predicate Apart(ds: seq<Declaration>, es: seq<Declaration>) {
    forall d :: d in ds ==> d !in es
  }

  /** A dictionary of declarations: the order they were made in, and the look-up. */
  datatype Dictionary = Dictionary(order: seq<Declaration>, index: map<string, Declaration>) {
    ghost predicate Valid() {
      && (forall i :: 0 <= i < |order| ==> order[i].id in index && index[order[i].id] == order[i])
      && (forall id :: id in index ==> index[id] in order && index[id].id == id)
      && Distinct(order)
    }

    ghost function Table(): Table
      reads order
    {
      TableOf(Views(order))
    }
  }

  /** The look-up in the dictionary reads the declaration as it is now. */
  lemma LookupReadsTheHeap(data: Dictionary, id: string)
    requires data.Valid()
    ensures DistinctIds(Views(data.order))
    ensures id in data.index <==> id in data.Table()
    ensures id in data.index ==> data.Table()[id] == data.index[id].View()
  {
    var views := Views(data.order);
    TableKeys(views);
    if id in data.index {
      var i :| 0 <= i < |data.order| && data.order[i] == data.index[id];
      TableAt(views, i);
      assert views[i].id == id;
    }
  }

  // ----- resolving pairwise, from the front -----

  lemma {:induction false} ResolveAllLast(r: Registry, t: Table, values: seq<Value>, types: seq<Type>, k: nat)
    requires k < |values| && k < |types|
    requires ResolveAll(r, t, values[..k], types[..k]).Returns? && Resolve(r, t, values[k], types[k]).Returns?
    ensures ResolveAll(r, t, values[..k + 1], types[..k + 1])
      == Returns(ResolveAll(r, t, values[..k], types[..k]).value + [Resolve(r, t, values[k], types[k]).value])
  {
    if k == 0 {
      assert values[..1] == [values[0]] && types[..1] == [types[0]];
      assert values[..1][1..] == [] && types[..1][1..] == [];
      var first := Resolve(r, t, values[0], types[0]).value;
      assert [first] + [] == [] + [first];
    } else {
      assert values[..k + 1][1..] == values[1..][..k] && types[..k + 1][1..] == types[1..][..k];
      assert values[..k][1..] == values[1..][..k - 1] && types[..k][1..] == types[1..][..k - 1];
      ResolveAllLast(r, t, values[1..], types[1..], k - 1);
      var first, rest := Resolve(r, t, values[0], types[0]).value,
          ResolveAll(r, t, values[1..][..k - 1], types[1..][..k - 1]).value;
      var last := Resolve(r, t, values[k], types[k]).value;
      assert ResolveAll(r, t, values[1..][..k], types[1..][..k]) == Returns(rest + [last]);
      assert [first] + (rest + [last]) == ([first] + rest) + [last];
    }
  }

  lemma {:induction false} OneRaisesAllRaise(r: Registry, t: Table, values: seq<Value>, types: seq<Type>, k: nat)
    requires k < |values| && k < |types| && Resolve(r, t, values[k], types[k]).Raises?
    ensures ResolveAll(r, t, values, types).Raises?
  {
    if k > 0 {
      OneRaisesAllRaise(r, t, values[1..], types[1..], k - 1);
    }
  }

  lemma {:induction false} ExtraTypesAreIgnored(r: Registry, t: Table, values: seq<Value>, types: seq<Type>)
    ensures ResolveAll(r, t, values, types)
            == ResolveAll(r, t, values[..Min(|values|, |types|)], types[..Min(|values|, |types|)])
  {
    if values != [] && types != [] {
      var m := Min(|values|, |types|);
      ExtraTypesAreIgnored(r, t, values[1..], types[1..]);
      assert values[..m][1..] == values[1..][..m - 1] && types[..m][1..] == types[1..][..m - 1];
    }
  }

  // ----- values -----

  method ResolveValueForField(r: Registry, data: Dictionary, value: Value, typ: Type) returns (out: Outcome<Value>)
    requires data.Valid()
    ensures out == Resolve(r, data.Table(), value, typ)
    decreases value, 1
  {
    if value.Null? {
      return Returns(Null);
    }
    if value.Inline? {
      out := InstantiateInlineData(r, data, value);
      return;
    }
    var core := Unwrap(typ);
    if core.ModelType? {
      if value.Text? {
        out := InstantiateDatum(r, data, value.s);
      } else {
        out := Returns(value);
      }
      return;
    }
    if !core.ListType? || !value.List? {
      return Returns(value);
    }
    ghost var t, types := data.Table(), Repeat(core.inner, |value.items|);
    var items: seq<Value> := [];
    for k := 0 to |value.items|
      invariant ResolveAll(r, t, value.items[..k], types[..k]) == Returns(items)
    {
      var item := ResolveValueForField(r, data, value.items[k], core.inner);
      if item.Raises? {
        OneRaisesAllRaise(r, t, value.items, types, k);
        return Raises;
      }
      ResolveAllLast(r, t, value.items, types, k);
      items := items + [item.value];
    }
    assert value.items[..|value.items|] == value.items && types[..|types|] == types;
    out := Returns(List(items));
  }

  /** The datum named, built from its attributes as they are now; an unknown name
      stays a string. */
  method InstantiateDatum(r: Registry, data: Dictionary, id: string) returns (out: Outcome<Value>)
    requires data.Valid()
    ensures forall typ :: Unwrap(typ).ModelType? ==> out == Resolve(r, data.Table(), Text(id), typ)
  {
    LookupReadsTheHeap(data, id);
    if id !in data.index {
      return Returns(Text(id));
    }
    var c := r.data(data.index[id].typeName);
    if c.None? {
      return Raises;
    }
    out := Construct(r, c.value, data.index[id].attributes);
  }

  /** The first `k` fields have their arguments, as far as there are any. */
  ghost predicate ArgsDone(r: Registry, t: Table, args: seq<Value>, fields: seq<Field>, k: nat, values: seq<Value>,
                           kwargs: Attributes) {
    && k <= |fields| && |values| == Min(k, |args|) && kwargs == Kwargs(fields, values)
    && ResolveAll(r, t, args[..|values|], TypesOf(fields)[..|values|]) == Returns(values)
  }

  lemma NextArg(r: Registry, t: Table, args: seq<Value>, fields: seq<Field>, k: nat, values: seq<Value>,
                kwargs: Attributes, value: Value)
    requires ArgsDone(r, t, args, fields, k, values, kwargs) && k < |args| && k < |fields|
    requires Resolve(r, t, args[k], fields[k].typ) == Returns(value)
    ensures ArgsDone(r, t, args, fields, k + 1, values + [value], kwargs[fields[k].name := value])
  {
    ResolveAllLast(r, t, args, TypesOf(fields), k);
    assert (values + [value])[..k] == values;
  }

  lemma AllArgs(r: Registry, t: Table, args: seq<Value>, fields: seq<Field>, values: seq<Value>, kwargs: Attributes)
    requires ArgsDone(r, t, args, fields, |fields|, values, kwargs)
    ensures ResolveAll(r, t, args, TypesOf(fields)) == Returns(values) && kwargs == Kwargs(fields, values)
  {
    ExtraTypesAreIgnored(r, t, args, TypesOf(fields));
  }

  lemma NoArgs(r: Registry, t: Table, args: seq<Value>, fields: seq<Field>)
    ensures ArgsDone(r, t, args, fields, 0, [], map[])
  {}

  /** Arguments go to fields by position; fields without one are left to defaults. */
  method InstantiateInlineData(r: Registry, data: Dictionary, v: Value) returns (out: Outcome<Value>)
    requires data.Valid() && v.Inline?
    ensures forall typ :: out == Resolve(r, data.Table(), v, typ)
    decreases v, 0
  {
    var c := r.data(v.typeName);
    if c.None? {
      return Raises;
    }
    var fields := c.value.fields;
    ghost var t := data.Table();
    ghost var values: seq<Value> := [];
    var kwargs: Attributes := map[];
    NoArgs(r, t, v.args, fields);
    for idx := 0 to |fields|
      invariant ArgsDone(r, t, v.args, fields, idx, values, kwargs)
    {
      if idx < |v.args| {
        var value := ResolveValueForField(r, data, v.args[idx], fields[idx].typ);
        if value.Raises? {
          OneRaisesAllRaise(r, t, v.args, TypesOf(fields), idx);
          return Raises;
        }
        NextArg(r, t, v.args, fields, idx, values, kwargs, value.value);
        values := values + [value.value];
        kwargs := kwargs[fields[idx].name := value.value];
      }
    }
    AllArgs(r, t, v.args, fields, values, kwargs);
    out := Construct(r, c.value, kwargs);
  }

  // ----- declarations -----

  lemma {:induction false} OneFieldRaisesAllRaise(r: Registry, t: Table, attributes: Attributes, fields: seq<Field>,
          k: nat)
    requires k <= |fields| && ResolveFields(r, t, attributes, fields[..k]).Raises?
    ensures ResolveFields(r, t, attributes, fields).Raises?
    decreases |fields| - k
  {
    if k == |fields| {
      assert fields[..k] == fields;
    } else {
      assert fields[..k + 1][..k] == fields[..k];
      OneFieldRaisesAllRaise(r, t, attributes, fields, k + 1);
    }
  }

  method ResolveAttributes(r: Registry, data: Dictionary, attributes: Attributes, fields: seq<Field>)
    returns (out: Outcome<Attributes>)
    requires data.Valid()
    ensures out == ResolveFields(r, data.Table(), attributes, fields)
  {
    ghost var t := data.Table();
    var resolved := attributes;
    for k := 0 to |fields|
      invariant ResolveFields(r, t, attributes, fields[..k]) == Returns(resolved)
    {
      assert fields[..k + 1][..k] == fields[..k];
      if fields[k].name in resolved {
        var value := ResolveValueForField(r, data, resolved[fields[k].name], fields[k].typ);
        if value.Raises? {
          OneFieldRaisesAllRaise(r, t, attributes, fields, k + 1);
          return Raises;
        }
        resolved := resolved[fields[k].name := value.value];
      }
    }
    assert fields[..|fields|] == fields;
    out := Returns(resolved);
  }

  /** Overwrite the attributes of one declaration; `ok` is false when an exception
      leaves it as it was. */
  method ResolveDeclaration(r: Registry, c: Option<Class>, data: Dictionary, d: Declaration) returns (ok: bool)
    requires data.Valid()
    modifies d`attributes
    ensures ok <==> ResolveDecl(r, c, old(data.Table()), old(d.View())).Returns?
    ensures d.View() == if ok then ResolveDecl(r, c, old(data.Table()), old(d.View())).value else old(d.View())
  {
    if c.None? {
      return false;
    }
    var attributes := ResolveAttributes(r, data, d.attributes, c.value.fields);
    if attributes.Raises? {
      return false;
    }
    d.attributes := attributes.value;
    ok := true;
  }

  /** Overwrite the `i`th datum. */
  method ResolveDatumAt(r: Registry, data: Dictionary, i: nat) returns (ok: bool)
    requires data.Valid() && i < |data.order|
    modifies data.order[i]
    ensures ok <==> ResolveDatum(r, old(data.Table()), old(Views(data.order))[i]).Returns?
    ensures ok ==>
      Views(data.order) == old(Views(data.order))[i := ResolveDatum(r, old(data.Table()),
        old(Views(data.order))[i]).value]
  {
    ok := ResolveDeclaration(r, r.data(data.order[i].typeName), data, data.order[i]);
  }

  /** One round of the pass. */
  lemma FromStep(r: Registry, ds: seq<Datum>, i: nat)
    requires i < |ds|
    ensures ResolveDatum(r, TableOf(ds), ds[i]).Raises? ==> ResolveFrom(r, ds, i).Raises?
    ensures ResolveDatum(r, TableOf(ds), ds[i]).Returns? ==>
      ResolveFrom(r, ds, i) == ResolveFrom(r, ds[i := ResolveDatum(r, TableOf(ds), ds[i]).value], i + 1)
  {}

  lemma FromEnd(r: Registry, ds: seq<Datum>)
    ensures ResolveFrom(r, ds, |ds|) == Returns(ds)
  {}

  /** The data, in the order they were declared. */
  method ResolveData(r: Registry, data: Dictionary) returns (ok: bool)
    requires data.Valid()
    modifies data.order
    ensures ok <==> ResolveFrom(r, old(Views(data.order)), 0).Returns?
    ensures ok ==> Views(data.order) == ResolveFrom(r, old(Views(data.order)), 0).value
  {
    ghost var all := ResolveFrom(r, Views(data.order), 0);
    ghost var now := Views(data.order);
    for i := 0 to |data.order|
      invariant now == Views(data.order) && ResolveFrom(r, now, i) == all
    {
      FromStep(r, now, i);
      ok := ResolveDatumAt(r, data, i);
      if !ok {
        return;
      }
      now := Views(data.order);
    }
    FromEnd(r, now);
    ok := true;
  }

  // ----- the whole mission -----

  lemma {:induction false} OneUseRaisesAllRaise(r: Registry, classOf: string -> Option<Class>, t: Table,
          uses: seq<Datum>, k: nat)
    requires k <= |uses| && ResolveUses(r, classOf, t, uses[..k]).Raises?
    ensures ResolveUses(r, classOf, t, uses).Raises?
    decreases |uses| - k
  {
    if k == |uses| {
      assert uses[..k] == uses;
    } else {
      assert uses[..k + 1][..k] == uses[..k];
      OneUseRaisesAllRaise(r, classOf, t, uses, k + 1);
    }
  }

  /** The first `k` uses are resolved, the others are as they were. */
  ghost predicate UsesDone(r: Registry, classOf: string -> Option<Class>, t: Table, uses: seq<Datum>,
                           now: seq<Datum>, k: nat) {
    && k <= |uses| == |now| && now[k..] == uses[k..]
    && ResolveUses(r, classOf, t, uses[..k]) == Returns(now[..k])
  }

  lemma UsesStart(r: Registry, classOf: string -> Option<Class>, t: Table, uses: seq<Datum>)
    ensures UsesDone(r, classOf, t, uses, uses, 0)
  {}

  lemma UsesNext(r: Registry, classOf: string -> Option<Class>, t: Table, uses: seq<Datum>, now: seq<Datum>, k: nat)
    requires UsesDone(r, classOf, t, uses, now, k) && k < |uses|
    ensures now[k] == uses[k]
  {
    assert now[k..][0] == uses[k..][0];
  }

  lemma UsesStep(r: Registry, classOf: string -> Option<Class>, t: Table, uses: seq<Datum>, now: seq<Datum>, k: nat,
                 d: Datum)
    requires UsesDone(r, classOf, t, uses, now, k) && k < |uses|
    requires ResolveDecl(r, classOf(uses[k].typeName), t, uses[k]) == Returns(d)
    ensures UsesDone(r, classOf, t, uses, now[k := d], k + 1)
  {
    assert uses[..k + 1][..k] == uses[..k] && uses[..k + 1][k] == uses[k];
    assert now[k := d][..k + 1] == now[..k] + [d];
    assert now[k := d][k + 1..] == now[k..][1..] == uses[k + 1..];
  }

  lemma UsesFail(r: Registry, classOf: string -> Option<Class>, t: Table, uses: seq<Datum>, now: seq<Datum>, k: nat)
    requires UsesDone(r, classOf, t, uses, now, k) && k < |uses|
    requires ResolveDecl(r, classOf(uses[k].typeName), t, uses[k]).Raises?
    ensures ResolveUses(r, classOf, t, uses).Raises?
  {
    assert uses[..k + 1][..k] == uses[..k] && uses[..k + 1][k] == uses[k];
    OneUseRaisesAllRaise(r, classOf, t, uses, k + 1);
  }

  lemma UsesEnd(r: Registry, classOf: string -> Option<Class>, t: Table, uses: seq<Datum>, now: seq<Datum>)
    requires UsesDone(r, classOf, t, uses, now, |uses|)
    ensures ResolveUses(r, classOf, t, uses) == Returns(now)
  {
    assert uses[..|uses|] == uses && now[..|uses|] == now;
  }

  /** Overwrite one of the declarations that use the data. */
  method ResolveUse(r: Registry, c: Option<Class>, data: Dictionary, uses: seq<Declaration>, k: nat) returns (ok: bool)
    requires data.Valid() && Distinct(uses) && k < |uses| && uses[k] !in data.order
    modifies uses[k]
    ensures ok <==> ResolveDecl(r, c, data.Table(), old(uses[k].View())).Returns?
    ensures ok ==> Views(uses) == old(Views(uses))[k := ResolveDecl(r, c, data.Table(), old(uses[k].View())).value]
    ensures Views(data.order) == old(Views(data.order))
  {
    ok := ResolveDeclaration(r, c, data, uses[k]);
    assert Views(data.order) == old(Views(data.order));
  }

  /** The actions, or the events, by the data as they are now. */
  method ResolveUsers(r: Registry, classOf: string -> Option<Class>, data: Dictionary, uses: seq<Declaration>)
    returns (ok: bool)
    requires data.Valid() && Distinct(uses) && Apart(uses, data.order)
    modifies uses
    ensures ok <==> ResolveUses(r, classOf, data.Table(), old(Views(uses))).Returns?
    ensures ok ==> Views(uses) == ResolveUses(r, classOf, data.Table(), old(Views(uses))).value
    ensures Views(data.order) == old(Views(data.order))
  {
    ghost var t, views := data.Table(), Views(uses);
    UsesStart(r, classOf, t, views);
    for k := 0 to |uses|
      invariant Views(data.order) == old(Views(data.order))
      invariant UsesDone(r, classOf, t, views, Views(uses), k)
    {
      ghost var now := Views(uses);
      UsesNext(r, classOf, t, views, now, k);
      ok := ResolveUse(r, classOf(uses[k].typeName), data, uses, k);
      if !ok {
        UsesFail(r, classOf, t, views, now, k);
        return;
      }
      UsesStep(r, classOf, t, views, now, k, ResolveDecl(r, classOf(views[k].typeName), t, views[k]).value);
    }
    UsesEnd(r, classOf, t, views, Views(uses));
    ok := true;
  }

  /** The mission being compiled. Its start and transitions are never written. */
  class Compiled {
    const data: Dictionary
    const actions: seq<Declaration>
    const events: seq<Declaration>
    const start: string
    const transitions: map<string, map<string, string>>

    constructor (data: Dictionary, actions: seq<Declaration>, events: seq<Declaration>, start: string,
                 transitions: map<string, map<string, string>>)
      ensures this.data == data && this.actions == actions && this.events == events
      ensures this.start == start && this.transitions == transitions
    {
      this.data, this.actions, this.events := data, actions, events;
      this.start, this.transitions := start, transitions;
    }

    ghost predicate Valid() {
      && data.Valid() && Distinct(actions) && Distinct(events)
      && Apart(actions, data.order) && Apart(events, data.order) && Apart(events, actions)
    }

    ghost function View(): Mission
      reads data.order, actions, events
    {
      Mission(Views(data.order), Views(actions), Views(events), start, transitions)
    }

    /** The first of the three loops; actions and events stay as they are. */
    method ResolveItsData(r: Registry) returns (ok: bool)
      requires Valid()
      modifies data.order
      ensures ok <==> ResolveFrom(r, old(View()).data, 0).Returns?
      ensures ok ==> View() == old(View()).(data := ResolveFrom(r, old(View()).data, 0).value)
    {
      ok := ResolveData(r, data);
      SameViews(actions);
      SameViews(events);
    }

    /** The second loop; data and events stay as they are. */
    method ResolveActions(r: Registry) returns (ok: bool)
      requires Valid()
      modifies actions
      ensures ok <==> ResolveUses(r, r.actions, TableOf(old(View()).data), old(View()).actions).Returns?
      ensures ok ==>
        View() == old(View()).(actions :=
          ResolveUses(r, r.actions, TableOf(old(View()).data), old(View()).actions).value)
    {
      ok := ResolveUsers(r, r.actions, data, actions);
      SameViews(data.order);
      SameViews(events);
    }

    /** The third loop; data and actions stay as they are. */
    method ResolveEvents(r: Registry) returns (ok: bool)
      requires Valid()
      modifies events
      ensures ok <==> ResolveUses(r, r.events, TableOf(old(View()).data), old(View()).events).Returns?
      ensures ok ==>
        View() == old(View()).(events := ResolveUses(r, r.events, TableOf(old(View()).data), old(View()).events).value)
    {
      ok := ResolveUsers(r, r.events, data, events);
      SameViews(data.order);
      SameViews(actions);
    }

    /** `resolve_symbols`: `ok` is false when it ends with an exception. */
    method ResolveSymbols(r: Registry) returns (ok: bool)
      requires Valid()
      modifies data.order, actions, events
      ensures ok <==> Resolver.ResolveSymbols(r, old(View())).Returns?
      ensures ok ==> View() == Resolver.ResolveSymbols(r, old(View())).value
    {
      ok := ResolveItsData(r);
      if !ok {
        return;
      }
      ok := ResolveActions(r);
      if !ok {
        return;
      }
      ok := ResolveEvents(r);
    }
  }
}
