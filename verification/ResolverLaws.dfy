/** What resolving one value and the attributes of one declaration depends on, what
    it changes and what it leaves behind. */
module ResolverLaws {
  import opened Wrappers
  import opened Resolver

  ghost predicate SameShape(t: Table, u: Table) {
    t.Keys == u.Keys && forall id :: id in t ==> t[id].typeName == u[id].typeName
  }

  ghost predicate AgreeOn(t: Table, u: Table, ids: set<string>) {
    forall id :: id in ids && id in t && id in u ==> t[id].attributes == u[id].attributes
  }

  // ----- one value -----

  /** Resolving depends only on the data referred to. */
  lemma {:induction false} ResolveAgrees(r: Registry, t: Table, u: Table, value: Value, typ: Type)
    requires SameShape(t, u) && AgreeOn(t, u, Refs(r, t.Keys, value, typ))
    ensures Resolve(r, t, value, typ) == Resolve(r, u, value, typ)
    decreases value, 1
  {
    if value.Inline? {
      if r.data(value.typeName).Some? {
        ResolveAllAgrees(r, t, u, value.args, TypesOf(r.data(value.typeName).value.fields));
      }
    } else if Unwrap(typ).ListType? && value.List? {
      ResolveAllAgrees(r, t, u, value.items, Repeat(Unwrap(typ).inner, |value.items|));
    }
  }

  lemma {:induction false} ResolveAllAgrees(r: Registry, t: Table, u: Table, values: seq<Value>, types: seq<Type>)
    requires SameShape(t, u) && AgreeOn(t, u, RefsAll(r, t.Keys, values, types))
    ensures ResolveAll(r, t, values, types) == ResolveAll(r, u, values, types)
    decreases values, 0
  {
    if values != [] && types != [] {
      ResolveAgrees(r, t, u, values[0], types[0]);
      ResolveAllAgrees(r, t, u, values[1..], types[1..]);
    }
  }

  lemma {:induction false} KwargsHas(fields: seq<Field>, values: seq<Value>, i: nat)
    requires |values| <= |fields| && DistinctFields(fields) && i < |values|
    ensures fields[i].name in Kwargs(fields, values) && Kwargs(fields, values)[fields[i].name] == values[i]
  {
    if i < |values| - 1 {
      KwargsHas(fields, values[..|values| - 1], i);
    }
  }

  lemma KwargsInjective(fields: seq<Field>, v: seq<Value>, w: seq<Value>)
    requires DistinctFields(fields) && |v| == |w| <= |fields| && Kwargs(fields, v) == Kwargs(fields, w)
    ensures v == w
  {
    forall i | 0 <= i < |v| ensures v[i] == w[i] {
      KwargsHas(fields, v, i);
      KwargsHas(fields, w, i);
    }
  }

  /** An instance records what it was built from, so equal results come from data
      that agree wherever the value refers to them. */
  lemma {:induction false} ResolveDetermines(r: Registry, t: Table, u: Table, value: Value, typ: Type)
    requires RegistryOk(r) && SameShape(t, u)
    requires Resolve(r, t, value, typ).Returns? && Resolve(r, t, value, typ) == Resolve(r, u, value, typ)
    ensures AgreeOn(t, u, Refs(r, t.Keys, value, typ))
    decreases value, 1
  {
    if value.Inline? {
      var fields := r.data(value.typeName).value.fields;
      KwargsInjective(fields, ResolveAll(r, t, value.args, TypesOf(fields)).value,
        ResolveAll(r, u, value.args, TypesOf(fields)).value);
      ResolveAllDetermines(r, t, u, value.args, TypesOf(fields));
    } else if Unwrap(typ).ListType? && value.List? {
      ResolveAllDetermines(r, t, u, value.items, Repeat(Unwrap(typ).inner, |value.items|));
    }
  }

  lemma {:induction false} ResolveAllDetermines(r: Registry, t: Table, u: Table, values: seq<Value>, types: seq<Type>)
    requires RegistryOk(r) && SameShape(t, u)
    requires ResolveAll(r, t, values, types).Returns?
    requires ResolveAll(r, t, values, types) == ResolveAll(r, u, values, types)
    ensures AgreeOn(t, u, RefsAll(r, t.Keys, values, types))
    decreases values, 0
  {
    if values != [] && types != [] {
      var out := ResolveAll(r, t, values, types).value;
      assert out[0] == Resolve(r, t, values[0], types[0]).value == Resolve(r, u, values[0], types[0]).value;
      assert out[1..] == ResolveAll(r, t, values[1..], types[1..]).value
             == ResolveAll(r, u, values[1..], types[1..]).value;
      ResolveDetermines(r, t, u, values[0], types[0]);
      ResolveAllDetermines(r, t, u, values[1..], types[1..]);
    }
  }

  /** A value comes back unchanged exactly when there is nothing in it to replace. */
  lemma {:induction false} UnchangedIffPlain(r: Registry, t: Table, value: Value, typ: Type)
    ensures Resolve(r, t, value, typ) == Returns(value) <==> Plain(r, t.Keys, value, typ)
    decreases value, 1
  {
    if !value.Inline? && Unwrap(typ).ListType? && value.List? {
      AllUnchangedIffPlain(r, t, value.items, Repeat(Unwrap(typ).inner, |value.items|));
    }
  }

  lemma {:induction false} AllUnchangedIffPlain(r: Registry, t: Table, values: seq<Value>, types: seq<Type>)
    requires |types| == |values|
    ensures ResolveAll(r, t, values, types) == Returns(values) <==> PlainAll(r, t.Keys, values, types)
    decreases values, 0
  {
    if values != [] {
      UnchangedIffPlain(r, t, values[0], types[0]);
      AllUnchangedIffPlain(r, t, values[1..], types[1..]);
      assert values == [values[0]] + values[1..];
      var first, rest := Resolve(r, t, values[0], types[0]), ResolveAll(r, t, values[1..], types[1..]);
      if ResolveAll(r, t, values, types) == Returns(values) {
        assert ([first.value] + rest.value)[0] == values[0];
        assert ([first.value] + rest.value)[1..] == rest.value;
      }
    }
  }

  /** What comes out of the resolver has nothing left to replace. */
  lemma {:induction false} ResolvedIsPlain(r: Registry, t: Table, value: Value, typ: Type)
    requires Resolve(r, t, value, typ).Returns?
    ensures Plain(r, t.Keys, Resolve(r, t, value, typ).value, typ)
    decreases value, 1
  {
    if !value.Inline? && Unwrap(typ).ListType? && value.List? {
      AllResolvedArePlain(r, t, value.items, Repeat(Unwrap(typ).inner, |value.items|));
    }
  }

  lemma {:induction false} AllResolvedArePlain(r: Registry, t: Table, values: seq<Value>, types: seq<Type>)
    requires ResolveAll(r, t, values, types).Returns? && |types| == |values|
    ensures PlainAll(r, t.Keys, ResolveAll(r, t, values, types).value, types)
    decreases values, 0
  {
    if values != [] {
      ResolvedIsPlain(r, t, values[0], types[0]);
      AllResolvedArePlain(r, t, values[1..], types[1..]);
      var out := ResolveAll(r, t, values, types).value;
      assert out[0] == Resolve(r, t, values[0], types[0]).value
             && out[1..] == ResolveAll(r, t, values[1..], types[1..]).value;
    }
  }

  // ----- the attributes of one declaration -----

  ghost predicate IsField(fields: seq<Field>, name: string) {
    exists f :: f in fields && f.name == name
  }

  /** `out` is `attributes` with every field resolved and nothing else touched. */
  ghost predicate FieldsResolved(r: Registry, t: Table, attributes: Attributes, fields: seq<Field>, out: Attributes) {
    && out.Keys == attributes.Keys
    && (forall name :: name in attributes && !IsField(fields, name) ==> out[name] == attributes[name])
    && (forall f :: f in fields && f.name in attributes ==>
         Resolve(r, t, attributes[f.name], f.typ) == Returns(out[f.name]))
  }

  /** Every field that is present can be resolved. */
  ghost predicate FieldsSucceed(r: Registry, t: Table, attributes: Attributes, fields: seq<Field>) {
    forall f :: f in fields && f.name in attributes ==> Resolve(r, t, attributes[f.name], f.typ).Returns?
  }

  lemma {:induction false} ResolveFieldsIsPointwise(r: Registry, t: Table, attributes: Attributes, fields: seq<Field>)
    requires DistinctFields(fields)
    ensures ResolveFields(r, t, attributes, fields).Returns? <==> FieldsSucceed(r, t, attributes, fields)
    ensures ResolveFields(r, t, attributes, fields).Returns? ==>
              FieldsResolved(r, t, attributes, fields, ResolveFields(r, t, attributes, fields).value)
  {
    if fields != [] {
      var rest, f := fields[..|fields| - 1], fields[|fields| - 1];
      ResolveFieldsIsPointwise(r, t, attributes, rest);
      assert forall g :: g in fields <==> g in rest || g == f;
      assert !IsField(rest, f.name);
      forall name ensures IsField(fields, name) <==> IsField(rest, name) || name == f.name {}
    }
  }

  lemma FieldsResolvedIsUnique(r: Registry, t: Table, attributes: Attributes, fields: seq<Field>, out: Attributes,
                               out': Attributes)
    requires FieldsResolved(r, t, attributes, fields, out) && FieldsResolved(r, t, attributes, fields, out')
    ensures out == out'
  {
    forall name | name in attributes ensures out[name] == out'[name] {
      if IsField(fields, name) {
        var f :| f in fields && f.name == name;
      }
    }
  }

  /** Two tables give a declaration the same attributes exactly when they agree on
      everything it refers to. */
  lemma FieldsAgreeIff(r: Registry, t: Table, u: Table, attributes: Attributes, fields: seq<Field>)
    requires RegistryOk(r) && DistinctFields(fields) && SameShape(t, u)
    requires ResolveFields(r, t, attributes, fields).Returns?
    ensures ResolveFields(r, u, attributes, fields) == ResolveFields(r, t, attributes, fields)
      <==> forall id :: id in t && FieldsRefer(r, t.Keys, attributes, fields, id) ==>
        t[id].attributes == u[id].attributes
  {
    var out := ResolveFields(r, t, attributes, fields).value;
    ResolveFieldsIsPointwise(r, t, attributes, fields);
    ResolveFieldsIsPointwise(r, u, attributes, fields);
    if forall id :: id in t && FieldsRefer(r, t.Keys, attributes, fields, id) ==> t[id].attributes == u[id].attributes {
      forall f | f in fields && f.name in attributes
        ensures Resolve(r, u, attributes[f.name], f.typ) == Returns(out[f.name]) {
        ResolveAgrees(r, t, u, attributes[f.name], f.typ);
      }
      FieldsResolvedIsUnique(r, u, attributes, fields, out, ResolveFields(r, u, attributes, fields).value);
    }
    if ResolveFields(r, u, attributes, fields) == Returns(out) {
      forall id | id in t && FieldsRefer(r, t.Keys, attributes, fields, id)
        ensures t[id].attributes == u[id].attributes {
        var f :| f in fields && f.name in attributes && id in Refs(r, t.Keys, attributes[f.name], f.typ);
        ResolveDetermines(r, t, u, attributes[f.name], f.typ);
      }
    }
  }

  lemma FieldsUnchangedIffPlain(r: Registry, t: Table, attributes: Attributes, fields: seq<Field>)
    requires DistinctFields(fields)
    ensures ResolveFields(r, t, attributes, fields) == Returns(attributes)
            <==> FieldsPlain(r, t.Keys, attributes, fields)
  {
    ResolveFieldsIsPointwise(r, t, attributes, fields);
    forall f | f in fields && f.name in attributes
      ensures Resolve(r, t, attributes[f.name], f.typ) == Returns(attributes[f.name])
              <==> Plain(r, t.Keys, attributes[f.name], f.typ)
    {
      UnchangedIffPlain(r, t, attributes[f.name], f.typ);
    }
    if FieldsPlain(r, t.Keys, attributes, fields) {
      FieldsResolvedIsUnique(r, t, attributes, fields, attributes, ResolveFields(r, t, attributes, fields).value);
    }
  }

  lemma ResolvedFieldsArePlain(r: Registry, t: Table, attributes: Attributes, fields: seq<Field>)
    requires DistinctFields(fields) && ResolveFields(r, t, attributes, fields).Returns?
    ensures FieldsPlain(r, t.Keys, ResolveFields(r, t, attributes, fields).value, fields)
  {
    ResolveFieldsIsPointwise(r, t, attributes, fields);
    var out := ResolveFields(r, t, attributes, fields).value;
    forall f | f in fields && f.name in out ensures Plain(r, t.Keys, out[f.name], f.typ) {
      ResolvedIsPlain(r, t, attributes[f.name], f.typ);
    }
  }
}
