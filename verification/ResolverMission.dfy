/** The whole of `resolve_symbols`: what it does to every declaration of a mission,
    what it leaves alone, and that running it again changes nothing. */
module ResolverMission {
  import opened Wrappers
  import opened Resolver
  import opened ResolverLaws
  import opened ResolverPass

  // ----- a second pass -----

  /** Every class is known and there is nothing to replace. */
  ghost predicate AllPlain(r: Registry, classOf: string -> Option<Class>, ids: set<string>, ds: seq<Datum>) {
    forall j :: 0 <= j < |ds| ==>
      classOf(ds[j].typeName).Some? && FieldsPlain(r, ids, ds[j].attributes, classOf(ds[j].typeName).value.fields)
  }

  ghost predicate ClassesOk(classOf: string -> Option<Class>) {
    forall t :: classOf(t).Some? ==> DistinctFields(classOf(t).value.fields)
  }

  lemma {:induction false} PlainPass(r: Registry, ds: seq<Datum>, i: nat)
    requires RegistryOk(r) && AllPlain(r, r.data, Ids(ds), ds) && i <= |ds|
    ensures ResolveFrom(r, ds, i) == Returns(ds)
    decreases |ds| - i
  {
    if i < |ds| {
      TableKeys(ds);
      FieldsUnchangedIffPlain(r, TableOf(ds), ds[i].attributes, FieldsOf(r, ds[i]));
      assert ds[i := ds[i]] == ds;
      PlainPass(r, ds, i + 1);
    }
  }

  /** Main result: a second pass over the data changes nothing, whatever the order of
      the declarations. */
  lemma SecondPassChangesNothing(r: Registry, ds: seq<Datum>)
    requires RegistryOk(r) && DistinctIds(ds) && ResolveFrom(r, ds, 0).Returns?
    ensures var out := ResolveFrom(r, ds, 0).value; ResolveFrom(r, out, 0) == Returns(out)
  {
    var out := ResolveFrom(r, ds, 0).value;
    PassSteps(r, ds, 0);
    SameNamesSameIds(ds, out);
    forall j | 0 <= j < |out|
      ensures r.data(out[j].typeName).Some? && FieldsPlain(r, Ids(out), out[j].attributes, FieldsOf(r, out[j]))
    {
      assert StepOk(r, ds, out, j);
      StepUnchangedIffPlain(r, ds, out, j);
    }
    PlainPass(r, out, 0);
  }

  // ----- actions and events -----

  lemma {:induction false} ResolveUsesIsPointwise(r: Registry, classOf: string -> Option<Class>, t: Table,
          uses: seq<Datum>)
    ensures ResolveUses(r, classOf, t, uses).Returns?
      <==> forall k :: 0 <= k < |uses| ==> ResolveDecl(r, classOf(uses[k].typeName), t, uses[k]).Returns?
    ensures ResolveUses(r, classOf, t, uses).Returns? ==>
      var out := ResolveUses(r, classOf, t, uses).value;
      |out| == |uses| && forall k :: 0 <= k < |uses| ==>
        ResolveDecl(r, classOf(uses[k].typeName), t, uses[k]) == Returns(out[k])
  {
    if uses != [] {
      var n := |uses| - 1;
      var rest := uses[..n];
      ResolveUsesIsPointwise(r, classOf, t, rest);
      assert forall k :: 0 <= k < n ==> rest[k] == uses[k];
      if ResolveUses(r, classOf, t, uses).Returns? {
        forall k | 0 <= k < |uses| ensures ResolveDecl(r, classOf(uses[k].typeName), t, uses[k]).Returns? {
          if k < n {
            assert rest[k] == uses[k];
          }
        }
      }
      if forall k :: 0 <= k < |uses| ==> ResolveDecl(r, classOf(uses[k].typeName), t, uses[k]).Returns? {
        assert ResolveDecl(r, classOf(uses[n].typeName), t, uses[n]).Returns?;
        assert ResolveUses(r, classOf, t, rest).Returns?;
      }
    }
  }

  lemma {:induction false} PlainUses(r: Registry, classOf: string -> Option<Class>, t: Table, uses: seq<Datum>)
    requires ClassesOk(classOf) && AllPlain(r, classOf, t.Keys, uses)
    ensures ResolveUses(r, classOf, t, uses) == Returns(uses)
  {
    if uses != [] {
      var last := uses[|uses| - 1];
      PlainUses(r, classOf, t, uses[..|uses| - 1]);
      FieldsUnchangedIffPlain(r, t, last.attributes, classOf(last.typeName).value.fields);
      assert uses == uses[..|uses| - 1] + [last];
    }
  }

  /** `out` is the declaration `d` with its fields resolved by the table `t`. */
  ghost predicate DeclResolved(r: Registry, classOf: string -> Option<Class>, t: Table, d: Datum, out: Datum) {
    && out.id == d.id && out.typeName == d.typeName
    && classOf(d.typeName).Some?
    && FieldsResolved(r, t, d.attributes, classOf(d.typeName).value.fields, out.attributes)
  }

  lemma DeclIsResolved(r: Registry, classOf: string -> Option<Class>, t: Table, d: Datum, out: Datum)
    requires ClassesOk(classOf) && ResolveDecl(r, classOf(d.typeName), t, d) == Returns(out)
    ensures DeclResolved(r, classOf, t, d, out)
    ensures FieldsPlain(r, t.Keys, out.attributes, classOf(d.typeName).value.fields)
  {
    ResolveFieldsIsPointwise(r, t, d.attributes, classOf(d.typeName).value.fields);
    ResolvedFieldsArePlain(r, t, d.attributes, classOf(d.typeName).value.fields);
  }

  lemma UsesAreResolved(r: Registry, classOf: string -> Option<Class>, t: Table, uses: seq<Datum>)
    requires ClassesOk(classOf) && ResolveUses(r, classOf, t, uses).Returns?
    ensures var out := ResolveUses(r, classOf, t, uses).value;
      && |out| == |uses|
      && (forall k :: 0 <= k < |uses| ==> DeclResolved(r, classOf, t, uses[k], out[k]))
      && AllPlain(r, classOf, t.Keys, out)
  {
    ResolveUsesIsPointwise(r, classOf, t, uses);
    var out := ResolveUses(r, classOf, t, uses).value;
    forall k | 0 <= k < |uses|
      ensures DeclResolved(r, classOf, t, uses[k], out[k])
      ensures FieldsPlain(r, t.Keys, out[k].attributes, classOf(out[k].typeName).value.fields)
    {
      assert ResolveDecl(r, classOf(uses[k].typeName), t, uses[k]) == Returns(out[k]);
      DeclIsResolved(r, classOf, t, uses[k], out[k]);
    }
  }

  // ----- the whole mission -----

  /** Main result: start and transitions are untouched; every declaration keeps its
      place, id, type name and keys, and its attributes outside the fields of its
      class; every field is resolved, by the final data for actions and events and
      by the data as resolved so far for the data. */
  lemma MissionIsResolved(r: Registry, m: Mission, out: Mission)
    requires RegistryOk(r) && DistinctIds(m.data) && ResolveSymbols(r, m) == Returns(out)
    ensures out.start == m.start && out.transitions == m.transitions
    ensures SameNames(m.data, out.data) && |out.actions| == |m.actions| && |out.events| == |m.events|
    ensures forall k :: 0 <= k < |m.data| ==>
      DeclResolved(r, r.data, TableOf(Mixed(m.data, out.data, k)), m.data[k], out.data[k])
    ensures forall k :: 0 <= k < |m.actions| ==>
      DeclResolved(r, r.actions, TableOf(out.data), m.actions[k], out.actions[k])
    ensures forall k :: 0 <= k < |m.events| ==> DeclResolved(r, r.events, TableOf(out.data), m.events[k], out.events[k])
  {
    PassSteps(r, m.data, 0);
    forall k | 0 <= k < |m.data|
      ensures DeclResolved(r, r.data, TableOf(Mixed(m.data, out.data, k)), m.data[k], out.data[k])
    {
      assert StepOk(r, m.data, out.data, k);
      DeclIsResolved(r, r.data, TableOf(Mixed(m.data, out.data, k)), m.data[k], out.data[k]);
    }
    UsesAreResolved(r, r.actions, TableOf(out.data), m.actions);
    UsesAreResolved(r, r.events, TableOf(out.data), m.events);
  }

  lemma DeclResolvedIff(r: Registry, classOf: string -> Option<Class>, t: Table, d: Datum, out: Datum)
    requires ClassesOk(classOf)
    ensures ResolveDecl(r, classOf(d.typeName), t, d) == Returns(out) <==> DeclResolved(r, classOf, t, d, out)
  {
    if ResolveDecl(r, classOf(d.typeName), t, d) == Returns(out) {
      DeclIsResolved(r, classOf, t, d, out);
    }
    if DeclResolved(r, classOf, t, d, out) {
      var fields := classOf(d.typeName).value.fields;
      ResolveFieldsIsPointwise(r, t, d.attributes, fields);
      FieldsResolvedIsUnique(r, t, d.attributes, fields, out.attributes,
        ResolveFields(r, t, d.attributes, fields).value);
    }
  }

  ghost predicate UsesResolved(r: Registry, classOf: string -> Option<Class>, t: Table, uses: seq<Datum>,
                               out: seq<Datum>) {
    |out| == |uses| && forall k :: 0 <= k < |uses| ==> DeclResolved(r, classOf, t, uses[k], out[k])
  }

  lemma UsesResolvedIff(r: Registry, classOf: string -> Option<Class>, t: Table, uses: seq<Datum>, out: seq<Datum>)
    requires ClassesOk(classOf)
    ensures ResolveUses(r, classOf, t, uses) == Returns(out)
      <==> UsesResolved(r, classOf, t, uses, out)
  {
    ResolveUsesIsPointwise(r, classOf, t, uses);
    if ResolveUses(r, classOf, t, uses) == Returns(out) {
      forall k | 0 <= k < |uses| ensures DeclResolved(r, classOf, t, uses[k], out[k]) {
        DeclResolvedIff(r, classOf, t, uses[k], out[k]);
      }
    }
    if UsesResolved(r, classOf, t, uses, out) {
      forall k | 0 <= k < |uses| ensures ResolveDecl(r, classOf(uses[k].typeName), t, uses[k]) == Returns(out[k]) {
        DeclResolvedIff(r, classOf, t, uses[k], out[k]);
      }
      var value := ResolveUses(r, classOf, t, uses).value;
      forall k | 0 <= k < |uses| ensures value[k] == out[k] {
        assert ResolveDecl(r, classOf(uses[k].typeName), t, uses[k]) == Returns(value[k]);
      }
      assert value == out;
    }
  }

  ghost predicate DataResolved(r: Registry, ds: seq<Datum>, out: seq<Datum>) {
    |out| == |ds| && forall k :: 0 <= k < |ds| ==> DeclResolved(r, r.data, TableOf(Mixed(ds, out, k)), ds[k], out[k])
  }

  lemma DataResolvedIff(r: Registry, ds: seq<Datum>, out: seq<Datum>)
    requires RegistryOk(r) && DistinctIds(ds)
    ensures ResolveFrom(r, ds, 0) == Returns(out) <==> DataResolved(r, ds, out)
  {
    if ResolveFrom(r, ds, 0) == Returns(out) {
      PassSteps(r, ds, 0);
      forall k | 0 <= k < |ds| ensures DeclResolved(r, r.data, TableOf(Mixed(ds, out, k)), ds[k], out[k]) {
        assert StepOk(r, ds, out, k);
        DeclResolvedIff(r, r.data, TableOf(Mixed(ds, out, k)), ds[k], out[k]);
      }
    }
    if DataResolved(r, ds, out) {
      forall k | 0 <= k < |ds| ensures StepOk(r, ds, out, k) {
        DeclResolvedIff(r, r.data, TableOf(Mixed(ds, out, k)), ds[k], out[k]);
      }
      StepsPass(r, ds, out, 0);
      assert Mixed(ds, out, 0) == ds;
    }
  }

  /** Main result: the whole function succeeds with `out` if and only if `out` has the start
      and transitions of the mission and every declaration of it, resolved field by
      field: the data by those before them, actions and events by the final data. */
  lemma ResolveSymbolsIff(r: Registry, m: Mission, out: Mission)
    requires RegistryOk(r) && DistinctIds(m.data)
    ensures ResolveSymbols(r, m) == Returns(out)
      <==> && out.start == m.start && out.transitions == m.transitions
           && DataResolved(r, m.data, out.data)
           && UsesResolved(r, r.actions, TableOf(out.data), m.actions, out.actions)
           && UsesResolved(r, r.events, TableOf(out.data), m.events, out.events)
  {
    DataResolvedIff(r, m.data, out.data);
    UsesResolvedIff(r, r.actions, TableOf(out.data), m.actions, out.actions);
    UsesResolvedIff(r, r.events, TableOf(out.data), m.events, out.events);
  }

  /** Main result: resolving a resolved mission changes nothing. */
  lemma ResolvingAgainChangesNothing(r: Registry, m: Mission, out: Mission)
    requires RegistryOk(r) && DistinctIds(m.data) && ResolveSymbols(r, m) == Returns(out)
    ensures ResolveSymbols(r, out) == Returns(out)
  {
    SecondPassChangesNothing(r, m.data);
    UsesAreResolved(r, r.actions, TableOf(out.data), m.actions);
    UsesAreResolved(r, r.events, TableOf(out.data), m.events);
    PlainUses(r, r.actions, TableOf(out.data), out.actions);
    PlainUses(r, r.events, TableOf(out.data), out.events);
  }

  /** An id that names no datum stays as it is, whatever the type of its field. */
  lemma UnknownIdsStay(r: Registry, t: Table, id: string, typ: Type)
    requires id !in t
    ensures Resolve(r, t, Text(id), typ) == Returns(Text(id))
  {
    UnchangedIffPlain(r, t, Text(id), typ);
  }
}
