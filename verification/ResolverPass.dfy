/** What the in-place resolution pass achieves: when it yields the full recursive
    substitution, what it leaves alone, and that a second pass changes nothing. */
module ResolverPass {
  import opened Wrappers
  import opened Resolver
  import opened ResolverLaws

  // ----- the pass over the data -----

  ghost function Ids(ds: seq<Datum>): set<string> {
    set i | 0 <= i < |ds| :: ds[i].id
  }

  ghost predicate SameNames(ds: seq<Datum>, es: seq<Datum>) {
    |ds| == |es| && forall i :: 0 <= i < |ds| ==> ds[i].id == es[i].id && ds[i].typeName == es[i].typeName
  }

  lemma {:induction false} TableKeys(ds: seq<Datum>)
    ensures TableOf(ds).Keys == Ids(ds)
  {
    if ds != [] {
      var rest, last := ds[..|ds| - 1], ds[|ds| - 1];
      TableKeys(rest);
      assert forall i :: 0 <= i < |rest| ==> rest[i] == ds[i];
      assert Ids(ds) == Ids(rest) + {last.id};
    }
  }

  lemma {:induction false} TableAt(ds: seq<Datum>, i: nat)
    requires DistinctIds(ds) && i < |ds|
    ensures ds[i].id in TableOf(ds) && TableOf(ds)[ds[i].id] == ds[i]
  {
    if i < |ds| - 1 {
      TableAt(ds[..|ds| - 1], i);
      assert ds[i].id != ds[|ds| - 1].id;
    }
  }

  lemma SameNamesSameIds(ds: seq<Datum>, es: seq<Datum>)
    requires SameNames(ds, es)
    ensures Ids(ds) == Ids(es) && (DistinctIds(ds) ==> DistinctIds(es))
  {
    forall id | id in Ids(ds) ensures id in Ids(es) {
      var i :| 0 <= i < |ds| && ds[i].id == id;
      assert es[i].id == id;
    }
    forall id | id in Ids(es) ensures id in Ids(ds) {
      var i :| 0 <= i < |es| && es[i].id == id;
      assert ds[i].id == id;
    }
    if DistinctIds(ds) {
      forall i, j | 0 <= i < j < |es| ensures es[i].id != es[j].id {
        assert ds[i].id != ds[j].id;
      }
    }
  }

  lemma {:induction false} SameNamesSameShape(ds: seq<Datum>, es: seq<Datum>)
    requires SameNames(ds, es)
    ensures SameShape(TableOf(ds), TableOf(es))
  {
    if ds != [] {
      SameNamesSameShape(ds[..|ds| - 1], es[..|es| - 1]);
    }
  }

  /** The list half way through the pass: the first `k` data are resolved. */
  ghost function Mixed(ds: seq<Datum>, out: seq<Datum>, k: nat): seq<Datum>
    requires |out| == |ds| && k <= |ds|
  {
    out[..k] + ds[k..]
  }

  lemma MixedNames(ds: seq<Datum>, out: seq<Datum>, k: nat)
    requires DistinctIds(ds) && SameNames(ds, out) && k <= |ds|
    ensures SameNames(ds, Mixed(ds, out, k)) && DistinctIds(Mixed(ds, out, k))
  {
    SameNamesSameIds(ds, Mixed(ds, out, k));
  }

  /** Datum `k` is resolved against the data before it, resolved, and the rest as
      declared. */
  ghost predicate StepOk(r: Registry, ds: seq<Datum>, out: seq<Datum>, k: nat)
    requires |out| == |ds| && k < |ds|
  {
    ResolveDatum(r, TableOf(Mixed(ds, out, k)), ds[k]) == Returns(out[k])
  }

  lemma DeclKeepsNames(r: Registry, c: Option<Class>, t: Table, d: Datum)
    requires ResolveDecl(r, c, t, d).Returns?
    ensures ResolveDecl(r, c, t, d).value.id == d.id && ResolveDecl(r, c, t, d).value.typeName == d.typeName
  {}

  lemma UpdateKeepsNames(ds: seq<Datum>, i: nat, d: Datum)
    requires DistinctIds(ds) && i < |ds| && d.id == ds[i].id && d.typeName == ds[i].typeName
    ensures SameNames(ds, ds[i := d]) && DistinctIds(ds[i := d])
  {}

  /** A later step does not care whether datum `i` was already resolved when the
      pass started. */
  lemma LaterStepOk(r: Registry, ds: seq<Datum>, out: seq<Datum>, i: nat, k: nat)
    requires |out| == |ds| && i < k < |ds| && StepOk(r, ds[i := out[i]], out, k)
    ensures StepOk(r, ds, out, k)
  {
    assert Mixed(ds, out, k) == Mixed(ds[i := out[i]], out, k);
  }

  lemma {:induction false} PassSteps(r: Registry, ds: seq<Datum>, i: nat)
    requires DistinctIds(ds) && i <= |ds| && ResolveFrom(r, ds, i).Returns?
    ensures var out := ResolveFrom(r, ds, i).value;
            SameNames(ds, out) && out[..i] == ds[..i] && forall k :: i <= k < |ds| ==> StepOk(r, ds, out, k)
    decreases |ds| - i
  {
    if i < |ds| {
      var d := ResolveDatum(r, TableOf(ds), ds[i]).value;
      DeclKeepsNames(r, r.data(ds[i].typeName), TableOf(ds), ds[i]);
      UpdateKeepsNames(ds, i, d);
      PassSteps(r, ds[i := d], i + 1);
      var out := ResolveFrom(r, ds, i).value;
      FirstStep(r, ds, out, i, d);
      forall k | i <= k < |ds| ensures StepOk(r, ds, out, k) {
        if k > i {
          LaterStepOk(r, ds, out, i, k);
        }
      }
    }
  }

  /** And the other way round: data that satisfy every step are what the pass yields. */
  lemma {:induction false} StepsPass(r: Registry, ds: seq<Datum>, out: seq<Datum>, i: nat)
    requires |out| == |ds| && i <= |ds| && forall k :: i <= k < |ds| ==> StepOk(r, ds, out, k)
    ensures ResolveFrom(r, Mixed(ds, out, i), i) == Returns(out)
    decreases |ds| - i
  {
    var now := Mixed(ds, out, i);
    if i < |ds| {
      assert StepOk(r, ds, out, i) && now[i] == ds[i];
      assert now[i := out[i]] == Mixed(ds, out, i + 1);
      StepsPass(r, ds, out, i + 1);
    } else {
      assert now == out;
    }
  }

  lemma PrefixOfUpdate<T>(out: seq<T>, ds: seq<T>, i: nat, d: T)
    requires |out| == |ds| && i < |ds| && out[..i + 1] == ds[i := d][..i + 1]
    ensures out[i] == d && out[..i] == ds[..i] && out[..i] + ds[i..] == ds
  {
    assert out[..i + 1][i] == ds[i := d][..i + 1][i] == d;
    forall j | 0 <= j < i ensures out[j] == ds[j] {
      assert out[..i + 1][j] == ds[i := d][..i + 1][j];
    }
  }

  lemma FirstStep(r: Registry, ds: seq<Datum>, out: seq<Datum>, i: nat, d: Datum)
    requires DistinctIds(ds) && |out| == |ds| && i < |ds| && out[..i + 1] == ds[i := d][..i + 1]
    requires ResolveDatum(r, TableOf(ds), ds[i]) == Returns(d)
    ensures out[i] == d && out[..i] == ds[..i] && StepOk(r, ds, out, i)
  {
    PrefixOfUpdate(out, ds, i, d);
  }

  lemma MixedLookup(ds: seq<Datum>, out: seq<Datum>, k: nat, j: nat)
    requires DistinctIds(ds) && SameNames(ds, out) && k <= |ds| && j < |ds|
    ensures ds[j].id in TableOf(Mixed(ds, out, k)) && ds[j].id in TableOf(out)
    ensures TableOf(Mixed(ds, out, k))[ds[j].id] == if j < k then out[j] else ds[j]
    ensures TableOf(out)[ds[j].id] == out[j]
  {
    MixedNames(ds, out, k);
    SameNamesSameIds(ds, out);
    TableAt(Mixed(ds, out, k), j);
    TableAt(out, j);
    assert Mixed(ds, out, k)[j] == if j < k then out[j] else ds[j];
  }

  /** A reference that the pass resolves too early: to the datum itself or to one
      declared later. */
  ghost predicate EarlyReference(r: Registry, ds: seq<Datum>, i: nat, j: nat)
    requires i < |ds| && j < |ds|
  {
    i <= j && DatumRefers(r, Ids(ds), ds[i], ds[j].id)
  }

  /** What is referred to too early has nothing in it to replace. */
  ghost predicate EarlyDataPlain(r: Registry, ds: seq<Datum>) {
    forall i, j :: 0 <= i < |ds| && 0 <= j < |ds| && EarlyReference(r, ds, i, j) ==> DatumPlain(r, Ids(ds), ds[j])
  }

  ghost function FieldsOf(r: Registry, d: Datum): seq<Field>
    requires r.data(d.typeName).Some?
  {
    r.data(d.typeName).value.fields
  }

  /** What a datum refers to is the same in both tables. */
  ghost predicate SameWhereReferred(r: Registry, t: Table, u: Table, d: Datum) {
    forall id :: id in t && id in u && DatumRefers(r, t.Keys, d, id) ==> t[id].attributes == u[id].attributes
  }

  lemma DatumAgreesIff(r: Registry, t: Table, u: Table, d: Datum, d': Datum)
    requires RegistryOk(r) && SameShape(t, u) && ResolveDatum(r, t, d) == Returns(d')
    ensures ResolveDatum(r, u, d) == Returns(d') <==> SameWhereReferred(r, t, u, d)
  {
    FieldsAgreeIff(r, t, u, d.attributes, FieldsOf(r, d));
    forall id ensures DatumRefers(r, t.Keys, d, id) <==> FieldsRefer(r, t.Keys, d.attributes, FieldsOf(r, d), id) {}
  }

  lemma TableHas(ds: seq<Datum>, id: string) returns (j: nat)
    requires DistinctIds(ds) && id in TableOf(ds)
    ensures j < |ds| && ds[j].id == id && TableOf(ds)[id] == ds[j]
  {
    TableKeys(ds);
    j :| 0 <= j < |ds| && ds[j].id == id;
    TableAt(ds, j);
  }

  /** The data that datum `i` refers to too early were left as declared. */
  ghost predicate EarlyOnesUnchanged(r: Registry, ds: seq<Datum>, out: seq<Datum>, i: nat)
    requires |out| == |ds| && i < |ds|
  {
    forall j :: 0 <= j < |ds| && EarlyReference(r, ds, i, j) ==> out[j].attributes == ds[j].attributes
  }

  lemma MixedAgreesIff(r: Registry, ds: seq<Datum>, out: seq<Datum>, i: nat)
    requires DistinctIds(ds) && SameNames(ds, out) && i < |ds|
    ensures SameWhereReferred(r, TableOf(Mixed(ds, out, i)), TableOf(out), ds[i]) <==> EarlyOnesUnchanged(r, ds, out, i)
  {
    var mixed := Mixed(ds, out, i);
    var t, u := TableOf(mixed), TableOf(out);
    MixedNames(ds, out, i);
    TableKeys(mixed);
    SameNamesSameIds(ds, mixed);
    if EarlyOnesUnchanged(r, ds, out, i) {
      forall id | id in t && id in u && DatumRefers(r, t.Keys, ds[i], id) ensures t[id].attributes == u[id].attributes {
        var j := TableHas(mixed, id);
        MixedLookup(ds, out, i, j);
        assert i <= j ==> EarlyReference(r, ds, i, j);
      }
    }
    if SameWhereReferred(r, t, u, ds[i]) {
      forall j | 0 <= j < |ds| && EarlyReference(r, ds, i, j) ensures out[j].attributes == ds[j].attributes {
        MixedLookup(ds, out, i, j);
      }
    }
  }

  /** For one datum: what the pass made of it is the substitution by the final data
      exactly when the data it referred to too early were left as declared. */
  lemma StepIsFullIff(r: Registry, ds: seq<Datum>, out: seq<Datum>, i: nat)
    requires RegistryOk(r) && DistinctIds(ds) && SameNames(ds, out) && i < |ds| && StepOk(r, ds, out, i)
    ensures ResolveDatum(r, TableOf(out), ds[i]) == Returns(out[i]) <==> EarlyOnesUnchanged(r, ds, out, i)
  {
    MixedNames(ds, out, i);
    SameNamesSameShape(Mixed(ds, out, i), out);
    DatumAgreesIff(r, TableOf(Mixed(ds, out, i)), TableOf(out), ds[i], out[i]);
    MixedAgreesIff(r, ds, out, i);
  }

  /** The pass leaves a datum as declared exactly when there is nothing in it to replace. */
  lemma StepUnchangedIffPlain(r: Registry, ds: seq<Datum>, out: seq<Datum>, j: nat)
    requires RegistryOk(r) && DistinctIds(ds) && SameNames(ds, out) && j < |ds| && StepOk(r, ds, out, j)
    ensures out[j].attributes == ds[j].attributes <==> DatumPlain(r, Ids(ds), ds[j])
    ensures DatumPlain(r, Ids(ds), out[j]) && r.data(out[j].typeName).Some?
  {
    MixedNames(ds, out, j);
    SameNamesSameIds(ds, Mixed(ds, out, j));
    TableKeys(Mixed(ds, out, j));
    var t := TableOf(Mixed(ds, out, j));
    FieldsUnchangedIffPlain(r, t, ds[j].attributes, r.data(ds[j].typeName).value.fields);
    ResolvedFieldsArePlain(r, t, ds[j].attributes, r.data(ds[j].typeName).value.fields);
  }

  /** For any constructors: a successful pass is the full recursive substitution if and only
      if every reference to a datum not declared before goes to one in which there
      is nothing to replace. */
  lemma PassIsFullSubstitutionIff(r: Registry, ds: seq<Datum>)
    requires RegistryOk(r) && DistinctIds(ds) && ResolveFrom(r, ds, 0).Returns?
    ensures IsFullSubstitution(r, ds, ResolveFrom(r, ds, 0).value)
      <==> EarlyDataPlain(r, ds)
  {
    var out := ResolveFrom(r, ds, 0).value;
    PassSteps(r, ds, 0);
    SameNamesSameIds(ds, out);
    forall i | 0 <= i < |ds|
      ensures ResolveDatum(r, TableOf(out), ds[i]) == Returns(out[i]) <==> EarlyOnesUnchanged(r, ds, out, i)
    {
      assert StepOk(r, ds, out, i);
      StepIsFullIff(r, ds, out, i);
    }
    forall j | 0 <= j < |ds| ensures out[j].attributes == ds[j].attributes <==> DatumPlain(r, Ids(ds), ds[j]) {
      assert StepOk(r, ds, out, j);
      StepUnchangedIffPlain(r, ds, out, j);
    }
  }

  /** The order the source asks for: references only to data declared before. */
  ghost predicate RefersBackwards(r: Registry, ds: seq<Datum>) {
    forall i, j :: 0 <= i < |ds| && 0 <= j < |ds| ==> !EarlyReference(r, ds, i, j)
  }

  /** Main result: with references only to earlier data, a successful pass is the
      full recursive substitution. */
  lemma PassIsFullSubstitution(r: Registry, ds: seq<Datum>)
    requires RegistryOk(r) && DistinctIds(ds) && ResolveFrom(r, ds, 0).Returns? && RefersBackwards(r, ds)
    ensures IsFullSubstitution(r, ds, ResolveFrom(r, ds, 0).value)
  {
    PassIsFullSubstitutionIff(r, ds);
  }

  /** A datum with nothing to replace is its own substitution. */
  lemma PlainIsItself(r: Registry, ds: seq<Datum>, full: seq<Datum>, j: nat)
    requires RegistryOk(r) && IsFullSubstitution(r, ds, full) && j < |ds| && DatumPlain(r, Ids(ds), ds[j])
    ensures full[j].attributes == ds[j].attributes
  {
    SameNamesSameIds(ds, full);
    TableKeys(full);
    assert ResolveDatum(r, TableOf(full), ds[j]) == Returns(full[j]);
    FieldsUnchangedIffPlain(r, TableOf(full), ds[j].attributes, FieldsOf(r, ds[j]));
  }

  lemma SamePrefixAgrees(r: Registry, ds: seq<Datum>, full: seq<Datum>, full': seq<Datum>, i: nat)
    requires RegistryOk(r) && DistinctIds(ds) && EarlyDataPlain(r, ds) && i < |ds|
    requires IsFullSubstitution(r, ds, full) && IsFullSubstitution(r, ds, full') && full[..i] == full'[..i]
    ensures SameWhereReferred(r, TableOf(full), TableOf(full'), ds[i])
  {
    SameNamesSameIds(ds, full);
    SameNamesSameIds(ds, full');
    TableKeys(full);
    var t, u := TableOf(full), TableOf(full');
    forall id | id in t && id in u && DatumRefers(r, t.Keys, ds[i], id) ensures t[id].attributes == u[id].attributes {
      var j := TableHas(full, id);
      TableAt(full', j);
      if i <= j {
        assert EarlyReference(r, ds, i, j);
        PlainIsItself(r, ds, full, j);
        PlainIsItself(r, ds, full', j);
      } else {
        assert full[..i][j] == full'[..i][j];
      }
    }
  }

  lemma {:induction false} FullPrefixIsUnique(r: Registry, ds: seq<Datum>, full: seq<Datum>, full': seq<Datum>, k: nat)
    requires RegistryOk(r) && DistinctIds(ds) && EarlyDataPlain(r, ds)
    requires IsFullSubstitution(r, ds, full) && IsFullSubstitution(r, ds, full') && k <= |ds|
    ensures full[..k] == full'[..k]
  {
    if k > 0 {
      var i := k - 1;
      FullPrefixIsUnique(r, ds, full, full', i);
      SamePrefixAgrees(r, ds, full, full', i);
      SameNamesSameShape(full, full');
      assert ResolveDatum(r, TableOf(full), ds[i]) == Returns(full[i]);
      DatumAgreesIff(r, TableOf(full), TableOf(full'), ds[i], full[i]);
      assert ResolveDatum(r, TableOf(full'), ds[i]) == Returns(full'[i]);
      assert full[..k] == full[..i] + [full[i]] && full'[..k] == full'[..i] + [full'[i]];
    }
  }

  /** There is only one full recursive substitution, under the very condition that makes
      the pass one. */
  lemma FullSubstitutionIsUnique(r: Registry, ds: seq<Datum>, full: seq<Datum>, full': seq<Datum>)
    requires RegistryOk(r) && DistinctIds(ds) && EarlyDataPlain(r, ds)
    requires IsFullSubstitution(r, ds, full) && IsFullSubstitution(r, ds, full')
    ensures full == full'
  {
    FullPrefixIsUnique(r, ds, full, full', |ds|);
    assert full[..|ds|] == full && full'[..|ds|] == full';
  }

  // ----- constructors that reject what is not resolved -----

  /** The datatypes of the mission language forbid unknown keys and have typed fields:
      a field for an instance takes neither an id nor an inline value. */
  ghost predicate Strict(r: Registry, ids: set<string>) {
    forall typeName, kwargs ::
      r.data(typeName).Some? && r.accepts(r.data(typeName).value.name, kwargs) ==>
        FieldsPlain(r, ids, kwargs, r.data(typeName).value.fields)
  }

  ghost predicate Accepted(r: Registry, t: Table, id: string) {
    id in t && r.data(t[id].typeName).Some? && r.accepts(r.data(t[id].typeName).value.name, t[id].attributes)
  }

  /** What a value that resolves refers to was built, from its attributes of that time. */
  lemma {:induction false} RefsAreAccepted(r: Registry, t: Table, value: Value, typ: Type, id: string)
    requires Resolve(r, t, value, typ).Returns? && id in Refs(r, t.Keys, value, typ)
    ensures Accepted(r, t, id)
    decreases value, 1
  {
    if value.Inline? {
      RefsAllAreAccepted(r, t, value.args, TypesOf(r.data(value.typeName).value.fields), id);
    } else if Unwrap(typ).ListType? && value.List? {
      RefsAllAreAccepted(r, t, value.items, Repeat(Unwrap(typ).inner, |value.items|), id);
    }
  }

  lemma {:induction false} RefsAllAreAccepted(r: Registry, t: Table, values: seq<Value>, types: seq<Type>, id: string)
    requires ResolveAll(r, t, values, types).Returns? && id in RefsAll(r, t.Keys, values, types)
    ensures Accepted(r, t, id)
    decreases values, 0
  {
    if id in Refs(r, t.Keys, values[0], types[0]) {
      RefsAreAccepted(r, t, values[0], types[0], id);
    } else {
      RefsAllAreAccepted(r, t, values[1..], types[1..], id);
    }
  }

  lemma DatumRefsAreAccepted(r: Registry, t: Table, d: Datum, id: string)
    requires RegistryOk(r) && ResolveDatum(r, t, d).Returns? && DatumRefers(r, t.Keys, d, id)
    ensures Accepted(r, t, id)
  {
    ResolveFieldsIsPointwise(r, t, d.attributes, FieldsOf(r, d));
    var f :| f in FieldsOf(r, d) && f.name in d.attributes && id in Refs(r, t.Keys, d.attributes[f.name], f.typ);
    RefsAreAccepted(r, t, d.attributes[f.name], f.typ, id);
  }

  /** With strict constructors a step succeeds only if what it refers to too early has
      nothing in it to replace. */
  lemma EarlyOnesArePlain(r: Registry, ds: seq<Datum>, out: seq<Datum>, i: nat, j: nat)
    requires RegistryOk(r) && Strict(r, Ids(ds)) && DistinctIds(ds) && SameNames(ds, out)
    requires i < |ds| && j < |ds| && StepOk(r, ds, out, i) && EarlyReference(r, ds, i, j)
    ensures DatumPlain(r, Ids(ds), ds[j])
  {
    var mixed := Mixed(ds, out, i);
    MixedNames(ds, out, i);
    SameNamesSameIds(ds, mixed);
    TableKeys(mixed);
    MixedLookup(ds, out, i, j);
    DatumRefsAreAccepted(r, TableOf(mixed), ds[i], ds[j].id);
  }

  /** Main result: with strict constructors every pass that succeeds is the full
      recursive substitution, and there is no other, whatever the order of the
      declarations. A reference that comes too early and matters ends the pass with an
      exception. */
  lemma StrictPassIsFullSubstitution(r: Registry, ds: seq<Datum>)
    requires RegistryOk(r) && DistinctIds(ds) && Strict(r, Ids(ds)) && ResolveFrom(r, ds, 0).Returns?
    ensures forall full :: IsFullSubstitution(r, ds, full) <==> full == ResolveFrom(r, ds, 0).value
    ensures EarlyDataPlain(r, ds)
  {
    var out := ResolveFrom(r, ds, 0).value;
    PassSteps(r, ds, 0);
    forall i, j | 0 <= i < |ds| && 0 <= j < |ds| && EarlyReference(r, ds, i, j) ensures DatumPlain(r, Ids(ds), ds[j]) {
      assert StepOk(r, ds, out, i);
      EarlyOnesArePlain(r, ds, out, i, j);
    }
    PassIsFullSubstitutionIff(r, ds);
    forall full | IsFullSubstitution(r, ds, full) ensures full == out {
      FullSubstitutionIsUnique(r, ds, full, out);
    }
  }
}
