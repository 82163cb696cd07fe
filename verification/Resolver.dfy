/** Replacing ids in attributes by instances of the data they name, and building
    the inline data. Classes come from a registry; their constructors are partial. */
module Resolver {
  import opened Wrappers

  /** An attribute value. An instance is known by its class and what it was built from. */
  datatype Value =
    | Null
    | Number(n: real)
    | Text(s: string)
    | List(items: seq<Value>)
    | Inline(typeName: string, args: seq<Value>)
    | Instance(className: string, kwargs: Attributes)

  type Attributes = map<string, Value>

  /** The field types the resolver tells apart. */
  datatype Type =
    | NoneType
    | Annotated(base: Type)
    | Union(options: seq<Type>)
    | ModelType(name: string)
    | ListType(inner: Type)
    | OtherType(name: string)

  datatype Field = Field(name: string, typ: Type)
  datatype Class = Class(name: string, fields: seq<Field>)

  datatype Registry = Registry(
    data: string -> Option<Class>,
    actions: string -> Option<Class>,
    events: string -> Option<Class>,
    accepts: (string, Attributes) -> bool)

  datatype Datum = Datum(id: string, typeName: string, attributes: Attributes)

  type Table = map<string, Datum>

  ghost predicate DistinctFields(fields: seq<Field>) {
    forall i, j :: 0 <= i < j < |fields| ==> fields[i].name != fields[j].name
  }

  /** Field names of a class are the keys of a dictionary. */
  ghost predicate RegistryOk(r: Registry) {
    && (forall t :: r.data(t).Some? ==> DistinctFields(r.data(t).value.fields))
    && (forall t :: r.actions(t).Some? ==> DistinctFields(r.actions(t).value.fields))
    && (forall t :: r.events(t).Some? ==> DistinctFields(r.events(t).value.fields))
  }

  // ----- types -----

  function NonNone(options: seq<Type>): (r: seq<Type>)
    ensures forall t :: t in r ==> t in options && t != NoneType
  {
    if options == [] then []
    else (if options[0] == NoneType then [] else [options[0]]) + NonNone(options[1..])
  }

  /** `_unwrap_type`: see through annotations and optional types. */
  function Unwrap(t: Type): Type {
    match t
    case Annotated(base) => Unwrap(base)
    case Union(options) =>
      var nonNone := NonNone(options);
      if |nonNone| == 1 then
        assert nonNone[0] in options;
        Unwrap(nonNone[0])
      else t
    case _ => t
  }

  /** Unwrapping is done once: what it leaves is no annotation and no optional type. */
  lemma {:induction false} UnwrapIsFinal(t: Type)
    ensures Unwrap(Unwrap(t)) == Unwrap(t)
    ensures !Unwrap(t).Annotated?
    ensures Unwrap(t).Union? ==> |NonNone(Unwrap(t).options)| != 1
  {
    match t
    case Annotated(base) => UnwrapIsFinal(base);
    case Union(options) =>
      if |NonNone(options)| == 1 {
        assert NonNone(options)[0] in options;
        UnwrapIsFinal(NonNone(options)[0]);
      }
    case _ =>
  }

  // ----- values -----

  function Construct(r: Registry, c: Class, kwargs: Attributes): Outcome<Value> {
    if r.accepts(c.name, kwargs) then Returns(Instance(c.name, kwargs)) else Raises
  }

  function Kwargs(fields: seq<Field>, values: seq<Value>): Attributes
    requires |values| <= |fields|
  {
    if values == [] then map[]
    else Kwargs(fields, values[..|values| - 1])[fields[|values| - 1].name := values[|values| - 1]]
  }

  function Min(a: nat, b: nat): nat { if a <= b then a else b }

  function TypesOf(fields: seq<Field>): (ts: seq<Type>)
    ensures |ts| == |fields|
  {
    seq(|fields|, i requires 0 <= i < |fields| => fields[i].typ)
  }

  function Repeat(t: Type, n: nat): (ts: seq<Type>)
    ensures |ts| == n
  {
    seq(n, _ => t)
  }

  /** `_resolve_value_for_field` */
  function Resolve(r: Registry, data: Table, value: Value, typ: Type): Outcome<Value>
    decreases value, 1
  {
    if value.Null? then Returns(Null)
    else if value.Inline? then
      var c := r.data(value.typeName);
      if c.None? then Raises
      else
        var values := ResolveAll(r, data, value.args, TypesOf(c.value.fields));
        if values.Raises? then Raises else Construct(r, c.value, Kwargs(c.value.fields, values.value))
    else
      var core := Unwrap(typ);
      if core.ModelType? then
        if value.Text? && value.s in data then
          var c := r.data(data[value.s].typeName);
          if c.None? then Raises else Construct(r, c.value, data[value.s].attributes)
        else Returns(value)
      else if core.ListType? && value.List? then
        var values := ResolveAll(r, data, value.items, Repeat(core.inner, |value.items|));
        if values.Raises? then Raises else Returns(List(values.value))
      else Returns(value)
  }

  /** Resolve values and types pairwise; what has no partner is left out. */
  function ResolveAll(r: Registry, data: Table, values: seq<Value>, types: seq<Type>): (out: Outcome<seq<Value>>)
    ensures out.Returns? ==> |out.value| == Min(|values|, |types|)
    decreases values, 0
  {
    if values == [] || types == [] then Returns([])
    else
      var first := Resolve(r, data, values[0], types[0]);
      if first.Raises? then Raises
      else
        var rest := ResolveAll(r, data, values[1..], types[1..]);
        if rest.Raises? then Raises else Returns([first.value] + rest.value)
  }

  /** The attributes of one declaration: every field of its class that is present. */
  function ResolveFields(r: Registry, data: Table, attributes: Attributes, fields: seq<Field>): Outcome<Attributes> {
    if fields == [] then Returns(attributes)
    else
      var f := fields[|fields| - 1];
      var before := ResolveFields(r, data, attributes, fields[..|fields| - 1]);
      if before.Raises? then Raises
      else if f.name !in before.value then before
      else
        var v := Resolve(r, data, before.value[f.name], f.typ);
        if v.Raises? then Raises else Returns(before.value[f.name := v.value])
  }

  // ----- the pass over the data, in declaration order -----

  predicate DistinctIds(ds: seq<Datum>) {
    forall i, j :: 0 <= i < j < |ds| ==> ds[i].id != ds[j].id
  }

  /** The declarations by id. */
  function TableOf(ds: seq<Datum>): Table {
    if ds == [] then map[] else TableOf(ds[..|ds| - 1])[ds[|ds| - 1].id := ds[|ds| - 1]]
  }

  /** One declaration, its class given by the registry for its kind. */
  function ResolveDecl(r: Registry, c: Option<Class>, data: Table, d: Datum): Outcome<Datum> {
    if c.None? then Raises
    else
      var attributes := ResolveFields(r, data, d.attributes, c.value.fields);
      if attributes.Raises? then Raises else Returns(d.(attributes := attributes.value))
  }

  function ResolveDatum(r: Registry, data: Table, d: Datum): Outcome<Datum> {
    ResolveDecl(r, r.data(d.typeName), data, d)
  }

  /** Resolve data `i`, `i + 1`, … in turn; each sees the ones before it resolved. */
  function ResolveFrom(r: Registry, ds: seq<Datum>, i: nat): Outcome<seq<Datum>>
    requires i <= |ds|
    decreases |ds| - i
  {
    if i == |ds| then Returns(ds)
    else
      var d := ResolveDatum(r, TableOf(ds), ds[i]);
      if d.Raises? then Raises else ResolveFrom(r, ds[i := d.value], i + 1)
  }

  // ----- what the pass is for -----

  /** `full` is the full recursive substitution of `ds`: each of its data is the
      original one with every reference replaced by an instance built from `full`. */
  ghost predicate IsFullSubstitution(r: Registry, ds: seq<Datum>, full: seq<Datum>) {
    && |full| == |ds|
    && (forall i :: 0 <= i < |ds| ==> full[i].id == ds[i].id && full[i].typeName == ds[i].typeName)
    && forall i :: 0 <= i < |ds| ==> ResolveDatum(r, TableOf(full), ds[i]) == Returns(full[i])
  }

  /** The ids a value refers to where a field of type `typ` is resolved. */
  ghost function Refs(r: Registry, ids: set<string>, value: Value, typ: Type): set<string>
    decreases value, 1
  {
    if value.Inline? then
      var c := r.data(value.typeName);
      if c.None? then {} else RefsAll(r, ids, value.args, TypesOf(c.value.fields))
    else
      var core := Unwrap(typ);
      if core.ModelType? then (if value.Text? && value.s in ids then {value.s} else {})
      else if core.ListType? && value.List? then RefsAll(r, ids, value.items, Repeat(core.inner, |value.items|))
      else {}
  }

  ghost function RefsAll(r: Registry, ids: set<string>, values: seq<Value>, types: seq<Type>): set<string>
    decreases values, 0
  {
    if values == []
      || types == [] then {} else Refs(r, ids, values[0], types[0]) + RefsAll(r, ids, values[1..], types[1..])
  }

  /** Nothing in the value is there to be replaced. */
  ghost predicate Plain(r: Registry, ids: set<string>, value: Value, typ: Type)
    decreases value, 1
  {
    if value.Inline? then false
    else
      var core := Unwrap(typ);
      if core.ModelType? then !(value.Text? && value.s in ids)
      else if core.ListType? && value.List? then PlainAll(r, ids, value.items, Repeat(core.inner, |value.items|))
      else true
  }

  ghost predicate PlainAll(r: Registry, ids: set<string>, values: seq<Value>, types: seq<Type>)
    decreases values, 0
  {
    values == [] || types == [] || (Plain(r, ids, values[0], types[0]) && PlainAll(r, ids, values[1..], types[1..]))
  }

  /** Some field that is present refers to `id`. */
  ghost predicate FieldsRefer(r: Registry, ids: set<string>, attributes: Attributes, fields: seq<Field>, id: string) {
    exists f :: f in fields && f.name in attributes && id in Refs(r, ids, attributes[f.name], f.typ)
  }

  ghost predicate FieldsPlain(r: Registry, ids: set<string>, attributes: Attributes, fields: seq<Field>) {
    forall f :: f in fields && f.name in attributes ==> Plain(r, ids, attributes[f.name], f.typ)
  }

  ghost predicate DatumRefers(r: Registry, ids: set<string>, d: Datum, id: string) {
    r.data(d.typeName).Some? && FieldsRefer(r, ids, d.attributes, r.data(d.typeName).value.fields, id)
  }

  ghost predicate DatumPlain(r: Registry, ids: set<string>, d: Datum) {
    r.data(d.typeName).Some? ==> FieldsPlain(r, ids, d.attributes, r.data(d.typeName).value.fields)
  }

  // ----- the whole mission -----

  /** Actions and events have the same shape as data. */
  datatype Mission = Mission(data: seq<Datum>, actions: seq<Datum>, events: seq<Datum>, start: string,
                             transitions: map<string, map<string, string>>)

  function ResolveUses(r: Registry, classOf: string -> Option<Class>, data: Table,
                       uses: seq<Datum>): Outcome<seq<Datum>> {
    if uses == [] then Returns([])
    else
      var before := ResolveUses(r, classOf, data, uses[..|uses| - 1]);
      if before.Raises? then Raises
      else
        var last := ResolveDecl(r, classOf(uses[|uses| - 1].typeName), data, uses[|uses| - 1]);
        if last.Raises? then Raises else Returns(before.value + [last.value])
  }

  /** `resolve_symbols`: first the data, then the actions and events by the resolved data. */
  function ResolveSymbols(r: Registry, m: Mission): Outcome<Mission> {
    var data := ResolveFrom(r, m.data, 0);
    if data.Raises? then Raises
    else
      var actions := ResolveUses(r, r.actions, TableOf(data.value), m.actions);
      if actions.Raises? then Raises
      else
        var events := ResolveUses(r, r.events, TableOf(data.value), m.events);
        if events.Raises? then Raises
        else Returns(m.(data := data.value, actions := actions.value, events := events.value))
  }
}
