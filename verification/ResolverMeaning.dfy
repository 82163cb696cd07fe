/** What a value becomes, type by type: through annotations and optional types, at a
    model, in a list, as an inline literal, and anywhere else. */
module ResolverMeaning {
  import opened Wrappers
  import opened Resolver
  import opened ResolverLaws

  // ----- annotations and unions -----

  /** Option `k` is the only one that is not None. */
  ghost predicate OnlyOption(options: seq<Type>, k: nat) {
    k < |options| && options[k] != NoneType && forall j :: 0 <= j < |options| && j != k ==> options[j] == NoneType
  }

  lemma {:induction false} AllNone(options: seq<Type>)
    requires forall j :: 0 <= j < |options| ==> options[j] == NoneType
    ensures NonNone(options) == []
  {
    if options != [] {
      AllNone(options[1..]);
    }
  }

  lemma {:induction false} OnlyOptionIsLeft(options: seq<Type>, k: nat)
    requires OnlyOption(options, k)
    ensures NonNone(options) == [options[k]]
  {
    if k == 0 {
      AllNone(options[1..]);
      assert [options[0]] + [] == [options[0]];
    } else {
      OnlyOptionIsLeft(options[1..], k - 1);
    }
  }

  lemma {:induction false} SomeOptionIsLeft(options: seq<Type>, j: nat)
    requires j < |options| && options[j] != NoneType
    ensures options[j] in NonNone(options)
  {
    if j > 0 {
      SomeOptionIsLeft(options[1..], j - 1);
    }
  }

  lemma {:induction false} OneLeftIsTheOnlyOption(options: seq<Type>) returns (k: nat)
    requires |NonNone(options)| == 1
    ensures OnlyOption(options, k)
  {
    if options[0] == NoneType {
      k := OneLeftIsTheOnlyOption(options[1..]);
      k := k + 1;
    } else {
      k := 0;
      forall j | 1 <= j < |options| ensures options[j] == NoneType {
        if options[j] != NoneType {
          SomeOptionIsLeft(options[1..], j - 1);
        }
      }
    }
  }

  /** Main result: an annotated type and an optional type resolve a value just as the type
      inside does. */
  lemma SeesThrough(r: Registry, data: Table, value: Value, t: Type)
    ensures Resolve(r, data, value, Annotated(t)) == Resolve(r, data, value, t)
    ensures forall options, k: nat :: OnlyOption(options, k) && options[k] == t ==>
              Resolve(r, data, value, Union(options)) == Resolve(r, data, value, t)
  {
    forall options, k: nat | OnlyOption(options, k) && options[k] == t
      ensures Resolve(r, data, value, Union(options)) == Resolve(r, data, value, t)
    {
      OnlyOptionIsLeft(options, k);
      assert Unwrap(Union(options)) == Unwrap(t);
    }
  }

  // ----- the cases -----

  /** What an id becomes: an instance of its datum, with the datum's class and attributes. */
  ghost function InstanceOf(r: Registry, data: Table, id: string): Outcome<Value> {
    if id !in data then Returns(Text(id))
    else
      match r.data(data[id].typeName)
      case None => Raises
      case Some(c) =>
        if r.accepts(c.name, data[id].attributes) then Returns(Instance(c.name, data[id].attributes)) else Raises
  }

  /** Main result: an id at a field for a model, also an optional or annotated one, becomes
      an instance of the class of the datum it names with the datum's attributes; an
      unknown id stays a string. */
  lemma IdBecomesInstance(r: Registry, data: Table, id: string, model: string)
    ensures Resolve(r, data, Text(id), ModelType(model)) == InstanceOf(r, data, id)
    ensures Resolve(r, data, Text(id), Annotated(ModelType(model))) == InstanceOf(r, data, id)
    ensures forall options, k: nat :: OnlyOption(options, k) && options[k] == ModelType(model) ==>
              Resolve(r, data, Text(id), Union(options)) == InstanceOf(r, data, id)
  {
    SeesThrough(r, data, Text(id), ModelType(model));
  }

  lemma {:induction false} ResolveAllAt(r: Registry, data: Table, values: seq<Value>, types: seq<Type>, i: nat)
    requires ResolveAll(r, data, values, types).Returns? && i < |values| && i < |types|
    ensures Resolve(r, data, values[i], types[i]) == Returns(ResolveAll(r, data, values, types).value[i])
  {
    if i > 0 {
      ResolveAllAt(r, data, values[1..], types[1..], i - 1);
    }
  }

  lemma {:induction false} ResolveAllReturns(r: Registry, data: Table, values: seq<Value>, types: seq<Type>)
    requires forall i :: 0 <= i < |values| && i < |types| ==> Resolve(r, data, values[i], types[i]).Returns?
    ensures ResolveAll(r, data, values, types).Returns?
  {
    if values != [] && types != [] {
      assert Resolve(r, data, values[0], types[0]).Returns?;
      forall i | 0 <= i < |values[1..]| && i < |types[1..]|
        ensures Resolve(r, data, values[1..][i], types[1..][i]).Returns?
      {
        assert Resolve(r, data, values[i + 1], types[i + 1]).Returns?;
      }
      ResolveAllReturns(r, data, values[1..], types[1..]);
    }
  }

  /** A list at a list type is resolved item by item, and raises exactly if an item does. */
  lemma ListIsPointwise(r: Registry, data: Table, items: seq<Value>, inner: Type)
    ensures var out := Resolve(r, data, List(items), ListType(inner));
            && (out.Returns? <==> forall i :: 0 <= i < |items| ==> Resolve(r, data, items[i], inner).Returns?)
            && (out.Returns? ==>
                  && out.value.List? && |out.value.items| == |items|
                  && forall i :: 0 <= i < |items| ==>
                       Resolve(r, data, items[i], inner) == Returns(out.value.items[i]))
  {
    var types := Repeat(inner, |items|);
    if ResolveAll(r, data, items, types).Returns? {
      forall i | 0 <= i < |items|
        ensures Resolve(r, data, items[i], inner) == Returns(ResolveAll(r, data, items, types).value[i])
      {
        ResolveAllAt(r, data, items, types, i);
      }
    }
    if forall i :: 0 <= i < |items| ==> Resolve(r, data, items[i], inner).Returns? {
      ResolveAllReturns(r, data, items, types);
    }
  }

  lemma {:induction false} KwargsOnly(fields: seq<Field>, values: seq<Value>, name: string)
    requires |values| <= |fields| && name in Kwargs(fields, values)
    ensures exists i :: 0 <= i < |values| && fields[i].name == name
  {
    if fields[|values| - 1].name != name {
      KwargsOnly(fields, values[..|values| - 1], name);
    }
  }

  /** `kwargs` gives the fields that have an argument, by position, the resolved one. */
  ghost predicate ArgumentsOf(r: Registry, data: Table, args: seq<Value>, fields: seq<Field>, kwargs: Attributes) {
    && (forall i :: 0 <= i < |args| && i < |fields| ==>
          fields[i].name in kwargs && Resolve(r, data, args[i], fields[i].typ) == Returns(kwargs[fields[i].name]))
    && (forall name :: name in kwargs ==> exists i :: 0 <= i < |args| && i < |fields| && fields[i].name == name)
  }

  /** Main result: an inline literal, wherever it stands, becomes an instance of its class
      whose fields have, by position, its resolved arguments. */
  lemma InlineBecomesInstance(r: Registry, data: Table, typeName: string, args: seq<Value>, typ: Type)
    requires RegistryOk(r)
    ensures var out, c := Resolve(r, data, Inline(typeName, args), typ), r.data(typeName);
            && (out.Returns? ==>
                  && c.Some? && out.value.Instance? && out.value.className == c.value.name
                  && r.accepts(c.value.name, out.value.kwargs)
                  && ArgumentsOf(r, data, args, c.value.fields, out.value.kwargs))
            && (c.Some? ==> forall kwargs ::
                  ArgumentsOf(r, data, args, c.value.fields, kwargs) && r.accepts(c.value.name, kwargs) ==>
                    out == Returns(Instance(c.value.name, kwargs)))
  {
    var c := r.data(typeName);
    if c.Some? {
      var fields := c.value.fields;
      if ResolveAll(r, data, args, TypesOf(fields)).Returns? {
        ArgumentsGiven(r, data, args, fields);
      }
      forall kwargs | ArgumentsOf(r, data, args, fields, kwargs) && r.accepts(c.value.name, kwargs)
        ensures Resolve(r, data, Inline(typeName, args), typ) == Returns(Instance(c.value.name, kwargs))
      {
        ArgumentsSucceed(r, data, args, fields, kwargs);
        ArgumentsGiven(r, data, args, fields);
        ArgumentsAreUnique(r, data, args, fields, kwargs,
          Kwargs(fields, ResolveAll(r, data, args, TypesOf(fields)).value));
      }
    }
  }

  lemma ArgumentsGiven(r: Registry, data: Table, args: seq<Value>, fields: seq<Field>)
    requires DistinctFields(fields) && ResolveAll(r, data, args, TypesOf(fields)).Returns?
    ensures ArgumentsOf(r, data, args, fields, Kwargs(fields, ResolveAll(r, data, args, TypesOf(fields)).value))
  {
    var values := ResolveAll(r, data, args, TypesOf(fields)).value;
    var kwargs := Kwargs(fields, values);
    forall i | 0 <= i < |args| && i < |fields|
      ensures fields[i].name in kwargs && Resolve(r, data, args[i], fields[i].typ) == Returns(kwargs[fields[i].name])
    {
      ResolveAllAt(r, data, args, TypesOf(fields), i);
      KwargsHas(fields, values, i);
    }
    forall name | name in kwargs ensures exists i :: 0 <= i < |args| && i < |fields| && fields[i].name == name {
      KwargsOnly(fields, values, name);
    }
  }

  lemma ArgumentsSucceed(r: Registry, data: Table, args: seq<Value>, fields: seq<Field>, kwargs: Attributes)
    requires ArgumentsOf(r, data, args, fields, kwargs)
    ensures ResolveAll(r, data, args, TypesOf(fields)).Returns?
  {
    forall i | 0 <= i < |args| && i < |fields| ensures Resolve(r, data, args[i], TypesOf(fields)[i]).Returns? {
      assert fields[i].name in kwargs;
    }
    ResolveAllReturns(r, data, args, TypesOf(fields));
  }

  lemma ArgumentsAreUnique(r: Registry, data: Table, args: seq<Value>, fields: seq<Field>, kwargs: Attributes,
                           kwargs': Attributes)
    requires ArgumentsOf(r, data, args, fields, kwargs) && ArgumentsOf(r, data, args, fields, kwargs')
    ensures kwargs == kwargs'
  {
    forall name ensures name in kwargs <==> name in kwargs' {
      if name in kwargs {
        var i :| 0 <= i < |args| && i < |fields| && fields[i].name == name;
      }
      if name in kwargs' {
        var i :| 0 <= i < |args| && i < |fields| && fields[i].name == name;
      }
    }
    forall name | name in kwargs ensures kwargs[name] == kwargs'[name] {
      var i :| 0 <= i < |args| && i < |fields| && fields[i].name == name;
    }
  }

  /** The types at which a value that is no literal can change: what is left of them is a
      model, for an id, or a list, for a list. */
  ghost predicate Replaces(value: Value, core: Type) {
    (core.ModelType? && value.Text?) || (core.ListType? && value.List?)
  }

  /** Everything else is passed through: None anywhere, values at types the resolver does
      not tell apart, and unions with no or with several options besides None. */
  lemma OthersPassThrough(r: Registry, data: Table, value: Value, typ: Type)
    requires !value.Inline?
    ensures value.Null? || typ.NoneType? || typ.OtherType? ==> Resolve(r, data, value, typ) == Returns(value)
    ensures (typ.ModelType? || typ.ListType?) && !Replaces(value, typ) ==>
      Resolve(r, data, value, typ) == Returns(value)
    ensures typ.Union? && (forall k: nat :: !OnlyOption(typ.options, k)) ==>
              Resolve(r, data, value, typ) == Returns(value)
  {
    if typ.Union? && |NonNone(typ.options)| == 1 {
      var k := OneLeftIsTheOnlyOption(typ.options);
    }
  }
}
