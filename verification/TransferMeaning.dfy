/**
 What a transfer amounts to, field by field and class by class, told from the
 tree and the source alone.
 */
module TransferMeaning {
  import opened Outcomes
  import opened TransferTypes
  import opened TransferInterpreter

  // ----- what is built -----

  /** Filling a dict and building from it, where either may raise. */
  function Filled(d: Outcome<Dict>, build: Dict -> Outcome<Value>): Outcome<Value> {
    match d case Ok(entries) => build(entries) case Err(e) => Err(e)
  }

  /**
   A nested model becomes a plain dict below a dict, an instance of its own class
   when data comes in, and an instance of its transfer model when data is returned.
   */
  lemma {:induction false} NestedIsBuilt(w: World, isData: bool, t: TransferType, asDict: bool, v: Value)
    requires t.SimpleType? && t.nested.Some?
    ensures var d := TransferFields(w, isData, t.nested.value.fields, asDict, v, []);
            TransferTyped(w, isData, t, asDict, v) ==
            if asDict then Filled(d, entries => Ok(Mapping(entries)))
            else if isData then Filled(d, entries => w.construct(t.annotation, entries))
            else Filled(d, entries => w.construct(t.nested.value.model, entries))
  {
  }

  /** A union member is passed over if it is not nested, or the value is no instance of what it arrives as. */
  predicate DoesNotDecide(w: World, isData: bool, m: TransferType, v: Value) {
    && m.SimpleType?
    && (m.nested.Some? ==> !w.isInstance(v, if isData then m.nested.value.model else m.annotation))
  }

  /**
   A value that is an instance of a nested member's transfer model, when data comes
   in, or of its class, when data is returned, is transferred as the first such
   member, and never to a dict.
   */
  lemma {:induction false} MemberIsBuilt(w: World, isData: bool, members: seq<TransferType>, k: nat, v: Value)
    requires k < |members| && (forall m | m in members[..k] :: DoesNotDecide(w, isData, m, v))
    requires members[k].SimpleType? && !DoesNotDecide(w, isData, members[k], v)
    ensures var m := members[k];
            var d := TransferFields(w, isData, m.nested.value.fields, false, v, []);
            TransferUnion(w, isData, members, v) ==
            if isData then Filled(d, entries => w.construct(m.annotation, entries))
            else Filled(d, entries => w.construct(m.nested.value.model, entries))
    decreases members
  {
    if k > 0 {
      assert members[0] in members[..k] && members[1..][k - 1] == members[k];
      assert forall m | m in members[1..][..k - 1] :: m in members[..k];
      MemberIsBuilt(w, isData, members[1..], k - 1, v);
    }
  }

  /** If no member decides the value is handed on, up to a composite member, which makes the transfer raise. */
  lemma {:induction false} UndecidedUnion(w: World, isData: bool, members: seq<TransferType>, v: Value)
    ensures (forall m | m in members :: DoesNotDecide(w, isData, m, v)) ==> TransferUnion(w, isData, members, v) == Ok(v)
    ensures forall k | 0 <= k < |members| && (forall m | m in members[..k] :: DoesNotDecide(w, isData, m, v))
                       && !members[k].SimpleType? :: TransferUnion(w, isData, members, v) == Err(RuntimeError)
    decreases members
  {
    if members != [] {
      UndecidedUnion(w, isData, members[1..], v);
      forall k | 0 < k < |members| && (forall m | m in members[..k] :: DoesNotDecide(w, isData, m, v))
        ensures DoesNotDecide(w, isData, members[0], v)
        ensures forall m | m in members[1..][..k - 1] :: DoesNotDecide(w, isData, m, v)
        ensures members[1..][k - 1] == members[k]
      {
        assert members[0] in members[..k];
        assert forall m | m in members[1..][..k - 1] :: m in members[..k];
      }
      assert members[0] in members;
    }
  }

  /** Instances know the class they were built with. */
  ghost predicate KnowsItsClass(w: World) {
    forall c, d :: w.construct(c, d).Ok? ==> w.isInstance(w.construct(c, d).value, c)
  }

  /** What one direction builds for a union member, the other direction takes for that member. */
  lemma {:induction false} BuiltMemberComesBack(w: World, isData: bool, m: TransferType, v: Value)
    requires KnowsItsClass(w) && m.SimpleType? && m.nested.Some?
    requires !DoesNotDecide(w, isData, m, v) && TransferUnion(w, isData, [m], v).Ok?
    ensures !DoesNotDecide(w, !isData, m, TransferUnion(w, isData, [m], v).value)
  {
    assert [m][..0] == [];
    MemberIsBuilt(w, isData, [m], 0, v);
  }

  /** Only what holds models is taken apart; the rest is converted or handed on. */
  lemma {:induction false} ByAnnotation(w: World, isData: bool, t: TransferType, o: TypeId, asDict: bool, v: Value)
    requires t.SimpleType?
    ensures TransferTyped(w, isData, TupleType([t]), asDict, v) == Ok(v)
    ensures t.nested.None? ==>
              && TransferTyped(w, isData, t, asDict, v) == Ok(v)
              && TransferTyped(w, isData, UnionType([t]), asDict, v) == Ok(v)
              && TransferTyped(w, isData, CollectionType(o, t), asDict, v) == w.convert(o, v)
              && forall k: TransferType | k.SimpleType? && k.nested.None? ::
                   TransferTyped(w, isData, MappingType(o, k, t), asDict, v) == w.convert(o, v)
    ensures t.nested.Some? ==>
              && TransferTyped(w, isData, UnionType([t]), asDict, v) == TransferUnion(w, isData, [t], v)
              && (v.Sequence? ==>
                    TransferTyped(w, isData, CollectionType(o, t), asDict, v) ==
                    match TransferItems(w, isData, t, v.items) case Ok(rs) => w.collect(o, rs) case Err(e) => Err(e))
              && forall k: TransferType | k.SimpleType? && v.Mapping? ::
                   TransferTyped(w, isData, MappingType(o, k, t), asDict, v) ==
                   match TransferPairs(w, isData, t, v.entries) case Ok(rs) => w.collectPairs(o, rs) case Err(e) => Err(e)
  {
    assert HasNested(t) == t.nested.Some? && t in [t];
    assert forall m | m in [t] :: m == t;
    assert HasNested(UnionType([t])) == HasNested(t);
    assert HasNested(CollectionType(o, t)) == HasNested(t);
    forall k: TransferType | k.SimpleType?
      ensures HasNested(MappingType(o, k, t)) == (k.nested.Some? || t.nested.Some?)
    {
      assert HasNested(k) == k.nested.Some?;
    }
  }

  /** Items are transferred one by one, in order, never below a dict; the first that fails decides. */
  lemma {:induction false} ItemsOneByOne(w: World, isData: bool, t: TransferType, items: seq<Value>)
    ensures var r := TransferItems(w, isData, t, items);
            && (r.Ok? <==> forall i | 0 <= i < |items| :: TransferTyped(w, isData, t, false, items[i]).Ok?)
            && (r.Ok? ==> |r.value| == |items| &&
                          forall i | 0 <= i < |items| :: Ok(r.value[i]) == TransferTyped(w, isData, t, false, items[i]))
    decreases |items|
  {
    if items != [] {
      ItemsOneByOne(w, isData, t, items[1..]);
      assert forall i | 0 <= i < |items[1..]| :: items[1..][i] == items[i + 1];
    }
  }

  /** The values of a mapping are transferred one by one, and stay under their keys. */
  lemma {:induction false} ValuesOneByOne(w: World, isData: bool, t: TransferType, items: Dict)
    ensures var r := TransferPairs(w, isData, t, items);
            && (r.Ok? <==> forall i | 0 <= i < |items| :: TransferTyped(w, isData, t, false, items[i].1).Ok?)
            && (r.Ok? ==> |r.value| == |items| &&
                          forall i | 0 <= i < |items| ::
                            r.value[i].0 == items[i].0
                            && Ok(r.value[i].1) == TransferTyped(w, isData, t, false, items[i].1))
    decreases |items|
  {
    if items != [] {
      ValuesOneByOne(w, isData, t, items[1..]);
      assert forall i | 0 <= i < |items[1..]| :: items[1..][i] == items[i + 1];
    }
  }

  // ----- dicts -----

  /** `d[key] = value`: the key has the value, the others have theirs, and a new key goes last. */
  lemma {:induction false} PutMeans(d: Dict, key: Value, value: Value)
    ensures Lookup(Put(d, key, value), key) == Ok(value)
    ensures forall k | k != key :: Lookup(Put(d, key, value), k) == Lookup(d, k)
    ensures Lookup(d, key).Err? ==> Put(d, key, value) == d + [(key, value)]
    ensures Lookup(d, key).Ok? ==>
              |Put(d, key, value)| == |d| && forall i | 0 <= i < |d| :: Put(d, key, value)[i].0 == d[i].0
  {
    if d != [] {
      PutMeans(d[1..], key, value);
    }
  }

  /** A mapping is read by key, whatever else it holds, and anything else by attribute. */
  lemma {:induction false} FieldsAreRead(d: Dict, cls: TypeId, attrs: map<string, Value>, name: string, x: Value)
    ensures GetField(Mapping(Put(d, Text(name), x)), name) == Ok(x)
    ensures GetField(Instance(cls, attrs[name := x]), name) == Ok(x)
    ensures name !in attrs ==> GetField(Instance(cls, attrs), name) == Err(AttributeError)
    ensures GetField(Mapping([]), name) == Err(KeyError)
  {
    PutMeans(d, Text(name), x);
  }

  // ----- fields -----

  /** A field gets no entry: data does not have it or leaves it UNSET, or it is excluded from what is returned. */
  predicate Omitted(isData: bool, f: Field, source: Value) {
    if isData then
      var read := GetField(source, f.name);
      read.Err? || (f.isPartial && read.value == Unset)
    else f.isExcluded
  }

  predicate NamesDiffer(fields: seq<Field>) {
    forall i, j | 0 <= i < j < |fields| :: fields[i].name != fields[j].name
  }

  /** What the dict `r` says of one field, when `acc` was there before. */
  ghost predicate HasEntry(w: World, isData: bool, f: Field, asDict: bool, source: Value, acc: Dict, r: Dict) {
    if Omitted(isData, f, source) then Lookup(r, Text(f.name)) == Lookup(acc, Text(f.name))
    else
      var read := GetField(source, f.name);
      read.Ok? && TransferTyped(w, isData, f.transferType, asDict, read.value).Ok?
      && Lookup(r, Text(f.name)) == TransferTyped(w, isData, f.transferType, asDict, read.value)
  }

  lemma {:induction false} EntryOfField(
    w: World, isData: bool, f: Field, asDict: bool, source: Value, acc: Dict)
    ensures var r := TransferField(w, isData, f, asDict, source, acc);
            r.Ok? ==>
              && HasEntry(w, isData, f, asDict, source, acc, r.value)
              && forall k | k != Text(f.name) :: Lookup(r.value, k) == Lookup(acc, k)
  {
    if GetField(source, f.name).Ok? {
      var t := TransferTyped(w, isData, f.transferType, asDict, GetField(source, f.name).value);
      if t.Ok? {
        PutMeans(acc, Text(f.name), t.value);
      }
    }
  }

  /** When a transfer of fields returns, every field that is not omitted has been read and transferred, and no other. */
  lemma {:induction false} EntriesOfFields(
    w: World, isData: bool, fields: seq<Field>, asDict: bool, source: Value, acc: Dict)
    requires NamesDiffer(fields)
    ensures var r := TransferFields(w, isData, fields, asDict, source, acc);
            r.Ok? ==>
              && (forall i | 0 <= i < |fields| :: HasEntry(w, isData, fields[i], asDict, source, acc, r.value))
              && forall k | (forall i | 0 <= i < |fields| :: k != Text(fields[i].name)) ::
                   Lookup(r.value, k) == Lookup(acc, k)
    decreases fields
  {
    if fields != [] {
      var f, rest := fields[0], fields[1..];
      EntryOfField(w, isData, f, asDict, source, acc);
      var first := TransferField(w, isData, f, asDict, source, acc);
      if first.Ok? {
        EntriesOfFields(w, isData, rest, asDict, source, first.value);
        var r := TransferFields(w, isData, rest, asDict, source, first.value);
        if r.Ok? {
          assert forall i | 0 <= i < |rest| :: rest[i] == fields[i + 1];
          assert Lookup(r.value, Text(f.name)) == Lookup(first.value, Text(f.name));
          forall i | 0 <= i < |fields|
            ensures HasEntry(w, isData, fields[i], asDict, source, acc, r.value)
          {
            if i > 0 {
              assert HasEntry(w, isData, rest[i - 1], asDict, source, first.value, r.value);
            }
          }
        }
      }
    }
  }

  /** It raises only what reading or transferring one of the fields raises. */
  lemma {:induction false} FieldsFail(
    w: World, isData: bool, fields: seq<Field>, asDict: bool, source: Value, acc: Dict)
    ensures TransferFields(w, isData, fields, asDict, source, acc).Ok? <==>
            forall f | f in fields && !Omitted(isData, f, source) ::
              GetField(source, f.name).Ok?
              && TransferTyped(w, isData, f.transferType, asDict, GetField(source, f.name).value).Ok?
    decreases fields
  {
    if fields != [] {
      var first := TransferField(w, isData, fields[0], asDict, source, acc);
      assert forall f :: f in fields <==> f == fields[0] || f in fields[1..];
      if first.Ok? {
        FieldsFail(w, isData, fields[1..], asDict, source, first.value);
      }
    }
  }

  /** Fields are transferred in their order. */
  lemma {:induction false} FieldsInOrder(
    w: World, isData: bool, a: seq<Field>, b: seq<Field>, asDict: bool, source: Value, acc: Dict)
    ensures var first := TransferFields(w, isData, a, asDict, source, acc);
            TransferFields(w, isData, a + b, asDict, source, acc) ==
            if first.Ok? then TransferFields(w, isData, b, asDict, source, first.value) else first
    decreases a
  {
    if a == [] {
      assert a + b == b;
    } else {
      assert (a + b)[0] == a[0] && (a + b)[1..] == a[1..] + b;
      var r := TransferField(w, isData, a[0], asDict, source, acc);
      if r.Ok? {
        FieldsInOrder(w, isData, a[1..], b, asDict, source, r.value);
      }
    }
  }

  // ----- annotations -----

  /** The items of an annotation's collection are transferred one by one, by the annotation within it. */
  lemma {:induction false} DataItemsOneByOne(
    w: World, isData: bool, s: Shape, fields: seq<Field>, destination: Destination, items: seq<Value>)
    ensures var r := TransferDataItems(w, isData, s, fields, destination, items);
            && (r.Ok? <==> forall i | 0 <= i < |items| :: TransferData(w, isData, s, fields, destination, items[i]).Ok?)
            && (r.Ok? ==> |r.value| == |items| && forall i | 0 <= i < |items| ::
                            Ok(r.value[i]) == TransferData(w, isData, s, fields, destination, items[i]))
    decreases |items|
  {
    if items != [] {
      DataItemsOneByOne(w, isData, s, fields, destination, items[1..]);
      assert forall i | 0 <= i < |items[1..]| :: items[1..][i] == items[i + 1];
    }
  }

  lemma {:induction false} DataValuesOneByOne(
    w: World, isData: bool, s: Shape, fields: seq<Field>, destination: Destination, items: Dict)
    ensures var r := TransferDataPairs(w, isData, s, fields, destination, items);
            && (r.Ok? <==> forall i | 0 <= i < |items| :: TransferData(w, isData, s, fields, destination, items[i].1).Ok?)
            && (r.Ok? ==> |r.value| == |items| && forall i | 0 <= i < |items| ::
                            r.value[i].0 == items[i].0
                            && Ok(r.value[i].1) == TransferData(w, isData, s, fields, destination, items[i].1))
    decreases |items|
  {
    if items != [] {
      DataValuesOneByOne(w, isData, s, fields, destination, items[1..]);
      assert forall i | 0 <= i < |items[1..]| :: items[1..][i] == items[i + 1];
    }
  }

  /**
   A model is built from its fields, below a plain annotation, in every item of an
   annotated collection, and in every value of an annotated mapping.
   */
  lemma {:induction false} ModelsAreBuilt(
    w: World, isData: bool, o: TypeId, k: Shape, fields: seq<Field>, cls: TypeId, v: Value, items: seq<Value>, d: Dict)
    ensures var built := TransferData(w, isData, PlainShape, fields, ClassDestination(cls), v);
            && built == Filled(TransferFields(w, isData, fields, false, v, []), entries => w.construct(cls, entries))
            && TransferData(w, isData, PlainShape, fields, DictDestination, v)
               == Filled(TransferFields(w, isData, fields, true, v, []), entries => Ok(Mapping(entries)))
    ensures var rs := TransferDataItems(w, isData, PlainShape, fields, ClassDestination(cls), items);
            TransferData(w, isData, CollectionShape(o, PlainShape), fields, ClassDestination(cls), Sequence(items))
            == match rs case Ok(xs) => w.collect(o, xs) case Err(e) => Err(e)
    ensures var rs := TransferDataPairs(w, isData, PlainShape, fields, ClassDestination(cls), d);
            TransferData(w, isData, MappingShape(o, k, PlainShape), fields, ClassDestination(cls), Mapping(d))
            == match rs case Ok(xs) => w.collectPairs(o, xs) case Err(e) => Err(e)
  {
  }
}
