/**
 Exactly when the backends agree on a whole transfer. Generated code reads the
 values of a mapping by the annotation of its keys, so that two readings of the
 source are compared: that of the interpreter and that of generated code.
 */
module AnnotationDifference {
  import opened Outcomes
  import opened TransferTypes
  import opened TransferInterpreter
  import opened GeneratedCode
  import opened TransferCompiler
  import opened DirectMeaning
  import opened CompilerCorrectness
  import opened GenerationDomain
  import opened BackendAgreement
  import opened BackendDifference
  import opened FaithfulAgreement
  import opened RaisedErrors

  function ContextOf(isData: bool, destination: Destination): Context {
    Context(isData, destination.DictDestination?)
  }

  function ValuesOf(items: Dict): (values: seq<Value>)
    ensures |values| == |items| && forall k | 0 <= k < |items| :: values[k] == items[k].1
  {
    if items == [] then [] else [items[0].1] + ValuesOf(items[1..])
  }

  // ----- readings -----

  /** Read as `s` by generated code and as `t` by the interpreter, no source shows a difference. */
  predicate ReadsAs(s: Shape, t: Shape) {
    match (s, t)
    case (PlainShape, PlainShape) => true
    case (CollectionShape(o, item), CollectionShape(o', item')) => o == o' && ReadsAs(item, item')
    case (MappingShape(o, key, _), MappingShape(o', _, value)) => o == o' && ReadsAs(key, value)
    case _ => false
  }

  /** This source shows no difference: wherever it leads, both readings take it for the same. */
  predicate ReadsAsOn(s: Shape, t: Shape, v: Value)
    decreases s
  {
    match (s, t)
    case (PlainShape, PlainShape) => true
    case (CollectionShape(o, item), CollectionShape(o', item')) =>
      o == o' && (Iterate(v).Ok? ==> forall x | x in Iterate(v).value :: ReadsAsOn(item, item', x))
    case (MappingShape(o, key, _), MappingShape(o', _, value)) =>
      o == o' && (Items(v).Ok? ==> forall x | x in ValuesOf(Items(v).value) :: ReadsAsOn(key, value, x))
    case _ => false
  }

  lemma {:induction false} ReadsAsEverywhere(s: Shape, t: Shape, v: Value)
    requires ReadsAs(s, t)
    ensures ReadsAsOn(s, t, v)
    decreases s
  {
    match (s, t)
    case (CollectionShape(_, item), CollectionShape(_, item')) =>
      forall x { ReadsAsEverywhere(item, item', x); }
    case (MappingShape(_, key, _), MappingShape(_, _, value)) =>
      forall x { ReadsAsEverywhere(key, value, x); }
    case _ =>
  }

  /** Annotations whose mappings read values like keys leave no difference. */
  lemma {:induction false} ReadByKeyReadsAs(s: Shape)
    ensures ReadsAs(s, ReadByKey(s))
  {
    match s
    case PlainShape =>
    case CollectionShape(_, item) => ReadByKeyReadsAs(item);
    case MappingShape(_, key, _) => ReadByKeyReadsAs(key);
  }

  // ----- sources of the annotated kind, and the condition -----

  ghost predicate DataConforms(
    w: World, isData: bool, s: Shape, fields: seq<Field>, destination: Destination, v: Value)
    decreases s
  {
    match s
    case PlainShape => FieldsConform(w, ContextOf(isData, destination), fields, v)
    case CollectionShape(_, item) =>
      Iterate(v).Ok? && forall x | x in Iterate(v).value :: DataConforms(w, isData, item, fields, destination, x)
    case MappingShape(_, _, value) =>
      Items(v).Ok? && forall x | x in ValuesOf(Items(v).value) :: DataConforms(w, isData, value, fields, destination, x)
  }

  predicate DataFaithful(w: World, isData: bool, s: Shape, fields: seq<Field>, destination: Destination, v: Value)
    decreases s, 0
  {
    match s
    case PlainShape => FieldsFaithful(w, ContextOf(isData, destination), fields, destination.DictDestination?, v)
    case CollectionShape(_, item) =>
      Iterate(v).Ok? ==> DataItemsFaithful(w, isData, item, fields, destination, Iterate(v).value)
    case MappingShape(_, _, value) =>
      Items(v).Ok? ==> DataItemsFaithful(w, isData, value, fields, destination, ValuesOf(Items(v).value))
  }

  predicate DataItemsFaithful(
    w: World, isData: bool, s: Shape, fields: seq<Field>, destination: Destination, items: seq<Value>)
    decreases s, 1
  {
    forall x | x in items :: DataFaithful(w, isData, s, fields, destination, x)
  }

  // ----- sources that both readings take for the same -----

  ghost predicate DataExactOn(
    w: World, isData: bool, s: Shape, t: Shape, fields: seq<Field>, destination: Destination, v: Value)
  {
    Exact(DirectData(w, isData, s, fields, destination, v), TransferData(w, isData, t, fields, destination, v),
          DataFaithful(w, isData, t, fields, destination, v))
  }

  lemma {:induction false} DataExact(
    w: World, isData: bool, s: Shape, t: Shape, fields: seq<Field>, destination: Destination, v: Value)
    requires Free(w) && InstanceGenerates(ContextOf(isData, destination), fields, 0) && Proper(fields)
    requires DataConforms(w, isData, t, fields, destination, v) && ReadsAsOn(s, t, v)
    ensures DataExactOn(w, isData, s, t, fields, destination, v)
    decreases s
  {
    match (s, t)
    case (PlainShape, PlainShape) =>
      InstanceExact(w, ContextOf(isData, destination), fields, destination, 0, v);
    case (CollectionShape(o, item), CollectionShape(_, item')) =>
      var items := Iterate(v).value;
      forall x | x in items {
        DataExact(w, isData, item, item', fields, destination, x);
      }
      DataItemsExact(w, isData, item, item', fields, destination, items);
      var d, i := DirectDataItems(w, isData, item, fields, destination, items),
                  TransferDataItems(w, isData, item', fields, destination, items);
      if i.Ok? {
        assert w.collect(o, d.value) == w.collect(o, i.value) <==> d.value == i.value;
      }
    case (MappingShape(o, key, _), MappingShape(_, _, value)) =>
      var items := Items(v).value;
      forall x | x in ValuesOf(items) {
        DataExact(w, isData, key, value, fields, destination, x);
      }
      DataItemsExact(w, isData, key, value, fields, destination, ValuesOf(items));
      PairsEqual(w, isData, key, value, fields, destination, items);
      var d, i := DirectDataPairs(w, isData, key, fields, destination, items),
                  TransferDataPairs(w, isData, value, fields, destination, items);
      if i.Ok? {
        assert w.collectPairs(o, d.value) == w.collectPairs(o, i.value) <==> d.value == i.value;
      }
  }

  lemma {:induction false} FaithfulStep(
    w: World, isData: bool, s: Shape, fields: seq<Field>, destination: Destination, items: seq<Value>)
    requires items != []
    ensures DataItemsFaithful(w, isData, s, fields, destination, items) <==>
            && DataFaithful(w, isData, s, fields, destination, items[0])
            && DataItemsFaithful(w, isData, s, fields, destination, items[1..])
  {
    assert forall x :: x in items <==> x == items[0] || x in items[1..];
  }

  lemma {:induction false} ItemsUnfold(
    w: World, isData: bool, s: Shape, fields: seq<Field>, destination: Destination, items: seq<Value>)
    requires items != []
    ensures DirectDataItems(w, isData, s, fields, destination, items)
         == Cons(DirectData(w, isData, s, fields, destination, items[0]),
                 DirectDataItems(w, isData, s, fields, destination, items[1..]))
    ensures TransferDataItems(w, isData, s, fields, destination, items)
         == Cons(TransferData(w, isData, s, fields, destination, items[0]),
                 TransferDataItems(w, isData, s, fields, destination, items[1..]))
  {
  }

  lemma {:induction false} DataItemsExact(
    w: World, isData: bool, s: Shape, t: Shape, fields: seq<Field>, destination: Destination, items: seq<Value>)
    requires forall x | x in items :: DataExactOn(w, isData, s, t, fields, destination, x)
    ensures Exact(DirectDataItems(w, isData, s, fields, destination, items),
                  TransferDataItems(w, isData, t, fields, destination, items),
                  DataItemsFaithful(w, isData, t, fields, destination, items))
    decreases |items|
  {
    if items != [] {
      var x, rest := items[0], items[1..];
      DataItemsExact(w, isData, s, t, fields, destination, rest);
      FaithfulStep(w, isData, t, fields, destination, items);
      ItemsUnfold(w, isData, s, fields, destination, items);
      ItemsUnfold(w, isData, t, fields, destination, items);
      assert DataExactOn(w, isData, s, t, fields, destination, x);
      ConsExact(DirectData(w, isData, s, fields, destination, x), DirectDataItems(w, isData, s, fields, destination, rest),
                TransferData(w, isData, t, fields, destination, x),
                TransferDataItems(w, isData, t, fields, destination, rest),
                DataFaithful(w, isData, t, fields, destination, x),
                DataItemsFaithful(w, isData, t, fields, destination, rest));
    }
  }

  /** The values of a mapping, each transferred as an item, and put back under its key. */
  function Rejoin(items: Dict, values: seq<Value>): Dict
    requires |items| == |values|
  {
    if items == [] then [] else [(items[0].0, values[0])] + Rejoin(items[1..], values[1..])
  }

  lemma {:induction false} RejoinInjective(items: Dict, xs: seq<Value>, ys: seq<Value>)
    requires |items| == |xs| == |ys| && Rejoin(items, xs) == Rejoin(items, ys)
    ensures xs == ys
  {
    if items != [] {
      assert Rejoin(items, xs)[0].1 == xs[0] && Rejoin(items, ys)[0].1 == ys[0];
      assert Rejoin(items, xs)[1..] == Rejoin(items[1..], xs[1..]) && Rejoin(items, ys)[1..] == Rejoin(items[1..], ys[1..]);
      RejoinInjective(items[1..], xs[1..], ys[1..]);
    }
  }

  /** The transfer of a mapping's entries is that of its values. */
  ghost predicate Rejoined(items: Dict, pairs: Outcome<Dict>, values: Outcome<seq<Value>>) {
    match values
    case Err(e) => pairs == Err(e)
    case Ok(vs) => |vs| == |items| && pairs == Ok(Rejoin(items, vs))
  }

  lemma {:induction false} DirectPairsRejoined(
    w: World, isData: bool, s: Shape, fields: seq<Field>, destination: Destination, items: Dict)
    ensures Rejoined(items, DirectDataPairs(w, isData, s, fields, destination, items),
                     DirectDataItems(w, isData, s, fields, destination, ValuesOf(items)))
    decreases |items|
  {
    if items != [] {
      DirectPairsRejoined(w, isData, s, fields, destination, items[1..]);
      assert ValuesOf(items)[1..] == ValuesOf(items[1..]);
    }
  }

  lemma {:induction false} TransferPairsRejoined(
    w: World, isData: bool, s: Shape, fields: seq<Field>, destination: Destination, items: Dict)
    ensures Rejoined(items, TransferDataPairs(w, isData, s, fields, destination, items),
                     TransferDataItems(w, isData, s, fields, destination, ValuesOf(items)))
    decreases |items|
  {
    if items != [] {
      TransferPairsRejoined(w, isData, s, fields, destination, items[1..]);
      assert ValuesOf(items)[1..] == ValuesOf(items[1..]);
    }
  }

  /** Two transfers of a mapping's entries are equal if those of its values are. */
  lemma {:induction false} PairsEqual(
    w: World, isData: bool, s: Shape, t: Shape, fields: seq<Field>, destination: Destination, items: Dict)
    ensures var d, i := DirectDataPairs(w, isData, s, fields, destination, items),
                        TransferDataPairs(w, isData, t, fields, destination, items);
            var dValues, iValues := DirectDataItems(w, isData, s, fields, destination, ValuesOf(items)),
                                    TransferDataItems(w, isData, t, fields, destination, ValuesOf(items));
            (d == i <==> dValues == iValues) && (d.Ok? <==> dValues.Ok?) && (i.Ok? <==> iValues.Ok?)
  {
    var dValues, iValues := DirectDataItems(w, isData, s, fields, destination, ValuesOf(items)),
                            TransferDataItems(w, isData, t, fields, destination, ValuesOf(items));
    DirectPairsRejoined(w, isData, s, fields, destination, items);
    TransferPairsRejoined(w, isData, t, fields, destination, items);
    if dValues.Ok? && iValues.Ok? && Rejoin(items, dValues.value) == Rejoin(items, iValues.value) {
      RejoinInjective(items, dValues.value, iValues.value);
    }
  }

  // ----- sources that show a difference -----

  /** Collections, mappings and models are told apart, and so are their classes. */
  ghost predicate Apart(w: World, destination: Destination) {
    && (forall c, c', s, s' :: w.collect(c, s) == w.collect(c', s') ==> c == c')
    && (forall c, c', d, d' :: w.collectPairs(c, d) == w.collectPairs(c', d') ==> c == c')
    && (forall c, c', s, d :: w.collect(c, s) != w.collectPairs(c', d))
    && (forall c, s, d :: w.collect(c, s) != Build(w, destination, d))
    && (forall c, d, d' :: w.collectPairs(c, d) != Build(w, destination, d'))
  }

  /** The interpreter returns on a faithful source. */
  lemma {:induction false} FaithfulReturns(
    w: World, isData: bool, t: Shape, fields: seq<Field>, destination: Destination, v: Value)
    requires Free(w) && InstanceGenerates(ContextOf(isData, destination), fields, 0) && Proper(fields)
    requires DataConforms(w, isData, t, fields, destination, v) && DataFaithful(w, isData, t, fields, destination, v)
    ensures TransferData(w, isData, t, fields, destination, v).Ok?
  {
    ReadsAsRekeyed(t);
    ReadsAsEverywhere(Rekeyed(t), t, v);
    DataExact(w, isData, Rekeyed(t), t, fields, destination, v);
  }

  /** The annotation that generated code reads as `t`. */
  function Rekeyed(t: Shape): Shape {
    match t
    case PlainShape => PlainShape
    case CollectionShape(o, item) => CollectionShape(o, Rekeyed(item))
    case MappingShape(o, _, value) => MappingShape(o, Rekeyed(value), value)
  }

  lemma {:induction false} ReadsAsRekeyed(t: Shape)
    ensures ReadsAs(Rekeyed(t), t)
  {
    match t
    case PlainShape =>
    case CollectionShape(_, item) => ReadsAsRekeyed(item);
    case MappingShape(_, _, value) => ReadsAsRekeyed(value);
  }

  /** Whenever the interpreter returns, a source on which the readings part is transferred differently. */
  lemma {:induction false} DataDiffers(
    w: World, isData: bool, s: Shape, t: Shape, fields: seq<Field>, destination: Destination, v: Value)
    requires Free(w) && Apart(w, destination) && !ReadsAsOn(s, t, v)
    requires TransferData(w, isData, t, fields, destination, v).Ok?
    ensures DirectData(w, isData, s, fields, destination, v) != TransferData(w, isData, t, fields, destination, v)
    decreases s
  {
    match (s, t)
    case (CollectionShape(o, item), CollectionShape(o', item')) =>
      if o == o' {
        var items := Iterate(v).value;
        var k: nat :| k < |items| && !ReadsAsOn(item, item', items[k]);
        ItemReturns(w, isData, item', fields, destination, items, k);
        DataDiffers(w, isData, item, item', fields, destination, items[k]);
        ItemDiffers(w, isData, item, item', fields, destination, items, k);
      }
      CollectionsDiffer(w, isData, s, t, fields, destination, v);
    case (MappingShape(o, key, _), MappingShape(o', _, value)) =>
      if o == o' {
        var items := ValuesOf(Items(v).value);
        var k: nat :| k < |items| && !ReadsAsOn(key, value, items[k]);
        PairsEqual(w, isData, key, value, fields, destination, Items(v).value);
        ItemReturns(w, isData, value, fields, destination, items, k);
        DataDiffers(w, isData, key, value, fields, destination, items[k]);
        ItemDiffers(w, isData, key, value, fields, destination, items, k);
      }
      MappingsDiffer(w, isData, s, t, fields, destination, v);
    case _ => KindsDiffer(w, isData, s, t, fields, destination, v);
  }

  lemma {:induction false} ItemReturns(
    w: World, isData: bool, t: Shape, fields: seq<Field>, destination: Destination, items: seq<Value>, k: nat)
    requires k < |items| && TransferDataItems(w, isData, t, fields, destination, items).Ok?
    ensures TransferData(w, isData, t, fields, destination, items[k]).Ok?
    decreases k
  {
    if k > 0 {
      ItemReturns(w, isData, t, fields, destination, items[1..], k - 1);
    }
  }

  lemma {:induction false} CollectionsDiffer(
    w: World, isData: bool, s: Shape, t: Shape, fields: seq<Field>, destination: Destination, v: Value)
    requires Free(w) && Apart(w, destination) && s.CollectionShape? && t.CollectionShape? && Iterate(v).Ok?
    requires s.origin == t.origin || TransferData(w, isData, t, fields, destination, v).Ok?
    requires s.origin == t.origin ==>
               DirectDataItems(w, isData, s.item, fields, destination, Iterate(v).value)
               != TransferDataItems(w, isData, t.item, fields, destination, Iterate(v).value)
    ensures DirectData(w, isData, s, fields, destination, v) != TransferData(w, isData, t, fields, destination, v)
  {
  }

  lemma {:induction false} MappingsDiffer(
    w: World, isData: bool, s: Shape, t: Shape, fields: seq<Field>, destination: Destination, v: Value)
    requires Free(w) && Apart(w, destination) && s.MappingShape? && t.MappingShape? && Items(v).Ok?
    requires s.origin == t.origin || TransferData(w, isData, t, fields, destination, v).Ok?
    requires s.origin == t.origin ==>
               DirectDataPairs(w, isData, s.key, fields, destination, Items(v).value)
               != TransferDataPairs(w, isData, t.value, fields, destination, Items(v).value)
    ensures DirectData(w, isData, s, fields, destination, v) != TransferData(w, isData, t, fields, destination, v)
  {
  }

  /** One item that is transferred differently is enough. */
  lemma {:induction false} ItemDiffers(
    w: World, isData: bool, s: Shape, t: Shape, fields: seq<Field>, destination: Destination, items: seq<Value>, k: nat)
    requires k < |items|
    requires DirectData(w, isData, s, fields, destination, items[k]) != TransferData(w, isData, t, fields, destination, items[k])
    requires TransferDataItems(w, isData, t, fields, destination, items).Ok?
    ensures DirectDataItems(w, isData, s, fields, destination, items)
         != TransferDataItems(w, isData, t, fields, destination, items)
    decreases k
  {
    var x, rest := items[0], items[1..];
    if k > 0 {
      ItemDiffers(w, isData, s, t, fields, destination, rest, k - 1);
    }
    ConsDiffers(DirectData(w, isData, s, fields, destination, x), DirectDataItems(w, isData, s, fields, destination, rest),
                TransferData(w, isData, t, fields, destination, x),
                TransferDataItems(w, isData, t, fields, destination, rest));
  }

  lemma {:induction false} ConsDiffers<T>(d: Outcome<T>, dTail: Outcome<seq<T>>, i: Outcome<T>, iTail: Outcome<seq<T>>)
    requires i.Ok? && iTail.Ok? && (d != i || dTail != iTail)
    ensures Cons(d, dTail) != Cons(i, iTail)
  {
    if d.Ok? && dTail.Ok? {
      var x, y := [d.value] + dTail.value, [i.value] + iTail.value;
      assert x[0] == d.value && x[1..] == dTail.value && y[0] == i.value && y[1..] == iTail.value;
    }
  }

  /** Readings of different kinds: what either returns is of a kind of its own. */
  lemma {:induction false} KindsDiffer(
    w: World, isData: bool, s: Shape, t: Shape, fields: seq<Field>, destination: Destination, v: Value)
    requires Apart(w, destination)
    requires s.PlainShape? != t.PlainShape? || s.CollectionShape? != t.CollectionShape?
    requires DirectData(w, isData, s, fields, destination, v).Ok? || TransferData(w, isData, t, fields, destination, v).Ok?
    ensures DirectData(w, isData, s, fields, destination, v) != TransferData(w, isData, t, fields, destination, v)
  {
  }

  // ----- exceptions -----

  lemma {:induction false} TransferDataRaises(
    w: World, isData: bool, t: Shape, fields: seq<Field>, destination: Destination, v: Value)
    requires Free(w) && Proper(fields) && DataConforms(w, isData, t, fields, destination, v)
    ensures RaisesInterpreted(isData, TransferData(w, isData, t, fields, destination, v))
    decreases t, 0
  {
    match t
    case PlainShape => TransferInstanceRaises(w, ContextOf(isData, destination), fields, destination, v);
    case CollectionShape(_, item) =>
      TransferDataItemsRaise(w, isData, item, fields, destination, Iterate(v).value);
    case MappingShape(_, _, value) =>
      var items := Items(v).value;
      TransferDataItemsRaise(w, isData, value, fields, destination, ValuesOf(items));
      TransferPairsRejoined(w, isData, value, fields, destination, items);
  }

  lemma {:induction false} TransferDataItemsRaise(
    w: World, isData: bool, t: Shape, fields: seq<Field>, destination: Destination, items: seq<Value>)
    requires Free(w) && Proper(fields)
    requires forall x | x in items :: DataConforms(w, isData, t, fields, destination, x)
    ensures RaisesInterpreted(isData, TransferDataItems(w, isData, t, fields, destination, items))
    decreases t, 1, |items|
  {
    if items != [] {
      TransferDataRaises(w, isData, t, fields, destination, items[0]);
      TransferDataItemsRaise(w, isData, t, fields, destination, items[1..]);
    }
  }

  lemma {:induction false} DirectDataRaises(
    w: World, isData: bool, s: Shape, fields: seq<Field>, destination: Destination, v: Value)
    requires Free(w)
    ensures RaisesMisread(DirectData(w, isData, s, fields, destination, v))
    decreases s, 0
  {
    match s
    case PlainShape => DirectInstanceRaises(w, ContextOf(isData, destination), fields, destination, v);
    case CollectionShape(_, item) =>
      if Iterate(v).Ok? {
        DirectDataItemsRaise(w, isData, item, fields, destination, Iterate(v).value);
      }
    case MappingShape(_, key, _) =>
      if Items(v).Ok? {
        var items := Items(v).value;
        DirectDataItemsRaise(w, isData, key, fields, destination, ValuesOf(items));
        DirectPairsRejoined(w, isData, key, fields, destination, items);
      }
  }

  lemma {:induction false} DirectDataItemsRaise(
    w: World, isData: bool, s: Shape, fields: seq<Field>, destination: Destination, items: seq<Value>)
    requires Free(w)
    ensures RaisesMisread(DirectDataItems(w, isData, s, fields, destination, items))
    decreases s, 1, |items|
  {
    if items != [] {
      DirectDataRaises(w, isData, s, fields, destination, items[0]);
      DirectDataItemsRaise(w, isData, s, fields, destination, items[1..]);
    }
  }

  // ----- the exact condition -----

  /** Classes and sources that the theorem speaks of. */
  ghost predicate Comparable(
    w: World, isData: bool, s: Shape, fields: seq<Field>, destination: Destination, v: Value)
  {
    Free(w) && Apart(w, destination) && DataConforms(w, isData, s, fields, destination, v)
  }

  /** Both readings take the source for the same, and all that is read is there and transferred alike. */
  predicate Agreeable(w: World, isData: bool, s: Shape, fields: seq<Field>, destination: Destination, v: Value) {
    ReadsAsOn(s, s, v) && DataFaithful(w, isData, s, fields, destination, v)
  }

  /** Both fail on return data: the interpreter on an absent attribute, generated code on what it takes for a mapping. */
  predicate BothFail(w: World, isData: bool, s: Shape, fields: seq<Field>, destination: Destination, v: Value) {
    && !isData && !ReadsAsOn(s, s, v) && !DataFaithful(w, isData, s, fields, destination, v)
    && DirectData(w, isData, s, fields, destination, v) == Err(AttributeError)
    && TransferData(w, isData, s, fields, destination, v) == Err(AttributeError)
  }

  lemma {:induction false} DataAgreesIff(
    w: World, isData: bool, s: Shape, fields: seq<Field>, destination: Destination, v: Value)
    requires InstanceGenerates(ContextOf(isData, destination), fields, 0) && Proper(fields)
    requires Comparable(w, isData, s, fields, destination, v)
    ensures DirectData(w, isData, s, fields, destination, v) == TransferData(w, isData, s, fields, destination, v)
       <==> Agreeable(w, isData, s, fields, destination, v) || BothFail(w, isData, s, fields, destination, v)
    ensures ReadsAsOn(s, s, v) ==> DirectData(w, isData, s, fields, destination, v).Ok?
  {
    if ReadsAsOn(s, s, v) {
      DataExact(w, isData, s, s, fields, destination, v);
    } else if TransferData(w, isData, s, fields, destination, v).Ok? {
      DataDiffers(w, isData, s, s, fields, destination, v);
    } else {
      if DataFaithful(w, isData, s, fields, destination, v) {
        FaithfulReturns(w, isData, s, fields, destination, v);
      }
      TransferDataRaises(w, isData, s, fields, destination, v);
      DirectDataRaises(w, isData, s, fields, destination, v);
    }
  }

  /**
   Exactly when a generated function agrees with the interpreter: if and only if
   the condition on the source holds. There is one coincidence: return data that
   fails in both respects may raise AttributeError in both backends.
   */
  lemma {:induction false} AgreementIsExact(
    w: World, isData: bool, s: Shape, fields: seq<Field>, destination: Destination, v: Value)
    requires GenData(isData, s, fields, destination).Some? && Proper(fields)
    requires Comparable(w, isData, s, fields, destination, v)
    ensures Call(w, GenData(isData, s, fields, destination).value, v) == TransferData(w, isData, s, fields, destination, v)
       <==> Agreeable(w, isData, s, fields, destination, v) || BothFail(w, isData, s, fields, destination, v)
    ensures ReadsAsOn(s, s, v) ==> Call(w, GenData(isData, s, fields, destination).value, v).Ok?
  {
    DataDomain(isData, s, fields, destination);
    DataFunctionCorrect(w, isData, s, fields, destination, v);
    DataAgreesIff(w, isData, s, fields, destination, v);
  }

  // ----- classes of any kind -----

  lemma {:induction false} DataAlike(
    w: World, isData: bool, s: Shape, t: Shape, fields: seq<Field>, destination: Destination, v: Value)
    requires NoAccessErrors(w) && Proper(fields)
    requires ReadsAsOn(s, t, v) && DataFaithful(w, isData, t, fields, destination, v)
    ensures DirectData(w, isData, s, fields, destination, v) == TransferData(w, isData, t, fields, destination, v)
    decreases s, 0
  {
    match (s, t)
    case (PlainShape, PlainShape) => InstanceAlike(w, ContextOf(isData, destination), fields, destination, v);
    case (CollectionShape(_, item), CollectionShape(_, item')) =>
      if Iterate(v).Ok? {
        DataItemsAlike(w, isData, item, item', fields, destination, Iterate(v).value);
      }
    case (MappingShape(_, key, _), MappingShape(_, _, value)) =>
      if Items(v).Ok? {
        DataItemsAlike(w, isData, key, value, fields, destination, ValuesOf(Items(v).value));
        PairsEqual(w, isData, key, value, fields, destination, Items(v).value);
      }
  }

  lemma {:induction false} DataItemsAlike(
    w: World, isData: bool, s: Shape, t: Shape, fields: seq<Field>, destination: Destination, items: seq<Value>)
    requires NoAccessErrors(w) && Proper(fields)
    requires DataItemsFaithful(w, isData, t, fields, destination, items)
    requires forall x | x in items :: ReadsAsOn(s, t, x)
    ensures DirectDataItems(w, isData, s, fields, destination, items)
         == TransferDataItems(w, isData, t, fields, destination, items)
    decreases s, 1, |items|
  {
    if items != [] {
      DataAlike(w, isData, s, t, fields, destination, items[0]);
      DataItemsAlike(w, isData, s, t, fields, destination, items[1..]);
    }
  }

  /**
   The condition suffices for all classes that do not raise access errors, on any
   source, of the annotated kind or not: results and exceptions are equal.
   */
  lemma {:induction false} AgreeableSourcesAgree(
    w: World, isData: bool, s: Shape, fields: seq<Field>, destination: Destination, v: Value)
    requires GenData(isData, s, fields, destination).Some? && Proper(fields)
    requires NoAccessErrors(w) && Agreeable(w, isData, s, fields, destination, v)
    ensures Call(w, GenData(isData, s, fields, destination).value, v) == TransferData(w, isData, s, fields, destination, v)
  {
    DataFunctionCorrect(w, isData, s, fields, destination, v);
    DataAlike(w, isData, s, s, fields, destination, v);
  }

  // ----- annotations for which there are such sources -----

  /** A source that tells the readings apart: empty where their kinds or classes part, one item deep down to there. */
  function Telling(s: Shape, t: Shape): Value {
    match (s, t)
    case (CollectionShape(o, item), CollectionShape(o', item')) =>
      if o == o' then Sequence([Telling(item, item')]) else Sequence([])
    case (MappingShape(o, key, _), MappingShape(o', _, value)) =>
      if o == o' then Mapping([(Text(""), Telling(key, value))]) else Mapping([])
    case (MappingShape(_, _, _), PlainShape) => Mapping([])
    case (_, MappingShape(_, _, _)) => Mapping([])
    case _ => Sequence([])
  }

  lemma {:induction false} EmptyConforms(w: World, cx: Context, fields: seq<Field>, v: Value)
    requires v == Sequence([]) || v == Mapping([])
    ensures FieldsConform(w, cx, fields, v)
  {
    if fields != [] {
      EmptyConforms(w, cx, fields[1..], v);
    }
  }

  lemma {:induction false} SingleItem(
    w: World, isData: bool, s: Shape, t: Shape, fields: seq<Field>, destination: Destination, x: Value)
    requires DirectData(w, isData, s, fields, destination, x) != TransferData(w, isData, t, fields, destination, x)
    ensures DirectDataItems(w, isData, s, fields, destination, [x]) != TransferDataItems(w, isData, t, fields, destination, [x])
  {
    var d, i := DirectData(w, isData, s, fields, destination, x), TransferData(w, isData, t, fields, destination, x);
    assert [x][1..] == [];
    assert DirectDataItems(w, isData, s, fields, destination, [x]) == Cons(d, Ok([]));
    assert TransferDataItems(w, isData, t, fields, destination, [x]) == Cons(i, Ok([]));
    if d.Ok? && i.Ok? {
      assert ([d.value] + [])[0] == d.value && ([i.value] + [])[0] == i.value;
    }
  }

  lemma {:induction false} TellingTells(
    w: World, isData: bool, s: Shape, t: Shape, fields: seq<Field>, destination: Destination)
    requires Free(w) && Apart(w, destination) && !ReadsAs(s, t)
    ensures DataConforms(w, isData, t, fields, destination, Telling(s, t))
    ensures DirectData(w, isData, s, fields, destination, Telling(s, t))
         != TransferData(w, isData, t, fields, destination, Telling(s, t))
    decreases s
  {
    var v := Telling(s, t);
    match (s, t)
    case (CollectionShape(o, item), CollectionShape(o', item')) =>
      if o == o' {
        TellingTells(w, isData, item, item', fields, destination);
        SingleItem(w, isData, item, item', fields, destination, Telling(item, item'));
      }
      CollectionsDiffer(w, isData, s, t, fields, destination, v);
    case (MappingShape(o, key, _), MappingShape(o', _, value)) =>
      if o == o' {
        TellingTells(w, isData, key, value, fields, destination);
        SingleItem(w, isData, key, value, fields, destination, Telling(key, value));
        PairsEqual(w, isData, key, value, fields, destination, v.entries);
        assert ValuesOf(v.entries) == [Telling(key, value)];
      }
      MappingsDiffer(w, isData, s, t, fields, destination, v);
    case _ =>
      EmptyConforms(w, ContextOf(isData, destination), fields, v);
      KindsDiffer(w, isData, s, t, fields, destination, v);
  }

  /** An annotation with a mapping whose values are not read like its keys: the backends differ on this source. */
  lemma {:induction false} DifferentReadingsDiffer(
    w: World, isData: bool, s: Shape, fields: seq<Field>, destination: Destination)
    requires GenData(isData, s, fields, destination).Some?
    requires Free(w) && Apart(w, destination) && !ReadsAs(s, s)
    ensures DataConforms(w, isData, s, fields, destination, Telling(s, s))
    ensures Call(w, GenData(isData, s, fields, destination).value, Telling(s, s))
         != TransferData(w, isData, s, fields, destination, Telling(s, s))
  {
    DataFunctionCorrect(w, isData, s, fields, destination, Telling(s, s));
    TellingTells(w, isData, s, s, fields, destination);
  }
}
