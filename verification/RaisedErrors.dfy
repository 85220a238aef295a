/**
 Which exceptions can leave a transfer when no class raises any: those of the
 interpreter come from absent fields and composite union members, those of
 generated code from values that are no collections or mappings.
 */
module RaisedErrors {
  import opened Outcomes
  import opened TransferTypes
  import opened TransferInterpreter
  import opened TransferCompiler
  import opened DirectMeaning
  import opened BackendDifference

  // ----- the interpreter, on sources of the annotated kind -----

  /** Only return data can lack a field, and only a composite union member makes incoming data fail. */
  predicate Interpreted(isData: bool, e: Error) {
    e.RuntimeError? || (!isData && e.IsAccess())
  }

  ghost predicate RaisesInterpreted<T(!new)>(isData: bool, r: Outcome<T>) {
    r.Err? ==> Interpreted(isData, r.error)
  }

  lemma {:induction false} TransferFieldRaises(w: World, cx: Context, f: Field, asDict: bool, v: Value, acc: Dict)
    requires Free(w) && ProperType(f.transferType)
    requires Relevant(cx, f) ==> FieldConforms(w, cx, f, GetField(v, f.name))
    ensures RaisesInterpreted(cx.isData, TransferField(w, cx.isData, f, asDict, v, acc))
    decreases f, 0
  {
    GetFieldFailsWithAccessError(v, f.name);
    if !Passed(f, cx.isData, v) && GetField(v, f.name).Ok? {
      var x := GetField(v, f.name).value;
      if !(f.isPartial && cx.isData && x.Unset?) {
        TransferTypedRaises(w, cx, f.transferType, asDict, x);
      }
    }
  }

  lemma {:induction false} TransferFieldsRaise(
    w: World, cx: Context, fields: seq<Field>, asDict: bool, v: Value, acc: Dict)
    requires Free(w) && Proper(fields) && FieldsConform(w, cx, fields, v)
    ensures RaisesInterpreted(cx.isData, TransferFields(w, cx.isData, fields, asDict, v, acc))
    decreases fields, 1
  {
    if fields != [] {
      TransferFieldRaises(w, cx, fields[0], asDict, v, acc);
      var r := TransferField(w, cx.isData, fields[0], asDict, v, acc);
      if r.Ok? {
        TransferFieldsRaise(w, cx, fields[1..], asDict, v, r.value);
      }
    }
  }

  lemma {:induction false} TransferInstanceRaises(
    w: World, cx: Context, fields: seq<Field>, destination: Destination, v: Value)
    requires Free(w) && Proper(fields) && FieldsConform(w, cx, fields, v)
    ensures RaisesInterpreted(cx.isData, TransferInstance(w, cx.isData, fields, destination, v))
    decreases fields, 2
  {
    TransferFieldsRaise(w, cx, fields, destination.DictDestination?, v, []);
  }

  lemma {:induction false} TransferTypedRaises(w: World, cx: Context, t: TransferType, asDict: bool, v: Value)
    requires Free(w) && ProperType(t) && TypeConforms(w, cx, t, v)
    ensures RaisesInterpreted(cx.isData, TransferTyped(w, cx.isData, t, asDict, v))
    decreases t, 3
  {
    if IsNested(t) {
      TransferInstanceRaises(w, cx, t.nested.value.fields, NestedDestination(t, asDict, cx.isData), v);
    } else if t.UnionType? && HasNested(t) {
      TransferUnionRaises(w, cx, t.members, v);
    } else if t.CollectionType? && HasNested(t) {
      TransferItemsRaise(w, cx.isData, t.inner, Iterate(v).value);
    } else if t.MappingType? && HasNested(t) {
      TransferPairsRaise(w, cx.isData, t.value, Items(v).value);
    }
  }

  lemma {:induction false} TransferItemsRaise(w: World, isData: bool, t: TransferType, items: seq<Value>)
    requires Free(w) && ProperType(t) && forall x | x in items :: TypeConforms(w, Context(isData, false), t, x)
    ensures RaisesInterpreted(isData, TransferItems(w, isData, t, items))
    decreases t, 4, |items|
  {
    if items != [] {
      TransferTypedRaises(w, Context(isData, false), t, false, items[0]);
      TransferItemsRaise(w, isData, t, items[1..]);
    }
  }

  lemma {:induction false} TransferPairsRaise(w: World, isData: bool, t: TransferType, items: Dict)
    requires Free(w) && ProperType(t) && forall x | x in items :: TypeConforms(w, Context(isData, false), t, x.1)
    ensures RaisesInterpreted(isData, TransferPairs(w, isData, t, items))
    decreases t, 4, |items|
  {
    if items != [] {
      TransferTypedRaises(w, Context(isData, false), t, false, items[0].1);
      TransferPairsRaise(w, isData, t, items[1..]);
    }
  }

  lemma {:induction false} TransferUnionRaises(w: World, cx: Context, members: seq<TransferType>, v: Value)
    requires Free(w) && MembersConform(w, cx, members, v) && forall m | m in members :: ProperType(m)
    ensures RaisesInterpreted(cx.isData, TransferUnion(w, cx.isData, members, v))
    decreases members, 1
  {
    if members != [] && members[0].SimpleType? {
      var m := members[0];
      assert ProperType(m);
      if IsNested(m) && Fits(w, cx, m, v) {
        TransferInstanceRaises(w, cx, m.nested.value.fields, MemberDestination(m, cx.isData), v);
      } else {
        TransferUnionRaises(w, cx, members[1..], v);
      }
    }
  }

  // ----- generated code, on any source -----

  /** A value that is no collection, or no mapping. */
  predicate Misread(e: Error) {
    e.TypeError? || e.AttributeError?
  }

  ghost predicate RaisesMisread<T(!new)>(r: Outcome<T>) {
    r.Err? ==> Misread(r.error)
  }

  lemma {:induction false} DirectFieldRaises(w: World, cx: Context, f: Field, v: Value, acc: Dict)
    requires Free(w)
    ensures RaisesMisread(DirectField(w, cx, f, v, acc))
    decreases f, 0
  {
    var read := GetField(v, f.name);
    GetFieldFailsWithAccessError(v, f.name);
    if read.Ok? {
      DirectTypeRaises(w, cx, f.transferType, cx.nestedAsDict, read.value);
    } else if !f.ExpectOptional() {
      DirectTypeUnread(w, cx, f.transferType, cx.nestedAsDict, read.error);
    }
  }

  /** The access error of an absent field is all that can leave its block. */
  lemma {:induction false} DirectTypeUnread(w: World, cx: Context, t: TransferType, asDict: bool, e: Error)
    requires Free(w)
    ensures DirectType(w, cx, t, asDict, Err(e)).Ok? || DirectType(w, cx, t, asDict, Err(e)) == Err(e)
  {
    if IsNested(t) {
      var r := DirectReads(w, cx, t.nested.value.fields, Err(e));
      assert r == Ok([]) || r == Err(e);
    }
  }

  lemma {:induction false} DirectFieldsRaise(w: World, cx: Context, fields: seq<Field>, v: Value, acc: Dict)
    requires Free(w)
    ensures RaisesMisread(DirectFields(w, cx, fields, v, acc))
    decreases fields, 1
  {
    if fields != [] {
      if !Relevant(cx, fields[0]) {
        DirectFieldsRaise(w, cx, fields[1..], v, acc);
      } else {
        DirectFieldRaises(w, cx, fields[0], v, acc);
        var r := DirectField(w, cx, fields[0], v, acc);
        if r.Ok? {
          DirectFieldsRaise(w, cx, fields[1..], v, r.value);
        }
      }
    }
  }

  lemma {:induction false} DirectInstanceRaises(
    w: World, cx: Context, fields: seq<Field>, destination: Destination, v: Value)
    requires Free(w)
    ensures RaisesMisread(DirectInstance(w, cx, fields, destination, Ok(v)))
    decreases fields, 2
  {
    DirectFieldsRaise(w, cx, fields, v, []);
  }

  lemma {:induction false} DirectTypeRaises(w: World, cx: Context, t: TransferType, asDict: bool, v: Value)
    requires Free(w)
    ensures RaisesMisread(DirectType(w, cx, t, asDict, Ok(v)))
    decreases t, 3
  {
    if IsNested(t) {
      DirectInstanceRaises(w, cx, t.nested.value.fields, NestedDestination(t, asDict, cx.isData), v);
    } else if t.UnionType? && HasNested(t) {
      DirectMembersRaise(w, cx, t.members, MixedUnion(t.members), v);
      if MixedUnion(t.members) {
        DirectTypeRaises(w, cx, t.members[CompositeIndex(t.members)], false, v);
      }
    } else if t.CollectionType? && HasNested(t) && Iterate(v).Ok? {
      DirectItemsRaise(w, cx.isData, t.inner, Iterate(v).value);
    } else if t.MappingType? && HasNested(t) && Items(v).Ok? {
      DirectPairsRaise(w, cx.isData, t.value, Items(v).value);
    }
  }

  lemma {:induction false} DirectItemsRaise(w: World, isData: bool, t: TransferType, items: seq<Value>)
    requires Free(w)
    ensures RaisesMisread(DirectItems(w, isData, t, items))
    decreases t, 4, |items|
  {
    if items != [] {
      DirectTypeRaises(w, Context(isData, false), t, false, items[0]);
      DirectItemsRaise(w, isData, t, items[1..]);
    }
  }

  lemma {:induction false} DirectPairsRaise(w: World, isData: bool, t: TransferType, items: Dict)
    requires Free(w)
    ensures RaisesMisread(DirectPairs(w, isData, t, items))
    decreases t, 4, |items|
  {
    if items != [] {
      DirectTypeRaises(w, Context(isData, false), t, false, items[0].1);
      DirectPairsRaise(w, isData, t, items[1..]);
    }
  }

  lemma {:induction false} DirectMembersRaise(
    w: World, cx: Context, members: seq<TransferType>, all: bool, v: Value)
    requires Free(w)
    ensures var r := DirectMembers(w, cx, members, all, v); r.Some? ==> RaisesMisread(r.value)
    decreases members, 1
  {
    if members != [] {
      var m := members[0];
      if Rebuilt(m) {
        DirectInstanceRaises(w, cx, m.nested.value.fields, MemberDestination(m, cx.isData), v);
      }
      DirectMembersRaise(w, cx, members[1..], all, v);
    }
  }
}
