/**
 Where the condition on the source holds the backends agree for any classes,
 whatever those merge, reject or return, as long as they do not raise the two
 exceptions that generated code catches.
 */
module FaithfulAgreement {
  import opened Outcomes
  import opened TransferTypes
  import opened TransferInterpreter
  import opened TransferCompiler
  import opened DirectMeaning
  import opened BackendAgreement
  import opened BackendDifference

  ghost predicate NoAccessErrors(w: World) {
    && (forall c, d :: w.construct(c, d).NoAccessError())
    && (forall c, v :: w.convert(c, v).NoAccessError())
    && (forall c, s :: w.collect(c, s).NoAccessError())
    && (forall c, d :: w.collectPairs(c, d).NoAccessError())
  }

  /** Equal results, and none that generated code would catch. */
  ghost predicate Alike<T(!new)>(direct: Outcome<T>, interpreted: Outcome<T>) {
    direct == interpreted && direct.NoAccessError()
  }

  lemma {:induction false} FieldAlike(w: World, cx: Context, f: Field, asDict: bool, v: Value, acc: Dict)
    requires NoAccessErrors(w) && ProperType(f.transferType)
    requires Relevant(cx, f) && FieldFaithful(w, cx, f, asDict, v)
    ensures Alike(DirectField(w, cx, f, v, acc), TransferField(w, cx.isData, f, asDict, v, acc))
    decreases f, 0
  {
    GetFieldFailsWithAccessError(v, f.name);
    match GetField(v, f.name)
    case Err(e) =>
      if !f.ExpectOptional() {
        AbsentSource(w, cx, f.transferType, cx.nestedAsDict, e);
      }
    case Ok(x) =>
      if !(cx.isData && f.isPartial && x.Unset?) {
        TypeAlike(w, cx, f.transferType, asDict, x);
      }
  }

  lemma {:induction false} FieldsAlike(
    w: World, cx: Context, fields: seq<Field>, asDict: bool, v: Value, acc: Dict)
    requires NoAccessErrors(w) && Proper(fields) && FieldsFaithful(w, cx, fields, asDict, v)
    ensures Alike(DirectFields(w, cx, fields, v, acc), TransferFields(w, cx.isData, fields, asDict, v, acc))
    decreases fields, 1
  {
    if fields != [] {
      if Relevant(cx, fields[0]) {
        FieldAlike(w, cx, fields[0], asDict, v, acc);
      }
      var r := TransferField(w, cx.isData, fields[0], asDict, v, acc);
      if r.Ok? {
        FieldsAlike(w, cx, fields[1..], asDict, v, r.value);
      }
    }
  }

  lemma {:induction false} InstanceAlike(
    w: World, cx: Context, fields: seq<Field>, destination: Destination, v: Value)
    requires NoAccessErrors(w) && Proper(fields)
    requires FieldsFaithful(w, cx, fields, destination.DictDestination?, v)
    ensures Alike(DirectInstance(w, cx, fields, destination, Ok(v)),
                  TransferInstance(w, cx.isData, fields, destination, v))
    decreases fields, 2
  {
    if RelevantFields(cx, fields) == [] {
      NoRelevantFields(w, cx, fields, destination.DictDestination?, v, []);
    } else {
      FieldsAlike(w, cx, fields, destination.DictDestination?, v, []);
    }
  }

  lemma {:induction false} TypeAlike(w: World, cx: Context, t: TransferType, asDict: bool, v: Value)
    requires NoAccessErrors(w) && ProperType(t) && TypeFaithful(w, cx, t, asDict, v)
    ensures Alike(DirectType(w, cx, t, cx.nestedAsDict, Ok(v)), TransferTyped(w, cx.isData, t, asDict, v))
    decreases t, 3
  {
    if IsNested(t) {
      InstanceAlike(w, cx, t.nested.value.fields, NestedDestination(t, asDict, cx.isData), v);
    } else if t.UnionType? && HasNested(t) {
      MembersAlike(w, cx, t.members, MixedUnion(t.members), v);
    } else if t.CollectionType? && HasNested(t) {
      if Iterate(v).Ok? {
        ItemsAlike(w, cx.isData, t.inner, Iterate(v).value);
      }
    } else if t.MappingType? && HasNested(t) {
      PairsAlike(w, cx.isData, t.value, Items(v).value);
    }
  }

  lemma {:induction false} ItemsAlike(w: World, isData: bool, t: TransferType, items: seq<Value>)
    requires NoAccessErrors(w) && ProperType(t) && ItemsFaithful(w, isData, t, items)
    ensures Alike(DirectItems(w, isData, t, items), TransferItems(w, isData, t, items))
    decreases t, 4, |items|
  {
    if items != [] {
      TypeAlike(w, Context(isData, false), t, false, items[0]);
      ItemsAlike(w, isData, t, items[1..]);
    }
  }

  lemma {:induction false} PairsAlike(w: World, isData: bool, t: TransferType, items: Dict)
    requires NoAccessErrors(w) && ProperType(t) && PairsFaithful(w, isData, t, items)
    ensures Alike(DirectPairs(w, isData, t, items), TransferPairs(w, isData, t, items))
    decreases t, 4, |items|
  {
    if items != [] {
      TypeAlike(w, Context(isData, false), t, false, items[0].1);
      PairsAlike(w, isData, t, items[1..]);
    }
  }

  /** A nested member decides in both backends, or none does and all are simple. */
  lemma {:induction false} MembersAlike(w: World, cx: Context, members: seq<TransferType>, mixed: bool, v: Value)
    requires NoAccessErrors(w) && (forall m | m in members :: ProperType(m))
    requires MembersFaithful(w, cx, members, mixed, v)
    ensures match DirectMembers(w, cx, members, mixed, v)
            case Some(r) => Alike(r, TransferUnion(w, cx.isData, members, v))
            case None => TransferUnion(w, cx.isData, members, v) == Ok(v) && CompositeCount(members) == 0
    decreases members, 1
  {
    if members != [] {
      var m := members[0];
      assert ProperType(m);
      if IsNested(m) && Fits(w, cx, m, v) {
        InstanceAlike(w, cx, m.nested.value.fields, MemberDestination(m, cx.isData), v);
      } else {
        MembersAlike(w, cx, members[1..], mixed, v);
      }
    }
  }
}
