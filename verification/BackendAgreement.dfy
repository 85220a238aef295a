/**
 The two backends compute the same. Their differences are all static, except
 one: generated code passes over a field that return data lacks, where the
 interpreter raises.
 */
module BackendAgreement {
  import opened Outcomes
  import opened TransferTypes
  import opened TransferInterpreter
  import opened GeneratedCode
  import opened TransferCompiler
  import opened DirectMeaning
  import opened CompilerCorrectness

  // ----- the trees on which the backends agree -----

  /** Generated code looks at the source of this type before it assigns anything. */
  predicate TouchesSource(cx: Context, t: TransferType) {
    IsNested(t) ==> RelevantFields(cx, t.nested.value.fields) != []
  }

  /** An absent field is noticed: by a test beforehand, or by the access that fails. */
  predicate Noticed(cx: Context, f: Field) {
    f.ExpectOptional() || TouchesSource(cx, f.transferType)
  }

  /** The union rules hold throughout the tree; `strict` adds that absent fields are noticed. */
  predicate FieldsSupported(cx: Context, strict: bool, fields: seq<Field>)
    decreases fields, 1
  {
    fields != [] ==>
      && (Relevant(cx, fields[0]) ==>
            (strict ==> Noticed(cx, fields[0])) && TypeSupported(cx, strict, fields[0].transferType))
      && FieldsSupported(cx, strict, fields[1..])
  }

  /** Unions have simple members only, nested ones with at least one field; below `dict` they nest no further. */
  predicate TypeSupported(cx: Context, strict: bool, t: TransferType)
    decreases t, 2
  {
    match t
    case SimpleType(_, _, nested) => nested.Some? ==> FieldsSupported(cx, strict, nested.value.fields)
    case UnionType(members) => HasNested(t) ==> MembersSupported(cx, strict, members)
    case CollectionType(_, inner) => TypeSupported(Context(cx.isData, false), strict, inner)
    case TupleType(_) => true
    case MappingType(_, _, value) => TypeSupported(Context(cx.isData, false), strict, value)
  }

  predicate MembersSupported(cx: Context, strict: bool, members: seq<TransferType>)
    decreases members, 1
  {
    members != [] ==>
      && MemberSupported(cx, strict, members[0])
      && MembersSupported(cx, strict, members[1..])
  }

  predicate MemberSupported(cx: Context, strict: bool, t: TransferType)
    decreases t, 0
  {
    && t.SimpleType?
    && (t.nested.Some? ==>
          && !t.isNoneType
          && t.nested.value.fields != []
          && FieldsSupported(cx, strict, t.nested.value.fields)
          && (cx.nestedAsDict ==> NoneNested(cx, t.nested.value.fields)))
  }

  predicate NoneNested(cx: Context, fields: seq<Field>) {
    forall f | f in fields :: Relevant(cx, f) ==> !IsNested(f.transferType)
  }

  // ----- agreement -----

  lemma {:induction false} FieldAgrees(w: World, cx: Context, f: Field, asDict: bool, v: Value, acc: Dict)
    requires Relevant(cx, f) && Noticed(cx, f) && TypeSupported(cx, true, f.transferType)
    requires asDict == cx.nestedAsDict || !IsNested(f.transferType)
    requires TransferField(w, cx.isData, f, asDict, v, acc).NoAccessError()
    ensures DirectField(w, cx, f, v, acc) == TransferField(w, cx.isData, f, asDict, v, acc)
    decreases f, 0
  {
    var read := GetField(v, f.name);
    GetFieldFailsWithAccessError(v, f.name);
    if read.Err? {
      if !f.ExpectOptional() {
        AbsentSource(w, cx, f.transferType, cx.nestedAsDict, read.error);
      }
    } else if !(f.isPartial && cx.isData && read.value.Unset?) {
      TypeAgrees(w, cx, f.transferType, asDict, read.value);
    }
  }

  /** The access error of an absent field is what leaves the block that transfers it. */
  lemma {:induction false} AbsentSource(w: World, cx: Context, t: TransferType, asDict: bool, e: Error)
    requires TouchesSource(cx, t)
    ensures DirectType(w, cx, t, asDict, Err(e)) == Err(e)
  {
    if IsNested(t) {
      assert DirectReads(w, cx, t.nested.value.fields, Err(e)) == Err(e);
    }
  }

  lemma {:induction false} FieldsAgree(w: World, cx: Context, fields: seq<Field>, asDict: bool, v: Value, acc: Dict)
    requires FieldsSupported(cx, true, fields)
    requires asDict == cx.nestedAsDict || NoneNested(cx, fields)
    requires TransferFields(w, cx.isData, fields, asDict, v, acc).NoAccessError()
    ensures DirectFields(w, cx, fields, v, acc) == TransferFields(w, cx.isData, fields, asDict, v, acc)
    decreases fields, 1
  {
    if fields != [] {
      if Relevant(cx, fields[0]) {
        FieldAgrees(w, cx, fields[0], asDict, v, acc);
      }
      var r := TransferField(w, cx.isData, fields[0], asDict, v, acc);
      if r.Ok? {
        FieldsAgree(w, cx, fields[1..], asDict, v, r.value);
      }
    }
  }

  lemma {:induction false} NoRelevantFields(
    w: World, cx: Context, fields: seq<Field>, asDict: bool, v: Value, acc: Dict)
    requires RelevantFields(cx, fields) == []
    ensures TransferFields(w, cx.isData, fields, asDict, v, acc) == Ok(acc)
    decreases fields
  {
    if fields != [] {
      NoRelevantFields(w, cx, fields[1..], asDict, v, acc);
    }
  }

  lemma {:induction false} InstanceAgrees(
    w: World, cx: Context, fields: seq<Field>, destination: Destination, v: Value)
    requires FieldsSupported(cx, true, fields)
    requires destination.DictDestination? == cx.nestedAsDict || NoneNested(cx, fields)
    requires TransferInstance(w, cx.isData, fields, destination, v).NoAccessError()
    ensures DirectInstance(w, cx, fields, destination, Ok(v)) == TransferInstance(w, cx.isData, fields, destination, v)
    decreases fields, 2
  {
    if RelevantFields(cx, fields) == [] {
      NoRelevantFields(w, cx, fields, destination.DictDestination?, v, []);
    } else {
      FieldsAgree(w, cx, fields, destination.DictDestination?, v, []);
    }
  }

  lemma {:induction false} TypeAgrees(w: World, cx: Context, t: TransferType, asDict: bool, v: Value)
    requires TypeSupported(cx, true, t)
    requires asDict == cx.nestedAsDict || !IsNested(t)
    requires TransferTyped(w, cx.isData, t, asDict, v).NoAccessError()
    ensures DirectType(w, cx, t, cx.nestedAsDict, Ok(v)) == TransferTyped(w, cx.isData, t, asDict, v)
    decreases t, 3
  {
    if IsNested(t) {
      InstanceAgrees(w, cx, t.nested.value.fields, NestedDestination(t, asDict, cx.isData), v);
    } else if t.UnionType? && HasNested(t) {
      SimpleMembers(cx, true, t.members);
      UnionAgrees(w, cx, t.members, v);
    } else if t.CollectionType? && HasNested(t) {
      if Iterate(v).Ok? {
        ItemsAgree(w, cx.isData, t.inner, Iterate(v).value);
      }
    } else if t.MappingType? && HasNested(t) {
      if Items(v).Ok? {
        PairsAgree(w, cx.isData, t.value, Items(v).value);
      }
    }
  }

  lemma {:induction false} ItemsAgree(w: World, isData: bool, t: TransferType, items: seq<Value>)
    requires TypeSupported(Context(isData, false), true, t)
    requires TransferItems(w, isData, t, items).NoAccessError()
    ensures DirectItems(w, isData, t, items) == TransferItems(w, isData, t, items)
    decreases t, 4, |items|
  {
    if items != [] {
      TypeAgrees(w, Context(isData, false), t, false, items[0]);
      if TransferTyped(w, isData, t, false, items[0]).Ok? {
        ItemsAgree(w, isData, t, items[1..]);
      }
    }
  }

  lemma {:induction false} PairsAgree(w: World, isData: bool, t: TransferType, items: Dict)
    requires TypeSupported(Context(isData, false), true, t)
    requires TransferPairs(w, isData, t, items).NoAccessError()
    ensures DirectPairs(w, isData, t, items) == TransferPairs(w, isData, t, items)
    decreases t, 4, |items|
  {
    if items != [] {
      TypeAgrees(w, Context(isData, false), t, false, items[0].1);
      if TransferTyped(w, isData, t, false, items[0].1).Ok? {
        PairsAgree(w, isData, t, items[1..]);
      }
    }
  }

  lemma {:induction false} SimpleMembers(cx: Context, strict: bool, members: seq<TransferType>)
    requires MembersSupported(cx, strict, members)
    ensures CompositeCount(members) == 0
    decreases members
  {
    if members != [] {
      SimpleMembers(cx, strict, members[1..]);
    }
  }

  lemma {:induction false} UnionAgrees(w: World, cx: Context, members: seq<TransferType>, v: Value)
    requires MembersSupported(cx, true, members)
    requires TransferUnion(w, cx.isData, members, v).NoAccessError()
    ensures (match DirectMembers(w, cx, members, false, v) case Some(r) => r case None => Ok(v))
         == TransferUnion(w, cx.isData, members, v)
    decreases members, 1
  {
    if members != [] {
      if Tested(members[0], false) && Fits(w, cx, members[0], v) {
        InstanceAgrees(w, cx, members[0].nested.value.fields, MemberDestination(members[0], cx.isData), v);
      } else {
        UnionAgrees(w, cx, members[1..], v);
      }
    }
  }

  // ----- the whole transfer -----

  /** The shape by which generated code reads its source: mapping values are read like keys. */
  function ReadByKey(s: Shape): Shape {
    match s
    case PlainShape => PlainShape
    case CollectionShape(origin, item) => CollectionShape(origin, ReadByKey(item))
    case MappingShape(origin, key, _) => MappingShape(origin, key, ReadByKey(key))
  }

  lemma {:induction false} DataAgrees(
    w: World, isData: bool, s: Shape, fields: seq<Field>, destination: Destination, v: Value)
    requires FieldsSupported(Context(isData, destination.DictDestination?), true, fields)
    requires TransferData(w, isData, ReadByKey(s), fields, destination, v).NoAccessError()
    ensures DirectData(w, isData, s, fields, destination, v)
         == TransferData(w, isData, ReadByKey(s), fields, destination, v)
    decreases s, 0
  {
    match s
    case PlainShape =>
      InstanceAgrees(w, Context(isData, destination.DictDestination?), fields, destination, v);
    case CollectionShape(_, item) =>
      if Iterate(v).Ok? {
        DataItemsAgree(w, isData, item, fields, destination, Iterate(v).value);
      }
    case MappingShape(_, key, _) =>
      if Items(v).Ok? {
        DataPairsAgree(w, isData, key, fields, destination, Items(v).value);
      }
  }

  lemma {:induction false} DataItemsAgree(
    w: World, isData: bool, s: Shape, fields: seq<Field>, destination: Destination, items: seq<Value>)
    requires FieldsSupported(Context(isData, destination.DictDestination?), true, fields)
    requires TransferDataItems(w, isData, ReadByKey(s), fields, destination, items).NoAccessError()
    ensures DirectDataItems(w, isData, s, fields, destination, items)
         == TransferDataItems(w, isData, ReadByKey(s), fields, destination, items)
    decreases s, 1, |items|
  {
    if items != [] {
      DataAgrees(w, isData, s, fields, destination, items[0]);
      if TransferData(w, isData, ReadByKey(s), fields, destination, items[0]).Ok? {
        DataItemsAgree(w, isData, s, fields, destination, items[1..]);
      }
    }
  }

  lemma {:induction false} DataPairsAgree(
    w: World, isData: bool, s: Shape, fields: seq<Field>, destination: Destination, items: Dict)
    requires FieldsSupported(Context(isData, destination.DictDestination?), true, fields)
    requires TransferDataPairs(w, isData, ReadByKey(s), fields, destination, items).NoAccessError()
    ensures DirectDataPairs(w, isData, s, fields, destination, items)
         == TransferDataPairs(w, isData, ReadByKey(s), fields, destination, items)
    decreases s, 1, |items|
  {
    if items != [] {
      DataAgrees(w, isData, s, fields, destination, items[0].1);
      if TransferData(w, isData, ReadByKey(s), fields, destination, items[0].1).Ok? {
        DataPairsAgree(w, isData, s, fields, destination, items[1..]);
      }
    }
  }

  /**
   The generated function gives what the interpreter gives, values and
   exceptions alike, for every supported tree and every source on which no
   field access of the interpreter fails. Mappings in the annotation must read
   their keys like their values.
   */
  lemma {:induction false} GeneratedCodeRefinesInterpreter(
    w: World, isData: bool, s: Shape, fields: seq<Field>, destination: Destination, v: Value)
    requires ReadByKey(s) == s && FieldsSupported(Context(isData, destination.DictDestination?), true, fields)
    requires GenData(isData, s, fields, destination).Some?
    requires TransferData(w, isData, s, fields, destination, v).NoAccessError()
    ensures Call(w, GenData(isData, s, fields, destination).value, v)
         == TransferData(w, isData, s, fields, destination, v)
  {
    GeneratedCodeReadsByKey(w, isData, s, fields, destination, v);
  }

  /** Whatever the annotation, generated code is the interpreter at the shape that reads values like keys. */
  lemma {:induction false} GeneratedCodeReadsByKey(
    w: World, isData: bool, s: Shape, fields: seq<Field>, destination: Destination, v: Value)
    requires FieldsSupported(Context(isData, destination.DictDestination?), true, fields)
    requires GenData(isData, s, fields, destination).Some?
    requires TransferData(w, isData, ReadByKey(s), fields, destination, v).NoAccessError()
    ensures Call(w, GenData(isData, s, fields, destination).value, v)
         == TransferData(w, isData, ReadByKey(s), fields, destination, v)
  {
    DataFunctionCorrect(w, isData, s, fields, destination, v);
    DataAgrees(w, isData, s, fields, destination, v);
  }
}
