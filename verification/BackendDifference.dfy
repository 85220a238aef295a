/**
 Exactly when the backends agree. For classes that never raise and that tell
 their arguments apart, and for every source of the annotated kind, the
 transfers are equal if and only if a condition on the source holds, which says
 of each field, union member and nesting what makes the backends part there.
 */
module BackendDifference {
  import opened Outcomes
  import opened TransferTypes
  import opened TransferInterpreter
  import opened GeneratedCode
  import opened TransferCompiler
  import opened DirectMeaning
  import opened CompilerCorrectness
  import opened GenerationDomain
  import opened BackendAgreement

  /** No constructor raises, different arguments make different objects, and no model is built as a plain `dict`. */
  ghost predicate Free(w: World) {
    && (forall c, d :: w.construct(c, d).Ok? && !w.construct(c, d).value.Mapping?)
    && (forall c, v :: w.convert(c, v).Ok?)
    && (forall c, s :: w.collect(c, s).Ok?)
    && (forall c, d :: w.collectPairs(c, d).Ok?)
    && (forall c, d, d' :: w.construct(c, d) == w.construct(c, d') ==> d == d')
    && (forall c, s, s' :: w.collect(c, s) == w.collect(c, s') ==> s == s')
    && (forall c, d, d' :: w.collectPairs(c, d) == w.collectPairs(c, d') ==> d == d')
  }

  /** What is built during a transfer is a new object, so that it is not the value transferred. */
  ghost predicate NotMade(w: World, v: Value) {
    forall c, d :: w.construct(c, d) != Ok(v)
  }

  // ----- sources of the annotated kind -----

  ghost predicate FieldsConform(w: World, cx: Context, fields: seq<Field>, v: Value)
    decreases fields, 1
  {
    fields != [] ==>
      && (Relevant(cx, fields[0]) ==> FieldConforms(w, cx, fields[0], GetField(v, fields[0].name)))
      && FieldsConform(w, cx, fields[1..], v)
  }

  ghost predicate FieldConforms(w: World, cx: Context, f: Field, read: Outcome<Value>)
    decreases f, 0
  {
    read.Ok? && !(cx.isData && f.isPartial && read.value.Unset?) ==> TypeConforms(w, cx, f.transferType, read.value)
  }

  ghost predicate TypeConforms(w: World, cx: Context, t: TransferType, v: Value)
    decreases t, 1
  {
    if IsNested(t) then FieldsConform(w, cx, t.nested.value.fields, v)
    else if t.UnionType? && HasNested(t) then
      && NotMade(w, v)
      && MembersConform(w, cx, t.members, v)
      && (NoneFits(w, cx, t.members, v) ==> forall m | m in t.members && !m.SimpleType? :: TypeConforms(w, cx, m, v))
    else if t.CollectionType? && HasNested(t) then
      Iterate(v).Ok? && forall x | x in Iterate(v).value :: TypeConforms(w, Context(cx.isData, false), t.inner, x)
    else if t.MappingType? && HasNested(t) then
      Items(v).Ok? && forall x | x in Items(v).value :: TypeConforms(w, Context(cx.isData, false), t.value, x.1)
    else true
  }

  predicate NoneFits(w: World, cx: Context, members: seq<TransferType>, v: Value) {
    forall m | m in members && m.SimpleType? :: !Fits(w, cx, m, v)
  }

  ghost predicate MembersConform(w: World, cx: Context, members: seq<TransferType>, v: Value)
    decreases members, 0
  {
    members != [] ==>
      && (IsNested(members[0]) && Fits(w, cx, members[0], v) ==>
            FieldsConform(w, cx, members[0].nested.value.fields, v))
      && MembersConform(w, cx, members[1..], v)
  }

  // ----- trees that models are parsed to -----

  /** No model in the tree has two fields of one name, and `None` is no model. */
  predicate Proper(fields: seq<Field>)
    decreases fields, 1
  {
    fields != [] ==>
      && (forall f | f in fields[1..] :: f.name != fields[0].name)
      && ProperType(fields[0].transferType)
      && Proper(fields[1..])
  }

  predicate ProperType(t: TransferType)
    decreases t, 1
  {
    match t
    case SimpleType(_, isNoneType, nested) => nested.Some? ==> !isNoneType && Proper(nested.value.fields)
    case UnionType(members) => forall m | m in members :: ProperType(m)
    case CollectionType(_, inner) => ProperType(inner)
    case TupleType(_) => true
    case MappingType(_, _, value) => ProperType(value)
  }

  // ----- the condition -----

  /** `asDict` says whether the interpreter builds nested models as dicts; generated code does if the context says so. */
  predicate FieldsFaithful(w: World, cx: Context, fields: seq<Field>, asDict: bool, v: Value)
    decreases fields, 1
  {
    fields != [] ==>
      && (Relevant(cx, fields[0]) ==> FieldFaithful(w, cx, fields[0], asDict, v))
      && FieldsFaithful(w, cx, fields[1..], asDict, v)
  }

  /** A field is there; only for incoming data may it be absent, provided that generated code notices. */
  predicate FieldFaithful(w: World, cx: Context, f: Field, asDict: bool, v: Value)
    decreases f, 0
  {
    match GetField(v, f.name)
    case Err(_) => cx.isData && Noticed(cx, f)
    case Ok(x) => (cx.isData && f.isPartial && x.Unset?) || TypeFaithful(w, cx, f.transferType, asDict, x)
  }

  predicate TypeFaithful(w: World, cx: Context, t: TransferType, asDict: bool, v: Value)
    decreases t, 1
  {
    if IsNested(t) then asDict == cx.nestedAsDict && FieldsFaithful(w, cx, t.nested.value.fields, asDict, v)
    else if t.UnionType? && HasNested(t) then MembersFaithful(w, cx, t.members, MixedUnion(t.members), v)
    else if t.CollectionType? && HasNested(t) && Iterate(v).Ok? then
      ItemsFaithful(w, cx.isData, t.inner, Iterate(v).value)
    else if t.MappingType? && HasNested(t) then
      Items(v).Ok? && PairsFaithful(w, cx.isData, t.value, Items(v).value)
    else true
  }

  predicate ItemsFaithful(w: World, isData: bool, t: TransferType, items: seq<Value>)
    decreases t, 2
  {
    forall x | x in items :: TypeFaithful(w, Context(isData, false), t, false, x)
  }

  predicate PairsFaithful(w: World, isData: bool, t: TransferType, items: Dict)
    decreases t, 2
  {
    forall x | x in items :: TypeFaithful(w, Context(isData, false), t, false, x.1)
  }

  /**
   The member that decides is a nested one with fields: ahead of it there is no
   composite member, none without fields that fits, and, in a union with a
   composite member, no plain one that fits. Or none decides, and there is no
   composite member.
   */
  predicate MembersFaithful(w: World, cx: Context, members: seq<TransferType>, mixed: bool, v: Value)
    decreases members, 0
  {
    members != [] ==>
      var m := members[0];
      if !m.SimpleType? then false
      else if m.nested.Some? && Fits(w, cx, m, v) then
        m.nested.value.fields != [] && FieldsFaithful(w, cx, m.nested.value.fields, false, v)
      else !(mixed && Fits(w, cx, m, v)) && MembersFaithful(w, cx, members[1..], mixed, v)
  }

  // ----- dicts grow at their end -----

  predicate Lacks(d: Dict, name: string) {
    forall x | x in d :: x.0 != Text(name)
  }

  lemma {:induction false} PutNew(d: Dict, name: string, v: Value)
    requires Lacks(d, name)
    ensures Put(d, Text(name), v) == d + [(Text(name), v)]
  {
    if d != [] {
      PutNew(d[1..], name, v);
    }
  }

  lemma {:induction false} PutNewAny(d: Dict, name: string)
    requires Lacks(d, name)
    ensures forall v :: Put(d, Text(name), v) == d + [(Text(name), v)]
  {
    forall v
      ensures Put(d, Text(name), v) == d + [(Text(name), v)]
    {
      PutNew(d, name, v);
    }
  }

  /** What one field adds to a dict that lacks it. */
  ghost predicate Adds(r: Outcome<Dict>, name: string) {
    r.Ok? ==> r.value == [] || exists x :: r.value == [(Text(name), x)]
  }

  function Append(acc: Dict, r: Outcome<Dict>): Outcome<Dict> {
    match r case Ok(d) => Ok(acc + d) case Err(e) => Err(e)
  }

  lemma {:induction false} AppendTwice(acc: Dict, d: Dict, r: Outcome<Dict>)
    ensures Append(acc, Append(d, r)) == Append(acc + d, r)
  {
    if r.Ok? {
      assert acc + (d + r.value) == (acc + d) + r.value;
    }
  }

  lemma {:induction false} DirectFieldAppends(w: World, cx: Context, f: Field, v: Value, acc: Dict)
    requires Lacks(acc, f.name)
    ensures DirectField(w, cx, f, v, acc) == Append(acc, DirectField(w, cx, f, v, []))
    ensures Adds(DirectField(w, cx, f, v, []), f.name)
  {
    assert acc + [] == acc;
    PutNewAny(acc, f.name);
    PutNewAny([], f.name);
  }

  lemma {:induction false} TransferFieldAppends(w: World, isData: bool, f: Field, asDict: bool, v: Value, acc: Dict)
    requires Lacks(acc, f.name)
    ensures TransferField(w, isData, f, asDict, v, acc) == Append(acc, TransferField(w, isData, f, asDict, v, []))
    ensures Adds(TransferField(w, isData, f, asDict, v, []), f.name)
  {
    assert acc + [] == acc;
    PutNewAny(acc, f.name);
    PutNewAny([], f.name);
  }

  predicate LacksAll(d: Dict, fields: seq<Field>) {
    forall f | f in fields :: Lacks(d, f.name)
  }

  lemma {:induction false} DirectFieldsAppend(w: World, cx: Context, fields: seq<Field>, v: Value, acc: Dict)
    requires Proper(fields) && LacksAll(acc, fields)
    ensures DirectFields(w, cx, fields, v, acc) == Append(acc, DirectFields(w, cx, fields, v, []))
    decreases fields
  {
    assert acc + [] == acc;
    if fields != [] {
      var f := fields[0];
      if !Relevant(cx, f) {
        DirectFieldsAppend(w, cx, fields[1..], v, acc);
      } else {
        DirectFieldAppends(w, cx, f, v, acc);
        var r := DirectField(w, cx, f, v, []);
        if r.Ok? {
          assert LacksAll(acc + r.value, fields[1..]) && LacksAll(r.value, fields[1..]);
          DirectFieldsAppend(w, cx, fields[1..], v, acc + r.value);
          DirectFieldsAppend(w, cx, fields[1..], v, r.value);
          AppendTwice(acc, r.value, DirectFields(w, cx, fields[1..], v, []));
        }
      }
    }
  }

  lemma {:induction false} TransferFieldsAppend(
    w: World, isData: bool, fields: seq<Field>, asDict: bool, v: Value, acc: Dict)
    requires Proper(fields) && LacksAll(acc, fields)
    ensures TransferFields(w, isData, fields, asDict, v, acc)
         == Append(acc, TransferFields(w, isData, fields, asDict, v, []))
    decreases fields
  {
    assert acc + [] == acc;
    if fields != [] {
      TransferFieldAppends(w, isData, fields[0], asDict, v, acc);
      var r := TransferField(w, isData, fields[0], asDict, v, []);
      if r.Ok? {
        assert LacksAll(acc + r.value, fields[1..]) && LacksAll(r.value, fields[1..]);
        TransferFieldsAppend(w, isData, fields[1..], asDict, v, acc + r.value);
        TransferFieldsAppend(w, isData, fields[1..], asDict, v, r.value);
        AppendTwice(acc, r.value, TransferFields(w, isData, fields[1..], asDict, v, []));
      }
    }
  }

  // ----- exactness -----

  /** Generated code returns, and returns what the interpreter does if and only if `faithful`. */
  ghost predicate Exact<T>(direct: Outcome<T>, interpreted: Outcome<T>, faithful: bool) {
    direct.Ok? && (direct == interpreted <==> faithful)
  }

  /** An absent field: only an empty model may slip in, where the interpreter adds nothing or raises. */
  lemma {:induction false} AbsentFieldExact(w: World, cx: Context, f: Field, asDict: bool, v: Value)
    requires Free(w) && Relevant(cx, f) && GetField(v, f.name).Err?
    ensures Exact(DirectField(w, cx, f, v, []), TransferField(w, cx.isData, f, asDict, v, []),
                  cx.isData && Noticed(cx, f))
  {
    GetFieldFailsWithAccessError(v, f.name);
    var e := GetField(v, f.name).error;
    if !Noticed(cx, f) {
      var built := Build(w, NestedDestination(f.transferType, cx.nestedAsDict, cx.isData), []);
      assert DirectReads(w, cx, f.transferType.nested.value.fields, Err(e)) == Ok([]);
      assert DirectType(w, cx, f.transferType, cx.nestedAsDict, Err(e)) == built && built.Ok?;
      assert DirectBlock(w, cx, f, Err(e), []) == Ok(Put([], Text(f.name), built.value));
      assert DirectField(w, cx, f, v, []) == Ok([(Text(f.name), built.value)]);
    } else if !f.ExpectOptional() {
      AbsentSource(w, cx, f.transferType, cx.nestedAsDict, e);
    }
  }

  /** An absent field that is partial or annotated with `None` is passed over by generated code, whatever its type. */
  lemma {:induction false} AbsentOptionalField(w: World, cx: Context, f: Field, v: Value, acc: Dict)
    requires GetField(v, f.name).Err? && (f.isPartial || f.isOptional)
    ensures DirectField(w, cx, f, v, acc) == Ok(acc)
  {
  }

  lemma {:induction false} FieldExact(w: World, cx: Context, f: Field, asDict: bool, level: nat, v: Value)
    requires Free(w) && Relevant(cx, f) && TypeGenerates(cx, f.transferType, level) && ProperType(f.transferType)
    requires FieldConforms(w, cx, f, GetField(v, f.name))
    ensures Exact(DirectField(w, cx, f, v, []), TransferField(w, cx.isData, f, asDict, v, []),
                  FieldFaithful(w, cx, f, asDict, v))
    decreases f, 0
  {
    match GetField(v, f.name)
    case Err(_) => AbsentFieldExact(w, cx, f, asDict, v);
    case Ok(x) =>
      if !(cx.isData && f.isPartial && x.Unset?) {
        TypeExact(w, cx, f.transferType, asDict, level, x);
        PresentField(w, cx, f, asDict, v, x);
      }
  }

  lemma {:induction false} PresentField(w: World, cx: Context, f: Field, asDict: bool, v: Value, x: Value)
    requires Relevant(cx, f) && GetField(v, f.name) == Ok(x) && !(cx.isData && f.isPartial && x.Unset?)
    requires Exact(DirectType(w, cx, f.transferType, cx.nestedAsDict, Ok(x)),
                   TransferTyped(w, cx.isData, f.transferType, asDict, x), TypeFaithful(w, cx, f.transferType, asDict, x))
    ensures Exact(DirectField(w, cx, f, v, []), TransferField(w, cx.isData, f, asDict, v, []),
                  TypeFaithful(w, cx, f.transferType, asDict, x))
  {
    var d, i := DirectType(w, cx, f.transferType, cx.nestedAsDict, Ok(x)),
                TransferTyped(w, cx.isData, f.transferType, asDict, x);
    assert DirectField(w, cx, f, v, []) == Ok([(Text(f.name), d.value)]);
    if i.Ok? {
      assert TransferField(w, cx.isData, f, asDict, v, []) == Ok([(Text(f.name), i.value)]);
      assert [(Text(f.name), d.value)][0].1 == d.value && [(Text(f.name), i.value)][0].1 == i.value;
    }
  }

  /** Comparing two dicts field by field. */
  lemma {:induction false} CompareFields(name: string, d: Dict, dTail: Dict, i: Dict, iTail: Dict)
    requires Adds(Ok(d), name) && Adds(Ok(i), name)
    requires Lacks(dTail, name) && Lacks(iTail, name)
    ensures d + dTail == i + iTail <==> d == i && dTail == iTail
  {
    var left, right := d + dTail, i + iTail;
    assert d != [] ==> left[0] == d[0];
    assert i != [] ==> right[0] == i[0];
    assert d == [] && left != [] ==> left[0] in dTail;
    assert i == [] && right != [] ==> right[0] in iTail;
    if left == right {
      assert |d| == |i|;
      assert d == left[..|d|] && i == right[..|i|];
      assert dTail == left[|d|..] && iTail == right[|i|..];
    }
  }

  ghost predicate OnlyNamed(r: Outcome<Dict>, fields: seq<Field>) {
    r.Ok? ==> forall x | x in r.value :: exists f | f in fields :: x.0 == Text(f.name)
  }

  lemma {:induction false} NamedElsewhere(r: Outcome<Dict>, fields: seq<Field>, name: string)
    requires r.Ok? && OnlyNamed(r, fields) && forall f | f in fields :: f.name != name
    ensures Lacks(r.value, name)
  {
  }

  /** The step from one field to a sequence of them. */
  lemma {:induction false} StepExact(
    fields: seq<Field>, d: Outcome<Dict>, dTail: Outcome<Dict>, i: Outcome<Dict>, iTail: Outcome<Dict>,
    first: bool, others: bool)
    requires fields != [] && Proper(fields)
    requires Exact(d, i, first) && Exact(dTail, iTail, others)
    requires Adds(d, fields[0].name) && Adds(i, fields[0].name)
    requires OnlyNamed(dTail, fields[1..]) && OnlyNamed(iTail, fields[1..])
    ensures Exact(Ok(d.value + dTail.value),
                  (match i case Err(e) => Err(e) case Ok(x) => Append(x, iTail)), first && others)
    ensures OnlyNamed(Ok(d.value + dTail.value), fields)
    ensures i.Ok? ==> OnlyNamed(Append(i.value, iTail), fields)
  {
    NamedElsewhere(dTail, fields[1..], fields[0].name);
    assert fields[0] in fields && forall f | f in fields[1..] :: f in fields;
    if i.Ok? && iTail.Ok? {
      NamedElsewhere(iTail, fields[1..], fields[0].name);
      CompareFields(fields[0].name, d.value, dTail.value, i.value, iTail.value);
    }
  }

  lemma {:induction false} AddedElsewhere(r: Outcome<Dict>, fields: seq<Field>)
    requires fields != [] && Proper(fields) && Adds(r, fields[0].name) && r.Ok?
    ensures LacksAll(r.value, fields[1..])
  {
  }

  ghost predicate AllExact(w: World, cx: Context, fields: seq<Field>, asDict: bool, v: Value) {
    var d, i := DirectFields(w, cx, fields, v, []), TransferFields(w, cx.isData, fields, asDict, v, []);
    Exact(d, i, FieldsFaithful(w, cx, fields, asDict, v)) && OnlyNamed(d, fields) && OnlyNamed(i, fields)
  }

  lemma {:induction false} AllExactStep(w: World, cx: Context, fields: seq<Field>, asDict: bool, v: Value)
    requires fields != [] && Proper(fields) && Relevant(cx, fields[0]) && AllExact(w, cx, fields[1..], asDict, v)
    requires var f := fields[0];
             Exact(DirectField(w, cx, f, v, []), TransferField(w, cx.isData, f, asDict, v, []), FieldFaithful(w, cx, f, asDict, v))
    ensures AllExact(w, cx, fields, asDict, v)
  {
    var f, rest := fields[0], fields[1..];
    var d, i := DirectField(w, cx, f, v, []), TransferField(w, cx.isData, f, asDict, v, []);
    var dTail, iTail := DirectFields(w, cx, rest, v, []), TransferFields(w, cx.isData, rest, asDict, v, []);
    DirectFieldAppends(w, cx, f, v, []);
    TransferFieldAppends(w, cx.isData, f, asDict, v, []);
    AddedElsewhere(d, fields);
    DirectFieldsAppend(w, cx, rest, v, d.value);
    StepExact(fields, d, dTail, i, iTail, FieldFaithful(w, cx, f, asDict, v), FieldsFaithful(w, cx, rest, asDict, v));
    assert DirectFields(w, cx, fields, v, []) == Ok(d.value + dTail.value);
    if i.Ok? {
      AddedElsewhere(i, fields);
      TransferFieldsAppend(w, cx.isData, rest, asDict, v, i.value);
    }
  }

  lemma {:induction false} FieldsExact(
    w: World, cx: Context, fields: seq<Field>, asDict: bool, level: nat, v: Value)
    requires Free(w) && FieldsGenerate(cx, fields, level) && Proper(fields) && FieldsConform(w, cx, fields, v)
    ensures AllExact(w, cx, fields, asDict, v)
    decreases fields, 1
  {
    if fields != [] {
      FieldsExact(w, cx, fields[1..], asDict, level, v);
      if Relevant(cx, fields[0]) {
        FieldExact(w, cx, fields[0], asDict, if cx.isData && fields[0].isPartial then 0 else Deeper(level), v);
        AllExactStep(w, cx, fields, asDict, v);
      } else {
        assert forall g | g in fields[1..] :: g in fields;
      }
    }
  }

  lemma {:induction false} InstanceExact(
    w: World, cx: Context, fields: seq<Field>, destination: Destination, level: nat, v: Value)
    requires Free(w) && InstanceGenerates(cx, fields, level) && Proper(fields) && FieldsConform(w, cx, fields, v)
    ensures Exact(DirectInstance(w, cx, fields, destination, Ok(v)),
                  TransferInstance(w, cx.isData, fields, destination, v),
                  FieldsFaithful(w, cx, fields, destination.DictDestination?, v))
    decreases fields, 2
  {
    var asDict := destination.DictDestination?;
    if RelevantFields(cx, fields) == [] {
      NoRelevantFields(w, cx, fields, asDict, v, []);
      NoRelevantFieldsDirect(w, cx, fields, asDict, v);
    } else {
      FieldsExact(w, cx, fields, asDict, if FieldsGenerate(cx, fields, level) then level else 0, v);
    }
    var d, i := DirectFields(w, cx, fields, v, []), TransferFields(w, cx.isData, fields, asDict, v, []);
    if i.Ok? && !asDict {
      assert w.construct(destination.cls, d.value) == w.construct(destination.cls, i.value) <==> d.value == i.value;
    }
  }

  lemma {:induction false} NoRelevantFieldsDirect(w: World, cx: Context, fields: seq<Field>, asDict: bool, v: Value)
    requires RelevantFields(cx, fields) == []
    ensures DirectFields(w, cx, fields, v, []) == Ok([]) && FieldsFaithful(w, cx, fields, asDict, v)
    decreases fields
  {
    if fields != [] {
      NoRelevantFieldsDirect(w, cx, fields[1..], asDict, v);
    }
  }

  lemma {:induction false} TypeExact(w: World, cx: Context, t: TransferType, asDict: bool, level: nat, v: Value)
    requires Free(w) && TypeGenerates(cx, t, level) && ProperType(t) && TypeConforms(w, cx, t, v)
    ensures Exact(DirectType(w, cx, t, cx.nestedAsDict, Ok(v)), TransferTyped(w, cx.isData, t, asDict, v),
                  TypeFaithful(w, cx, t, asDict, v))
    decreases t, 3
  {
    if IsNested(t) {
      InstanceExact(w, cx, t.nested.value.fields, NestedDestination(t, asDict, cx.isData), level, v);
      NestedExact(w, cx, t, asDict, v);
    } else if t.UnionType? && HasNested(t) {
      UnionExact(w, cx, t, asDict, level, v);
    } else if t.CollectionType? && HasNested(t) {
      var items := Iterate(v).value;
      ItemsExact(w, cx.isData, t.inner, items);
      var d, i := DirectItems(w, cx.isData, t.inner, items), TransferItems(w, cx.isData, t.inner, items);
      if i.Ok? {
        assert w.collect(t.origin, d.value) == w.collect(t.origin, i.value) <==> d.value == i.value;
      }
    } else if t.MappingType? && HasNested(t) {
      var items := Items(v).value;
      PairsExact(w, cx.isData, t.value, items);
      var d, i := DirectPairs(w, cx.isData, t.value, items), TransferPairs(w, cx.isData, t.value, items);
      if i.Ok? {
        assert w.collectPairs(t.origin, d.value) == w.collectPairs(t.origin, i.value) <==> d.value == i.value;
      }
    }
  }

  /** A nested model that only one backend builds as a `dict` comes out different. */
  lemma {:induction false} NestedExact(w: World, cx: Context, t: TransferType, asDict: bool, v: Value)
    requires Free(w) && IsNested(t)
    requires var fields, destination := t.nested.value.fields, NestedDestination(t, asDict, cx.isData);
             Exact(DirectInstance(w, cx, fields, destination, Ok(v)),
                   TransferInstance(w, cx.isData, fields, destination, v), FieldsFaithful(w, cx, fields, asDict, v))
    ensures Exact(DirectType(w, cx, t, cx.nestedAsDict, Ok(v)), TransferTyped(w, cx.isData, t, asDict, v),
                  asDict == cx.nestedAsDict && FieldsFaithful(w, cx, t.nested.value.fields, asDict, v))
  {
    assert DirectReads(w, cx, t.nested.value.fields, Ok(v)).Ok?;
  }

  function Cons<T>(first: Outcome<T>, rest: Outcome<seq<T>>): Outcome<seq<T>> {
    var x :- first;
    var xs :- rest;
    Ok([x] + xs)
  }

  function Keyed(key: Value, r: Outcome<Value>): Outcome<(Value, Value)> {
    match r case Ok(v) => Ok((key, v)) case Err(e) => Err(e)
  }

  lemma {:induction false} ConsExact<T>(
    d: Outcome<T>, dTail: Outcome<seq<T>>, i: Outcome<T>, iTail: Outcome<seq<T>>, first: bool, others: bool)
    requires Exact(d, i, first) && Exact(dTail, iTail, others)
    ensures Exact(Cons(d, dTail), Cons(i, iTail), first && others)
  {
    if i.Ok? && iTail.Ok? {
      var x, y := [d.value] + dTail.value, [i.value] + iTail.value;
      assert x[0] == d.value && x[1..] == dTail.value && y[0] == i.value && y[1..] == iTail.value;
    }
  }

  lemma {:induction false} ItemsExact(w: World, isData: bool, t: TransferType, items: seq<Value>)
    requires Free(w) && TypeGenerates(Context(isData, false), t, 0) && ProperType(t)
    requires forall x | x in items :: TypeConforms(w, Context(isData, false), t, x)
    ensures Exact(DirectItems(w, isData, t, items), TransferItems(w, isData, t, items),
                  ItemsFaithful(w, isData, t, items))
    decreases t, 4, |items|
  {
    if items != [] {
      var x, rest, cx := items[0], items[1..], Context(isData, false);
      TypeExact(w, cx, t, false, 0, x);
      ItemsExact(w, isData, t, rest);
      assert forall y :: y in items <==> y == x || y in rest;
      ConsExact(DirectType(w, cx, t, false, Ok(x)), DirectItems(w, isData, t, rest),
                TransferTyped(w, isData, t, false, x), TransferItems(w, isData, t, rest),
                TypeFaithful(w, cx, t, false, x), ItemsFaithful(w, isData, t, rest));
    }
  }

  lemma {:induction false} PairsExact(w: World, isData: bool, t: TransferType, items: Dict)
    requires Free(w) && TypeGenerates(Context(isData, false), t, 0) && ProperType(t)
    requires forall x | x in items :: TypeConforms(w, Context(isData, false), t, x.1)
    ensures Exact(DirectPairs(w, isData, t, items), TransferPairs(w, isData, t, items),
                  PairsFaithful(w, isData, t, items))
    decreases t, 4, |items|
  {
    if items != [] {
      var x, rest, cx := items[0], items[1..], Context(isData, false);
      TypeExact(w, cx, t, false, 0, x.1);
      PairsExact(w, isData, t, rest);
      assert forall y :: y in items <==> y == x || y in rest;
      ConsExact(Keyed(x.0, DirectType(w, cx, t, false, Ok(x.1))), DirectPairs(w, isData, t, rest),
                Keyed(x.0, TransferTyped(w, isData, t, false, x.1)), TransferPairs(w, isData, t, rest),
                TypeFaithful(w, cx, t, false, x.1), PairsFaithful(w, isData, t, rest));
    }
  }

  // ----- unions -----

  /** With a composite member ahead, the interpreter never hands the value on: it builds a model or gives up. */
  lemma {:induction false} NeverHandsOn(w: World, isData: bool, members: seq<TransferType>, v: Value)
    requires NotMade(w, v) && CompositeCount(members) > 0
    ensures TransferUnion(w, isData, members, v) != Ok(v)
    decreases members
  {
    if members[0].SimpleType? {
      NeverHandsOn(w, isData, members[1..], v);
    }
  }

  lemma {:induction false} NoneFitsIff(w: World, cx: Context, members: seq<TransferType>, v: Value)
    ensures DirectMembers(w, cx, members, true, v) == None <==> NoneFits(w, cx, members, v)
    decreases members
  {
    if members != [] {
      NoneFitsIff(w, cx, members[1..], v);
      assert forall m :: m in members <==> m == members[0] || m in members[1..];
    }
  }

  /** The members from one on. `other` is what becomes of a value that fits no tested member. */
  lemma {:induction false} MembersExact(
    w: World, cx: Context, members: seq<TransferType>, mixed: bool, other: Outcome<Value>, level: nat, v: Value)
    requires Free(w) && NotMade(w, v) && MembersGenerate(cx, members, mixed, level)
    requires MembersConform(w, cx, members, v) && forall m | m in members :: ProperType(m)
    requires other.Ok? && (!mixed ==> other == Ok(v))
    ensures var direct := match DirectMembers(w, cx, members, mixed, v) case Some(r) => r case None => other;
            && direct.Ok?
            && (CompositeCount(members) == (if mixed then 1 else 0) ==>
                  Exact(direct, TransferUnion(w, cx.isData, members, v), MembersFaithful(w, cx, members, mixed, v)))
    decreases members, 1
  {
    if members != [] {
      var m := members[0];
      assert ProperType(m);
      MembersExact(w, cx, members[1..], mixed, other, level, v);
      if m.SimpleType? && Fits(w, cx, m, v) {
        if m.nested.Some? {
          MemberExact(w, cx, m, level, v);
        } else if mixed && CompositeCount(members) == 1 {
          NeverHandsOn(w, cx.isData, members[1..], v);
        }
      }
    }
  }

  /** A nested member that fits: rebuilt by both backends, or without fields and by the interpreter only. */
  lemma {:induction false} MemberExact(w: World, cx: Context, m: TransferType, level: nat, v: Value)
    requires Free(w) && NotMade(w, v) && IsNested(m) && ProperType(m)
    requires Rebuilt(m) ==> InstanceGenerates(cx, m.nested.value.fields, level)
    requires FieldsConform(w, cx, m.nested.value.fields, v)
    ensures Exact(DirectMember(w, cx, m, v),
                  TransferInstance(w, cx.isData, m.nested.value.fields, MemberDestination(m, cx.isData), v),
                  m.nested.value.fields != [] && FieldsFaithful(w, cx, m.nested.value.fields, false, v))
    decreases m, 0
  {
    if Rebuilt(m) {
      InstanceExact(w, cx, m.nested.value.fields, MemberDestination(m, cx.isData), level, v);
    }
  }

  lemma {:induction false} UnionExact(w: World, cx: Context, t: TransferType, asDict: bool, level: nat, v: Value)
    requires t.UnionType? && HasNested(t)
    requires Free(w) && TypeGenerates(cx, t, level) && ProperType(t) && TypeConforms(w, cx, t, v)
    ensures Exact(DirectUnion(w, cx, t.members, v), TransferUnion(w, cx.isData, t.members, v),
                  TypeFaithful(w, cx, t, asDict, v))
    decreases t, 2
  {
    var members, mixed := t.members, MixedUnion(t.members);
    var other: Outcome<Value> := Ok(v);
    if mixed {
      NoneFitsIff(w, cx, members, v);
      if DirectMembers(w, cx, members, true, v) == None {
        var m := members[CompositeIndex(members)];
        TypeExact(w, cx, m, asDict, level, v);
        other := DirectType(w, cx, m, false, Ok(v));
      }
    } else {
      LoneComposite(members);
    }
    MembersExact(w, cx, members, mixed, other, level, v);
  }

  /** The only composite member is the one at k. */
  predicate OnlyComposite(members: seq<TransferType>, k: int) {
    && 0 <= k < |members| && !members[k].SimpleType?
    && (forall m | m in members[..k] :: m.SimpleType?)
    && forall m | m in members[k + 1..] :: m.SimpleType?
  }

  lemma {:induction false} NoComposite(members: seq<TransferType>)
    ensures CompositeCount(members) == 0 <==> forall m | m in members :: m.SimpleType?
    decreases members
  {
    if members != [] {
      NoComposite(members[1..]);
      assert forall m :: m in members <==> m == members[0] || m in members[1..];
    }
  }

  /** What the number of composite members says. */
  lemma {:induction false} OneComposite(members: seq<TransferType>)
    ensures CompositeCount(members) == 1 <==> exists k :: OnlyComposite(members, k)
    decreases members
  {
    if members != [] {
      var rest := members[1..];
      OneComposite(rest);
      NoComposite(rest);
      forall k: int | k > 0
        ensures OnlyComposite(members, k) <==> members[0].SimpleType? && OnlyComposite(rest, k - 1)
      {
        if k < |members| {
          assert members[..k] == [members[0]] + rest[..k - 1] && members[k + 1..] == rest[k..];
        }
      }
      assert members[..0] == [] && members[0 + 1..] == rest;
      if members[0].SimpleType? && CompositeCount(rest) == 1 {
        var k :| OnlyComposite(rest, k);
        assert OnlyComposite(members, k + 1);
      }
      if !members[0].SimpleType? && CompositeCount(rest) == 0 {
        assert OnlyComposite(members, 0);
      }
    }
  }

  /** No test is emitted for a union of one composite member, so that no code is generated. */
  lemma {:induction false} LoneComposite(members: seq<TransferType>)
    requires CompositeCount(members) <= 1 && !MixedUnion(members)
    requires exists m | m in members :: Tested(m, false)
    ensures CompositeCount(members) == 0
  {
    if |members| == 1 {
      assert members[1..] == [] && CompositeCount(members[1..]) == 0;
    }
  }

  /** Both backends pass over the member: it is simple, and does not fit, or it is plain and the union not mixed. */
  predicate PassedOver(w: World, cx: Context, m: TransferType, mixed: bool, v: Value) {
    m.SimpleType? && (Fits(w, cx, m, v) ==> !mixed && !IsNested(m))
  }

  /** The member makes the same of the value in both backends. */
  predicate Decides(w: World, cx: Context, m: TransferType, v: Value) {
    && IsNested(m) && Fits(w, cx, m, v)
    && m.nested.value.fields != [] && FieldsFaithful(w, cx, m.nested.value.fields, false, v)
  }

  /** Behind the first `k` members, all passed over, one decides, or there is no other. */
  predicate DecidedAt(w: World, cx: Context, members: seq<TransferType>, mixed: bool, v: Value, k: int) {
    && 0 <= k <= |members|
    && (forall m | m in members[..k] :: PassedOver(w, cx, m, mixed, v))
    && (k < |members| ==> Decides(w, cx, members[k], v))
  }

  lemma {:induction false} DecidedLater(
    w: World, cx: Context, members: seq<TransferType>, mixed: bool, v: Value, k: int)
    requires members != [] && k > 0
    ensures DecidedAt(w, cx, members, mixed, v, k) <==>
            PassedOver(w, cx, members[0], mixed, v) && DecidedAt(w, cx, members[1..], mixed, v, k - 1)
  {
    if k <= |members| {
      assert members[..k] == [members[0]] + members[1..][..k - 1];
    }
  }

  /** The condition on unions, without recursion. */
  lemma {:induction false} MembersFaithfulIff(
    w: World, cx: Context, members: seq<TransferType>, mixed: bool, v: Value)
    ensures MembersFaithful(w, cx, members, mixed, v) <==> exists k :: DecidedAt(w, cx, members, mixed, v, k)
    decreases members
  {
    if members == [] {
      assert DecidedAt(w, cx, members, mixed, v, 0);
    } else {
      MembersFaithfulIff(w, cx, members[1..], mixed, v);
      forall k: int | k > 0
        ensures DecidedAt(w, cx, members, mixed, v, k) <==>
                PassedOver(w, cx, members[0], mixed, v) && DecidedAt(w, cx, members[1..], mixed, v, k - 1)
      {
        DecidedLater(w, cx, members, mixed, v, k);
      }
      assert DecidedAt(w, cx, members, mixed, v, 0) <==> Decides(w, cx, members[0], v);
      if PassedOver(w, cx, members[0], mixed, v) && MembersFaithful(w, cx, members[1..], mixed, v) {
        var k :| DecidedAt(w, cx, members[1..], mixed, v, k);
        assert DecidedAt(w, cx, members, mixed, v, k + 1);
      }
    }
  }
}
