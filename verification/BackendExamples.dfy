/**
 The differences between the backends, each on one DTO and one source, shown
 for the generated function as a whole.
 */
module BackendExamples {
  import opened Outcomes
  import opened TransferTypes
  import opened TransferInterpreter
  import opened GeneratedCode
  import opened TransferCompiler
  import opened DirectMeaning
  import opened CompilerCorrectness
  import opened GenerationDomain
  import opened BackendAgreement
  import opened BackendDifference
  import opened AnnotationDifference

  /** Classes that keep what they are called with. */
  const RECORDING := World(
    (v: Value, c) => v.Instance? && v.cls == c,
    (c, d) => Ok(Sequence([Text("model"), Text(c), Mapping(d)])),
    (c, v) => Ok(Sequence([Text("converted"), Text(c), v])),
    (c, s) => Ok(Sequence([Text("items"), Text(c), Sequence(s)])),
    (c, d) => Ok(Sequence([Text("pairs"), Text(c), Mapping(d)])))

  /** The assumptions on classes can be met. */
  lemma {:induction false} RecordingIsFree(destination: Destination)
    ensures Free(RECORDING) && Apart(RECORDING, destination)
  {
    forall c, d, d' | RECORDING.construct(c, d) == RECORDING.construct(c, d')
      ensures d == d'
    {
      assert RECORDING.construct(c, d).value.items[2] == RECORDING.construct(c, d').value.items[2];
    }
    forall c, c', s, s' | RECORDING.collect(c, s) == RECORDING.collect(c', s')
      ensures c == c' && s == s'
    {
      assert RECORDING.collect(c, s).value.items[1] == RECORDING.collect(c', s').value.items[1];
      assert RECORDING.collect(c, s).value.items[2] == RECORDING.collect(c', s').value.items[2];
    }
    forall c, c', d, d' | RECORDING.collectPairs(c, d) == RECORDING.collectPairs(c', d')
      ensures c == c' && d == d'
    {
      assert RECORDING.collectPairs(c, d).value.items[1] == RECORDING.collectPairs(c', d').value.items[1];
      assert RECORDING.collectPairs(c, d).value.items[2] == RECORDING.collectPairs(c', d').value.items[2];
    }
    forall c, c', s, d
      ensures RECORDING.collect(c, s) != RECORDING.collectPairs(c', d)
      ensures RECORDING.collect(c, s) != Build(RECORDING, destination, d)
    {
      assert RECORDING.collect(c, s).value.items[0] != RECORDING.collectPairs(c', d).value.items[0];
      assert destination.ClassDestination? ==>
             RECORDING.collect(c, s).value.items[0] != Build(RECORDING, destination, d).value.items[0];
    }
    forall c, d, d'
      ensures RECORDING.collectPairs(c, d) != Build(RECORDING, destination, d')
    {
      assert destination.ClassDestination? ==>
             RECORDING.collectPairs(c, d).value.items[0] != Build(RECORDING, destination, d').value.items[0];
    }
  }

  /** A model, and the transfer model that stands for it on the way in and out. */
  function Model(cls: TypeId, fields: seq<Field>): TransferType {
    SimpleType(cls, false, Some(NestedFieldInfo(cls + "DTO", fields)))
  }

  function Plain(cls: TypeId): TransferType {
    SimpleType(cls, false, None)
  }

  function Required(name: string, t: TransferType): Field {
    Field(name, t, false, false, false, None)
  }

  /** A field annotated `t | None`. */
  function Nullable(name: string, t: TransferType): Field {
    Field(name, UnionType([t, SimpleType("None", true, None)]), false, false, true, None)
  }

  function Entry(name: string, v: Value): Dict {
    [(Text(name), v)]
  }

  // ----- models with one field -----

  lemma {:induction false} OneFieldRead(
    w: World, cx: Context, f: Field, asDict: bool, v: Value, x: Value, d: Value, i: Outcome<Value>)
    requires !f.isPartial && !f.isExcluded && GetField(v, f.name) == Ok(x)
    requires DirectType(w, cx, f.transferType, cx.nestedAsDict, Ok(x)) == Ok(d)
    requires TransferTyped(w, cx.isData, f.transferType, asDict, x) == i
    ensures DirectReads(w, cx, [f], Ok(v)) == Ok(Entry(f.name, d))
    ensures TransferFields(w, cx.isData, [f], asDict, v, [])
         == (match i case Ok(y) => Ok(Entry(f.name, y)) case Err(e) => Err(e))
  {
    assert [f][1..] == [] && RelevantFields(cx, [f]) == [f] + RelevantFields(cx, []);
    assert DirectField(w, cx, f, v, []) == Ok(Entry(f.name, d));
    assert DirectFields(w, cx, [f], v, []) == Ok(Entry(f.name, d));
    assert i.Ok? ==> TransferField(w, cx.isData, f, asDict, v, []) == Ok(Entry(f.name, i.value));
  }

  /** What both backends make of a DTO with the one field `f`, sent as a mapping. */
  lemma {:induction false} OneField(
    w: World, isData: bool, f: Field, destination: Destination, x: Value, d: Value, i: Outcome<Value>)
    requires !f.isPartial && !f.isExcluded && TypeGenerates(ContextOf(isData, destination), f.transferType, 1)
    requires var asDict := destination.DictDestination?;
             && DirectType(w, Context(isData, asDict), f.transferType, asDict, Ok(x)) == Ok(d)
             && TransferTyped(w, isData, f.transferType, asDict, x) == i
    ensures var fn := GenInstanceFunction(isData, [f], destination);
            && fn.Some?
            && Call(w, fn.value, Mapping(Entry(f.name, x))) == Build(w, destination, Entry(f.name, d))
            && TransferInstance(w, isData, [f], destination, Mapping(Entry(f.name, x)))
               == (match i case Ok(y) => Build(w, destination, Entry(f.name, y)) case Err(e) => Err(e))
  {
    var cx := ContextOf(isData, destination);
    assert [f][1..] == [] && RelevantFields(cx, [f]) == [f] + RelevantFields(cx, []);
    assert FieldsGenerate(cx, [f], 0);
    InstanceDomain(cx, [f], destination, Var(SOURCE_INSTANCE), ToName(RESULT_OF_TYPE), {RESULT_OF_TYPE, SOURCE_INSTANCE});
    InstanceFunctionCorrect(w, isData, [f], destination, Mapping(Entry(f.name, x)));
    OneFieldRead(w, cx, f, destination.DictDestination?, Mapping(Entry(f.name, x)), x, d, i);
  }

  // ----- absent fields -----

  /** Return data without a declared field: the interpreter raises, generated code goes on. */
  lemma {:induction false} AbsentFieldOfReturnData()
    ensures var fields := [Required("a", Plain("int"))];
            var fn := GenInstanceFunction(false, fields, ClassDestination("A"));
            && fn.Some?
            && TransferInstance(RECORDING, false, fields, ClassDestination("A"), Mapping([])) == Err(KeyError)
            && Call(RECORDING, fn.value, Mapping([])) == RECORDING.construct("A", [])
  {
    var fields := [Required("a", Plain("int"))];
    assert fields[1..] == [];
    var cx := Context(false, false);
    InstanceDomain(cx, fields, ClassDestination("A"), Var(SOURCE_INSTANCE), ToName(RESULT_OF_TYPE),
                   {RESULT_OF_TYPE, SOURCE_INSTANCE});
    InstanceFunctionCorrect(RECORDING, false, fields, ClassDestination("A"), Mapping([]));
    assert DirectField(RECORDING, cx, fields[0], Mapping([]), []) == Ok([]);
  }

  /** Incoming data without a field whose model has no fields: generated code makes up an instance of it. */
  lemma {:induction false} AbsentFieldOfEmptyModel()
    ensures var fields := [Required("b", Model("B", []))];
            var fn := GenInstanceFunction(true, fields, ClassDestination("A"));
            && fn.Some?
            && TransferInstance(RECORDING, true, fields, ClassDestination("A"), Mapping([])) == RECORDING.construct("A", [])
            && Call(RECORDING, fn.value, Mapping([]))
               == RECORDING.construct("A", Entry("b", RECORDING.construct("B", []).value))
  {
    var fields := [Required("b", Model("B", []))];
    assert fields[1..] == [];
    var cx := Context(true, false);
    assert FieldsGenerate(cx, fields, 0);
    InstanceDomain(cx, fields, ClassDestination("A"), Var(SOURCE_INSTANCE), ToName(RESULT_OF_TYPE),
                   {RESULT_OF_TYPE, SOURCE_INSTANCE});
    InstanceFunctionCorrect(RECORDING, true, fields, ClassDestination("A"), Mapping([]));
    var read := GetField(Mapping([]), "b");
    assert DirectType(RECORDING, cx, fields[0].transferType, false, read) == RECORDING.construct("B", []);
    assert DirectField(RECORDING, cx, fields[0], Mapping([]), [])
        == Ok(Entry("b", RECORDING.construct("B", []).value));
  }

  // ----- classes -----

  /** A nested model that comes in is built as its class, and one that is returned as its transfer model. */
  lemma {:induction false} NestedModelBothWays(x: Value)
    ensures var fields := [Required("b", Model("B", [DEEP]))];
            var v := Mapping(Entry("b", Mapping(Entry("x", x))));
            var incoming := GenInstanceFunction(true, fields, ClassDestination("A"));
            var returned := GenInstanceFunction(false, fields, ClassDestination("ADTO"));
            && incoming.Some? && returned.Some?
            && TransferInstance(RECORDING, true, fields, ClassDestination("A"), v) == Call(RECORDING, incoming.value, v)
               == RECORDING.construct("A", Entry("b", RECORDING.construct("B", Entry("x", x)).value))
            && TransferInstance(RECORDING, false, fields, ClassDestination("ADTO"), v) == Call(RECORDING, returned.value, v)
               == RECORDING.construct("ADTO", Entry("b", RECORDING.construct("BDTO", Entry("x", x)).value))
  {
    NestedModelOneWay(true, ClassDestination("A"), x, "B");
    NestedModelOneWay(false, ClassDestination("ADTO"), x, "BDTO");
  }

  lemma {:induction false} NestedModelOneWay(isData: bool, destination: Destination, x: Value, built: TypeId)
    requires destination.ClassDestination? && built == if isData then "B" else "BDTO"
    ensures var fields := [Required("b", Model("B", [DEEP]))];
            var v := Mapping(Entry("b", Mapping(Entry("x", x))));
            var fn := GenInstanceFunction(isData, fields, destination);
            && fn.Some?
            && TransferInstance(RECORDING, isData, fields, destination, v) == Call(RECORDING, fn.value, v)
               == RECORDING.construct(destination.cls, Entry("b", RECORDING.construct(built, Entry("x", x)).value))
  {
    var cx, t, v := Context(isData, false), Model("B", [DEEP]), Mapping(Entry("x", x));
    assert "B" + "DTO" == "BDTO";
    OneFieldRead(RECORDING, cx, DEEP, false, v, x, x, Ok(x));
    assert DirectType(RECORDING, cx, t, false, Ok(v)) == RECORDING.construct(built, Entry("x", x));
    assert TransferTyped(RECORDING, isData, t, false, v) == RECORDING.construct(built, Entry("x", x));
    assert [DEEP][1..] == [] && RelevantFields(cx, [DEEP]) == [DEEP] + RelevantFields(cx, []);
    assert FieldsGenerate(cx, [], 1);
    assert FieldsGenerate(cx, [DEEP], 1) && InstanceGenerates(cx, [DEEP], 1);
    OneField(RECORDING, isData, Required("b", t), destination, v, RECORDING.construct(built, Entry("x", x)).value,
             RECORDING.construct(built, Entry("x", x)));
  }

  // ----- unions -----

  /** Facts about `t | None` for a model `t`. */
  lemma {:induction false} NullableModel(w: World, cx: Context, t: TransferType, v: Value)
    requires IsNested(t) && !t.isNoneType && w.isInstance(v, MemberConstraint(t, cx.isData))
    ensures var u := Nullable("u", t).transferType;
            && HasNested(u) && !MixedUnion(u.members)
            && DirectType(w, cx, u, cx.nestedAsDict, Ok(v)) == DirectMember(w, cx, t, v)
            && TransferTyped(w, cx.isData, u, cx.nestedAsDict, v)
               == TransferInstance(w, cx.isData, t.nested.value.fields, MemberDestination(t, cx.isData), v)
    ensures (Rebuilt(t) ==> InstanceGenerates(cx, t.nested.value.fields, 1)) ==>
              TypeGenerates(cx, Nullable("u", t).transferType, 1)
  {
    var members := Nullable("u", t).transferType.members;
    assert members[0] == t && t in members && HasNested(t);
    assert members[1..][1..] == [] && CompositeCount(members[1..][1..]) == 0;
    assert CompositeCount(members[1..]) == 0 && CompositeCount(members) == 0;
    assert Tested(t, false) && MembersGenerate(cx, members[1..], false, 1);
    assert DirectMembers(w, cx, members, false, v) == Some(DirectMember(w, cx, t, v));
    assert DirectUnion(w, cx, members, v) == DirectMember(w, cx, t, v);
  }

  /** `B | None`, where `B` has no fields: rebuilt by the interpreter and passed on by generated code. */
  lemma {:induction false} UnionMemberWithoutFields()
    ensures var fields, v := [Nullable("u", Model("B", []))], Instance("BDTO", map[]);
            var fn := GenInstanceFunction(true, fields, ClassDestination("A"));
            && fn.Some?
            && TransferInstance(RECORDING, true, fields, ClassDestination("A"), Mapping(Entry("u", v)))
               == RECORDING.construct("A", Entry("u", RECORDING.construct("B", []).value))
            && Call(RECORDING, fn.value, Mapping(Entry("u", v))) == RECORDING.construct("A", Entry("u", v))
  {
    var v := Instance("BDTO", map[]);
    NullableModel(RECORDING, Context(true, false), Model("B", []), v);
    OneField(RECORDING, true, Nullable("u", Model("B", [])), ClassDestination("A"), v, v, RECORDING.construct("B", []));
  }

  const DEEP := Required("x", Plain("int"))
  const NESTED_IN_MEMBER := Required("c", Model("C", [DEEP]))

  /**
   `B | None` below a `dict`, where `B` has a field of the model `C`: generated
   code makes a dict of the `C` within the `B`, the interpreter an instance.
   */
  lemma {:induction false} UnionMemberBelowDict(x: Value)
    ensures var fields := [Nullable("u", Model("B", [NESTED_IN_MEMBER]))];
            var v := Instance("BDTO", map["c" := Mapping(Entry("x", x))]);
            var fn := GenInstanceFunction(true, fields, DictDestination);
            && fn.Some?
            && TransferInstance(RECORDING, true, fields, DictDestination, Mapping(Entry("u", v)))
               == Ok(Mapping(Entry("u",
                       RECORDING.construct("B", Entry("c", RECORDING.construct("C", Entry("x", x)).value)).value)))
            && Call(RECORDING, fn.value, Mapping(Entry("u", v)))
               == Ok(Mapping(Entry("u", RECORDING.construct("B", Entry("c", Mapping(Entry("x", x)))).value)))
  {
    var cx, c := Context(true, true), Mapping(Entry("x", x));
    var v := Instance("BDTO", map["c" := c]);
    var built := RECORDING.construct("C", Entry("x", x));
    OneFieldRead(RECORDING, cx, DEEP, false, c, x, x, Ok(x));
    assert TransferTyped(RECORDING, true, Model("C", [DEEP]), false, c) == built;
    assert DirectType(RECORDING, cx, Model("C", [DEEP]), true, Ok(c)) == Ok(c);
    OneFieldRead(RECORDING, cx, NESTED_IN_MEMBER, false, v, c, c, built);
    NullableModel(RECORDING, cx, Model("B", [NESTED_IN_MEMBER]), v);
    DeepGenerates();
    OneField(RECORDING, true, Nullable("u", Model("B", [NESTED_IN_MEMBER])), DictDestination, v,
             RECORDING.construct("B", Entry("c", c)).value, RECORDING.construct("B", Entry("c", built.value)));
  }

  lemma {:induction false} DeepGenerates()
    ensures InstanceGenerates(Context(true, true), [NESTED_IN_MEMBER], 1)
  {
    var cx := Context(true, true);
    assert [DEEP][1..] == [] && RelevantFields(cx, [DEEP]) == [DEEP] + RelevantFields(cx, []);
    assert [NESTED_IN_MEMBER][1..] == []
        && RelevantFields(cx, [NESTED_IN_MEMBER]) == [NESTED_IN_MEMBER] + RelevantFields(cx, []);
    assert FieldsGenerate(cx, [], 2) && FieldsGenerate(cx, [], 1);
    assert FieldsGenerate(cx, [DEEP], 2) && InstanceGenerates(cx, [DEEP], 2);
    assert FieldsGenerate(cx, [NESTED_IN_MEMBER], 1);
  }

  /** `list[int] | B`: on a list the interpreter gives up, generated code hands it on. */
  lemma {:induction false} UnionWithCompositeMember()
    ensures var fields := [Required("u", UnionType([CollectionType("list", Plain("int")), Model("B", [DEEP])]))];
            var fn := GenInstanceFunction(true, fields, ClassDestination("A"));
            && fn.Some?
            && TransferInstance(RECORDING, true, fields, ClassDestination("A"), Mapping(Entry("u", Sequence([]))))
               == Err(RuntimeError)
            && Call(RECORDING, fn.value, Mapping(Entry("u", Sequence([]))))
               == RECORDING.construct("A", Entry("u", RECORDING.convert("list", Sequence([])).value))
  {
    var members := [CollectionType("list", Plain("int")), Model("B", [DEEP])];
    var cx := Context(true, false);
    assert members[1] in members && HasNested(members[1]) && HasNested(UnionType(members));
    assert members[1..] == [members[1]] && members[1..][1..] == [];
    assert CompositeCount(members[1..][1..]) == 0 && CompositeCount(members[1..]) == 0 && CompositeCount(members) == 1;
    assert DirectMembers(RECORDING, cx, members[1..][1..], true, Sequence([])) == None;
    assert DirectMembers(RECORDING, cx, members[1..], true, Sequence([])) == None;
    assert DirectMembers(RECORDING, cx, members, true, Sequence([])) == None;
    assert CompositeIndex(members) == 0;
    assert [DEEP][1..] == [] && RelevantFields(cx, [DEEP]) == [DEEP] + RelevantFields(cx, []);
    assert FieldsGenerate(cx, [], 1);
    assert FieldsGenerate(cx, [DEEP], 1) && InstanceGenerates(cx, [DEEP], 1);
    assert MembersGenerate(cx, members[1..], true, 1) && MembersGenerate(cx, members, true, 1);
    assert Tested(members[1], true) && TypeGenerates(cx, members[0], 1);
    assert MixedUnion(members);
    assert DirectUnion(RECORDING, cx, members, Sequence([])) == RECORDING.convert("list", Sequence([]));
    OneField(RECORDING, true, Required("u", UnionType(members)), ClassDestination("A"), Sequence([]),
             RECORDING.convert("list", Sequence([])).value, Err(RuntimeError));
  }

  // ----- annotations -----

  /** `dict[str, list[A]]`: generated code takes every list for an `A`. */
  lemma {:induction false} MappingToCollections()
    ensures var s := MappingShape("dict", PlainShape, CollectionShape("list", PlainShape));
            var v := Mapping([(Text("k"), Sequence([]))]);
            var fn := GenData(true, s, [], ClassDestination("A"));
            && fn.Some?
            && Call(RECORDING, fn.value, v)
               == RECORDING.collectPairs("dict", [(Text("k"), RECORDING.construct("A", []).value)])
            && TransferData(RECORDING, true, s, [], ClassDestination("A"), v)
               == RECORDING.collectPairs("dict", [(Text("k"), RECORDING.collect("list", []).value)])
  {
    var s := MappingShape("dict", PlainShape, CollectionShape("list", PlainShape));
    var pairs := [(Text("k"), Sequence([]))];
    assert pairs[1..] == [];
    DataDomain(true, s, [], ClassDestination("A"));
    DataFunctionCorrect(RECORDING, true, s, [], ClassDestination("A"), Mapping(pairs));
    assert DirectData(RECORDING, true, PlainShape, [], ClassDestination("A"), Sequence([]))
        == RECORDING.construct("A", []);
    assert DirectDataPairs(RECORDING, true, PlainShape, [], ClassDestination("A"), pairs)
        == Ok([(Text("k"), RECORDING.construct("A", []).value)]) by {
      assert [(Text("k"), RECORDING.construct("A", []).value)] + [] == [(Text("k"), RECORDING.construct("A", []).value)];
    }
    assert TransferData(RECORDING, true, CollectionShape("list", PlainShape), [], ClassDestination("A"), Sequence([]))
        == RECORDING.collect("list", []);
    assert TransferDataPairs(RECORDING, true, CollectionShape("list", PlainShape), [], ClassDestination("A"), pairs)
        == Ok([(Text("k"), RECORDING.collect("list", []).value)]) by {
      assert [(Text("k"), RECORDING.collect("list", []).value)] + [] == [(Text("k"), RECORDING.collect("list", []).value)];
    }
  }

  const MAPPING_OF_MODELS := Required("a", MappingType("dict", Plain("str"), Model("B", [DEEP])))

  /** An `A` where a mapping belongs: return data lacks its attribute, and as a mapping it has no items. */
  lemma {:induction false} MisplacedInstance()
    ensures var f, instance := MAPPING_OF_MODELS, Instance("A", map[]);
            && TransferInstance(RECORDING, false, [f], ClassDestination("A"), instance) == Err(AttributeError)
            && DirectInstance(RECORDING, Context(false, false), [f], ClassDestination("A"), Ok(Mapping(Entry("a", instance))))
               == Err(AttributeError)
            && !FieldsFaithful(RECORDING, Context(false, false), [f], false, instance)
  {
    var f, instance, cx := MAPPING_OF_MODELS, Instance("A", map[]), Context(false, false);
    assert [f][1..] == [] && RelevantFields(cx, [f]) == [f] + RelevantFields(cx, []);
    assert TransferField(RECORDING, false, f, false, instance, []) == Err(AttributeError);
    assert f.transferType.MappingType? && HasNested(f.transferType);
    assert GetField(Mapping(Entry("a", instance)), "a") == Ok(instance);
    assert DirectType(RECORDING, cx, f.transferType, false, Ok(instance)) == Err(AttributeError);
    assert DirectField(RECORDING, cx, f, Mapping(Entry("a", instance)), []) == Err(AttributeError);
    assert DirectFields(RECORDING, cx, [f], Mapping(Entry("a", instance)), []) == Err(AttributeError);
  }

  lemma {:induction false} MappingOfModelsGenerates()
    ensures InstanceGenerates(Context(false, false), [MAPPING_OF_MODELS], 0)
  {
    var f, cx := MAPPING_OF_MODELS, Context(false, false);
    assert [f][1..] == [] && RelevantFields(cx, [f]) == [f] + RelevantFields(cx, []);
    assert [DEEP][1..] == [] && RelevantFields(cx, [DEEP]) == [DEEP] + RelevantFields(cx, []);
    assert FieldsGenerate(cx, [], 0);
    assert FieldsGenerate(cx, [DEEP], 0) && InstanceGenerates(cx, [DEEP], 0);
    assert FieldsGenerate(cx, [f], 0);
  }

  /** `dict[str, dict[str, A]]`: return data that both backends fail on with one exception, each in its own way. */
  lemma {:induction false} AttributeErrorsCoincide()
    ensures var s := MappingShape("dict", PlainShape, MappingShape("dict", PlainShape, PlainShape));
            var v := Mapping(Entry("k", Mapping(Entry("a", Instance("A", map[])))));
            && GenData(false, s, [MAPPING_OF_MODELS], ClassDestination("A")).Some?
            && BothFail(RECORDING, false, s, [MAPPING_OF_MODELS], ClassDestination("A"), v)
  {
    var inner := MappingShape("dict", PlainShape, PlainShape);
    var fields, destination := [MAPPING_OF_MODELS], ClassDestination("A");
    var instance := Instance("A", map[]);
    var read := Mapping(Entry("a", instance));
    var v := Mapping(Entry("k", read));
    MappingOfModelsGenerates();
    DataDomain(false, MappingShape("dict", PlainShape, inner), fields, destination);
    MisplacedInstance();
    assert Entry("k", read)[1..] == [] && Entry("a", instance)[1..] == [];
    assert ValuesOf(v.entries) == [read] && ValuesOf(read.entries) == [instance];
    assert read in ValuesOf(v.entries) && instance in ValuesOf(read.entries);
    assert TransferData(RECORDING, false, inner, fields, destination, read) == Err(AttributeError);
    assert !ReadsAsOn(PlainShape, inner, read);
    assert !DataFaithful(RECORDING, false, PlainShape, fields, destination, instance);
    assert !DataFaithful(RECORDING, false, inner, fields, destination, read);
  }

  /** A model with one nested field whose own nested model has two: the hoisted name is no identifier. */
  lemma {:induction false} TwoLevelsAreNotHoisted()
    ensures var c := Model("C", [Required("x", Plain("int")), Required("y", Plain("int"))]);
            var b := Model("B", [Required("c", c)]);
            GenInstanceFunction(true, [Required("b", b)], ClassDestination("A")) == None
  {
    var xy := [Required("x", Plain("int")), Required("y", Plain("int"))];
    var c := [Required("c", Model("C", xy))];
    var b := [Required("b", Model("B", c))];
    var cx := Context(true, false);
    assert xy[1..] == [xy[1]] && xy[1..][1..] == [] && c[1..] == [] && b[1..] == [];
    assert RelevantFields(cx, xy[1..][1..]) == [] && RelevantFields(cx, xy[1..]) == [xy[1]];
    assert |RelevantFields(cx, xy)| == 2;
    assert RelevantFields(cx, c[1..]) == [] && RelevantFields(cx, c) == c;
    assert RelevantFields(cx, b[1..]) == [] && RelevantFields(cx, b) == b;
    assert !InstanceGenerates(cx, xy, 2);
    assert !FieldsGenerate(cx, c, 1);
    assert !InstanceGenerates(cx, c, 1);
    assert !FieldsGenerate(cx, b, 0);
    InstanceDomain(cx, b, ClassDestination("A"), Var(SOURCE_INSTANCE), ToName(RESULT_OF_TYPE),
                   {RESULT_OF_TYPE, SOURCE_INSTANCE});
  }
}
