/**
 For which trees the code generator produces a function at all. The interpreter
 accepts every tree; the generator needs the names it hoists sources into to be
 identifiers, and unions it has tests for.
 */
module GenerationDomain {
  import opened Outcomes
  import opened TransferTypes
  import opened GeneratedCode
  import opened TransferCompiler

  /** How far a source is from being a plain name: 0, 1, or 2 for two and more accesses. */
  function Level(e: Expr): nat {
    if e.Var? then 0 else if e.base.Var? then 1 else 2
  }

  function Deeper(level: nat): nat {
    if level == 0 then 1 else 2
  }

  /** Two or more accesses, all by item: hoisted without trouble, but never the only source of its node. */
  predicate DeepItems(e: Expr) {
    Level(e) == 2 && OnlyItems(e)
  }

  /**
   Which sources can be hoisted, and under which name: one access gives the name it
   starts from and what is accessed; of two, items only, the second is not heard of.
   */
  lemma {:induction false} HoistedNames(n: Name, k: string, j: string)
    ensures HoistBase(ItemOf(Var(n), k)) == HoistBase(AttrOf(Var(n), k)) == Some(Hoisted(n, k))
    ensures HoistBase(ItemOf(ItemOf(Var(n), k), j)) == Some(Hoisted(n, k))
    ensures HoistBase(AttrOf(ItemOf(Var(n), k), j)) == HoistBase(ItemOf(AttrOf(Var(n), k), j)) == None
    ensures HoistBase(AttrOf(AttrOf(Var(n), k), j)) == None
  {
    assert OnlyItems(Var(n)) && !OnlyItems(AttrOf(Var(n), k));
    var once := ItemOf(Var(n), k);
    var twice := ItemOf(once, j);
    assert Var(n).Root() == n && once.Root() == n && twice.Root() == n;
    assert OnlyItems(once) && OnlyItems(twice);
    assert FirstKey(once) == k && FirstKey(twice) == k;
  }

  predicate InstanceGenerates(cx: Context, fields: seq<Field>, level: nat)
    decreases fields, 2
  {
    var relevant := |RelevantFields(cx, fields)|;
    relevant == 0 ||
    (relevant == 1 && FieldsGenerate(cx, fields, level)) ||
    (relevant > 1 && level < 2 && FieldsGenerate(cx, fields, 0))
  }

  predicate FieldsGenerate(cx: Context, fields: seq<Field>, level: nat)
    decreases fields, 1
  {
    fields != [] ==>
      && (Relevant(cx, fields[0]) ==>
            TypeGenerates(cx, fields[0].transferType,
                          if cx.isData && fields[0].isPartial then 0 else Deeper(level)))
      && FieldsGenerate(cx, fields[1..], level)
  }

  predicate TypeGenerates(cx: Context, t: TransferType, level: nat)
    decreases t, 3
  {
    if IsNested(t) then InstanceGenerates(cx, t.nested.value.fields, level)
    else if t.UnionType? && HasNested(t) then
      && CompositeCount(t.members) <= 1
      && (exists m | m in t.members :: Tested(m, MixedUnion(t.members)))
      && MembersGenerate(cx, t.members, MixedUnion(t.members), level)
      && (MixedUnion(t.members) ==> TypeGenerates(cx, t.members[CompositeIndex(t.members)], level))
    else if t.CollectionType? && HasNested(t) then TypeGenerates(Context(cx.isData, false), t.inner, 0)
    else if t.MappingType? && HasNested(t) then TypeGenerates(Context(cx.isData, false), t.value, 0)
    else true
  }

  predicate MembersGenerate(cx: Context, members: seq<TransferType>, all: bool, level: nat)
    decreases members, 2
  {
    members != [] ==>
      && (Tested(members[0], all) && Rebuilt(members[0]) ==>
            InstanceGenerates(cx, members[0].nested.value.fields, level))
      && MembersGenerate(cx, members[1..], all, level)
  }

  // Each of the following says that the predicate suffices, and that it is
  // necessary unless the source is hoistable in spite of its depth.

  lemma {:induction false} FieldsDomain(
    cx: Context, fields: seq<Field>, dict: Name, mapping: bool, src: Expr, names: set<Name>)
    ensures FieldsGenerate(cx, fields, Level(src)) ==> GenFields(cx, fields, dict, mapping, src, names).Gen?
    ensures GenFields(cx, fields, dict, mapping, src, names).Gen? && !DeepItems(FieldExpr(mapping, src, "")) ==>
              FieldsGenerate(cx, fields, Level(src))
    decreases fields, 1
  {
    if fields == [] {
    } else if !Relevant(cx, fields[0]) {
      FieldsDomain(cx, fields[1..], dict, mapping, src, names);
    } else {
      var f := fields[0];
      var access := FieldExpr(mapping, src, f.name);
      assert Level(access) == Deeper(Level(src));
      assert DeepItems(access) == DeepItems(FieldExpr(mapping, src, ""));
      var value := Fresh(Plain("source_value"), names);
      if cx.isData && f.isPartial {
        TypeDomain(cx, f.transferType, cx.nestedAsDict, Var(value), ToItem(dict, f.name), names + {value});
      } else {
        TypeDomain(cx, f.transferType, cx.nestedAsDict, access, ToItem(dict, f.name), names);
      }
      var block := GenFieldBlock(cx, f, dict, access, names);
      var first := GenField(cx, f, dict, mapping, src, names);
      assert first.Gen? == block.Gen?;
      if first.Gen? {
        FieldsDomain(cx, fields[1..], dict, mapping, src, first.names);
      }
    }
  }

  lemma {:induction false} BranchesDomain(
    cx: Context, fields: seq<Field>, dict: Name, src: Expr, names: set<Name>)
    ensures FieldsGenerate(cx, fields, Level(src)) ==> GenBranches(cx, fields, dict, src, names).Gen?
    ensures GenBranches(cx, fields, dict, src, names).Gen? ==> FieldsGenerate(cx, fields, Level(src))
    decreases fields, 2
  {
    FieldsDomain(cx, fields, dict, true, src, names);
    var items := GenFields(cx, fields, dict, true, src, names);
    if items.Gen? {
      FieldsDomain(cx, fields, dict, false, src, items.names);
    }
  }

  lemma {:induction false} InstanceDomain(
    cx: Context, fields: seq<Field>, destination: Destination, src: Expr, target: Target, names: set<Name>)
    ensures InstanceGenerates(cx, fields, Level(src)) ==> GenInstance(cx, fields, destination, src, target, names).Gen?
    ensures GenInstance(cx, fields, destination, src, target, names).Gen? && !DeepItems(src) ==>
              InstanceGenerates(cx, fields, Level(src))
    decreases fields, 4
  {
    var dict := Fresh(Plain("unstructured_data"), names);
    ReadsDomain(cx, fields, dict, src, names + {dict});
  }

  lemma {:induction false} ReadsDomain(cx: Context, fields: seq<Field>, dict: Name, src: Expr, names: set<Name>)
    ensures InstanceGenerates(cx, fields, Level(src)) ==> GenReads(cx, fields, dict, src, names).Gen?
    ensures GenReads(cx, fields, dict, src, names).Gen? && !DeepItems(src) ==> InstanceGenerates(cx, fields, Level(src))
    decreases fields, 3
  {
    if RelevantFields(cx, fields) != [] {
      if MustHoist(cx, fields, src) {
        if HoistBase(src).Some? {
          var hoisted := Fresh(HoistBase(src).value, names);
          BranchesDomain(cx, fields, dict, Var(hoisted), names + {hoisted});
        }
      } else {
        BranchesDomain(cx, fields, dict, src, names);
      }
    }
  }

  lemma {:induction false} TypeDomain(
    cx: Context, t: TransferType, asDict: bool, src: Expr, target: Target, names: set<Name>)
    ensures TypeGenerates(cx, t, Level(src)) ==> GenType(cx, t, asDict, src, target, names).Gen?
    ensures GenType(cx, t, asDict, src, target, names).Gen? && !DeepItems(src) ==> TypeGenerates(cx, t, Level(src))
    decreases t, 5
  {
    if IsNested(t) {
      InstanceDomain(cx, t.nested.value.fields, NestedDestination(t, asDict, cx.isData), src, target, names);
    } else if t.UnionType? && HasNested(t) {
      UnionDomain(cx, t, src, target, names);
    } else if t.CollectionType? && HasNested(t) {
      TypeFunctionDomain(cx.isData, t.inner);
    } else if t.MappingType? && HasNested(t) {
      TypeFunctionDomain(cx.isData, t.value);
    }
  }

  lemma {:induction false} TypeFunctionDomain(isData: bool, t: TransferType)
    ensures GenTypeFunction(isData, t).Some? <==> TypeGenerates(Context(isData, false), t, 0)
    decreases t, 6
  {
    TypeDomain(Context(isData, false), t, false, Var(SOURCE_VALUE), ToName(RESULT_OF_TYPE),
               {RESULT_OF_TYPE, SOURCE_VALUE});
  }

  lemma {:induction false} UnionDomain(cx: Context, t: TransferType, src: Expr, target: Target, names: set<Name>)
    requires t.UnionType? && HasNested(t)
    ensures TypeGenerates(cx, t, Level(src)) ==> GenUnion(cx, t.members, src, target, names).Gen?
    ensures GenUnion(cx, t.members, src, target, names).Gen? && !DeepItems(src) ==> TypeGenerates(cx, t, Level(src))
    decreases t.members, 6
  {
    var members := t.members;
    var mixed := MixedUnion(members);
    MembersDomain(cx, members, mixed, src, target, names);
    var tests := GenMembers(cx, members, mixed, src, target, names);
    if tests.GenArms? {
      if mixed {
        TypeDomain(cx, members[CompositeIndex(members)], false, src, target, tests.names);
      }
      var orelse := GenElse(cx, members, src, target, tests.names);
      assert mixed && TypeGenerates(cx, members[CompositeIndex(members)], Level(src)) ==> orelse.Gen?;
      assert mixed && orelse.Gen? && !DeepItems(src) ==> TypeGenerates(cx, members[CompositeIndex(members)], Level(src));
      assert GenUnion(cx, members, src, target, names).Gen? <==>
             CompositeCount(members) <= 1 && tests.arms != [] && orelse.Gen?;
    }
  }

  lemma {:induction false} MembersDomain(
    cx: Context, members: seq<TransferType>, all: bool, src: Expr, target: Target, names: set<Name>)
    ensures MembersGenerate(cx, members, all, Level(src)) ==> GenMembers(cx, members, all, src, target, names).GenArms?
    ensures GenMembers(cx, members, all, src, target, names).GenArms? && !DeepItems(src) ==>
              MembersGenerate(cx, members, all, Level(src))
    ensures var gen := GenMembers(cx, members, all, src, target, names);
            gen.GenArms? ==> (gen.arms != [] <==> exists m | m in members :: Tested(m, all))
    decreases members, 5
  {
    if members == [] {
    } else {
      assert forall m :: m in members <==> m == members[0] || m in members[1..];
      if !Tested(members[0], all) {
        MembersDomain(cx, members[1..], all, src, target, names);
      } else {
        if Rebuilt(members[0]) {
          InstanceDomain(cx, members[0].nested.value.fields, MemberDestination(members[0], cx.isData), src, target,
                         names);
        }
        var body := GenMember(cx, members[0], src, target, names);
        if body.Gen? {
          MembersDomain(cx, members[1..], all, src, target, body.names);
        }
      }
    }
  }

  /** A transfer function is generated exactly for the trees that satisfy the predicate. */
  lemma {:induction false} DataDomain(isData: bool, s: Shape, fields: seq<Field>, destination: Destination)
    ensures GenData(isData, s, fields, destination).Some? <==>
            InstanceGenerates(Context(isData, destination.DictDestination?), fields, 0)
    decreases s
  {
    match s
    case PlainShape =>
      InstanceDomain(Context(isData, destination.DictDestination?), fields, destination, Var(SOURCE_INSTANCE),
                     ToName(RESULT_OF_TYPE), {RESULT_OF_TYPE, SOURCE_INSTANCE});
    case CollectionShape(_, item) => DataDomain(isData, item, fields, destination);
    case MappingShape(_, key, _) => DataDomain(isData, key, fields, destination);
  }
}
