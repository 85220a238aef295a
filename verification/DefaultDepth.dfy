/**
 At the default `max_nested_depth` of 1, code can be generated for every DTO
 whose unions the interpreter supports as well.
 */
module DefaultDepth {
  import opened Outcomes
  import opened TransferTypes
  import opened GeneratedCode
  import opened TransferCompiler
  import opened GenerationDomain
  import opened BackendAgreement
  import opened FieldPaths
  import opened DtoParsing

  lemma {:induction false} NoDepthNoNested(t: TransferType)
    requires TypeDepth(t) == 0
    ensures !HasNested(t)
    decreases t
  {
    match t
    case SimpleType(_, _, _) =>
    case UnionType(members) => NoDepthNoneNested(members);
    case CollectionType(_, inner) => NoDepthNoNested(inner);
    case TupleType(inners) => NoDepthNoneNested(inners);
    case MappingType(_, key, value) => NoDepthNoNested(key); NoDepthNoNested(value);
  }

  lemma {:induction false} NoDepthNoneNested(ts: seq<TransferType>)
    requires TypesDepth(ts) == 0
    ensures forall t | t in ts :: !HasNested(t)
    decreases ts
  {
    if ts != [] {
      NoDepthNoNested(ts[0]);
      NoDepthNoneNested(ts[1..]);
    }
  }

  lemma {:induction false} FlatFieldsGenerate(cx: Context, fields: seq<Field>, level: nat)
    requires FieldsDepth(fields) == 0
    ensures FieldsGenerate(cx, fields, level)
    decreases fields
  {
    if fields != [] {
      NoDepthNoNested(fields[0].transferType);
      FlatFieldsGenerate(cx, fields[1..], level);
    }
  }

  lemma {:induction false} ShallowFieldsGenerate(cx: Context, fields: seq<Field>)
    requires FieldsSupported(cx, false, fields) && FieldsDepth(fields) <= 1
    ensures FieldsGenerate(cx, fields, 0)
    decreases fields
  {
    if fields != [] {
      if Relevant(cx, fields[0]) {
        ShallowTypeGenerates(cx, fields[0].transferType, if cx.isData && fields[0].isPartial then 0 else 1);
      }
      ShallowFieldsGenerate(cx, fields[1..]);
    }
  }

  lemma {:induction false} ShallowTypeGenerates(cx: Context, t: TransferType, level: nat)
    requires TypeSupported(cx, false, t) && TypeDepth(t) <= 1 && level <= 1
    ensures TypeGenerates(cx, t, level)
    decreases t
  {
    match t
    case SimpleType(_, _, nested) =>
      if nested.Some? {
        FlatFieldsGenerate(cx, nested.value.fields, level);
        FlatFieldsGenerate(cx, nested.value.fields, 0);
      }
    case UnionType(members) =>
      if HasNested(t) {
        SimpleMembers(cx, false, members);
        MembersAreSimple(cx, members);
        ShallowMembersGenerate(cx, members, level);
        var m :| m in members && HasNested(m);
        assert !MixedUnion(members) && Tested(m, MixedUnion(members));
      }
    case CollectionType(_, inner) => ShallowTypeGenerates(Context(cx.isData, false), inner, 0);
    case TupleType(_) =>
    case MappingType(_, _, value) => ShallowTypeGenerates(Context(cx.isData, false), value, 0);
  }

  lemma {:induction false} MembersAreSimple(cx: Context, members: seq<TransferType>)
    requires MembersSupported(cx, false, members)
    ensures forall m | m in members :: m.SimpleType?
    decreases members
  {
    if members != [] {
      MembersAreSimple(cx, members[1..]);
    }
  }

  lemma {:induction false} ShallowMembersGenerate(cx: Context, members: seq<TransferType>, level: nat)
    requires MembersSupported(cx, false, members) && TypesDepth(members) <= 1 && level <= 1
    ensures MembersGenerate(cx, members, false, level)
    decreases members
  {
    if members != [] {
      if Rebuilt(members[0]) {
        FlatFieldsGenerate(cx, members[0].nested.value.fields, level);
        FlatFieldsGenerate(cx, members[0].nested.value.fields, 0);
      }
      ShallowMembersGenerate(cx, members[1..], level);
    }
  }

  /** The fields parsed at a depth limit of at most 1 always have a generated transfer function. */
  lemma {:induction false} GeneratesAtDefaultDepth(
    cfg: Config, cls: TypeId, paths: Paths, s: Shape, destination: Destination)
    requires cfg.maxDepth <= 1
    requires FieldsSupported(Context(cfg.isData, destination.DictDestination?), false, ParseModel(cfg, cls, paths, 0))
    ensures GenData(cfg.isData, s, ParseModel(cfg, cls, paths, 0), destination).Some?
  {
    var fields := ParseModel(cfg, cls, paths, 0);
    var cx := Context(cfg.isData, destination.DictDestination?);
    DepthIsBounded(cfg, cls, paths, 0);
    ShallowFieldsGenerate(cx, fields);
    DataDomain(cfg.isData, s, fields, destination);
  }
}
