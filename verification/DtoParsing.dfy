/**
 How a DTO unfolds a model into transfer field definitions: `parse_model`,
 `_create_transfer_type` and their helpers in litestar/dto/_backend.py. Models
 may refer to themselves; the nesting depth is bounded.
 */
module DtoParsing {
  import opened Outcomes
  import opened TransferTypes
  import opened FieldPaths

  /** An annotation, by the handler that `_get_handler_for_field_definition` picks for it. */
  datatype TypeDef =
    | LeafDef(annotation: TypeId, isNoneType: bool)
    | ModelDef(cls: TypeId)
    | UnionDef(members: seq<TypeDef>)
    | TupleDef(inners: seq<TypeDef>)
    | MappingDef(origin: TypeId, key: TypeDef, value: TypeDef)
    | CollectionDef(origin: TypeId, inner: TypeDef)

  datatype Mark = Unmarked | ReadOnly | WriteOnly | Private

  datatype FieldDef = FieldDef(name: string, typ: TypeDef, mark: Mark)

  type Models = map<TypeId, seq<FieldDef>>

  datatype Config = Config(
    models: Models,
    isData: bool,
    partial: bool,
    underscorePrivate: bool,
    maxDepth: nat
  )

  /** The nesting depth reached so far has not passed `max_nested_depth`. */
  predicate WithinLimit(cfg: Config, depth: nat) {
    depth <= cfg.maxDepth
  }

  // ----- exclusion -----

  /** `_should_mark_private` */
  function EffectiveMark(cfg: Config, f: FieldDef): Mark {
    if cfg.underscorePrivate && f.mark == Unmarked && f.name != "" && f.name[0] == '_' then Private else f.mark
  }

  predicate ExcludedByMark(cfg: Config, f: FieldDef) {
    var mark := EffectiveMark(cfg, f);
    mark == Private || (cfg.isData && mark == ReadOnly) || (!cfg.isData && mark == WriteOnly)
  }

  function FieldsOf(models: Models, cls: TypeId): seq<FieldDef> {
    if cls in models then models[cls] else []
  }

  // ----- unfolding -----

  function IsOptionalDef(t: TypeDef): bool {
    t.UnionDef? && exists m | m in t.members :: m.LeafDef? && m.isNoneType
  }

  function MakeField(cfg: Config, paths: Paths, f: FieldDef, t: TransferType): Field {
    Field(f.name, t, cfg.partial, ExcludedByName(paths, f.name) || ExcludedByMark(cfg, f), IsOptionalDef(f.typ),
          if [f.name] in paths.rename then Some(paths.rename[[f.name]]) else None)
  }

  /** `parse_model`. A field whose type would nest too deeply is left out altogether. */
  function ParseModel(cfg: Config, cls: TypeId, paths: Paths, depth: nat): seq<Field>
    requires WithinLimit(cfg, depth)
    decreases cfg.maxDepth - depth, 2
  {
    ParseFields(cfg, FieldsOf(cfg.models, cls), paths, depth)
  }

  function ParseFields(cfg: Config, fields: seq<FieldDef>, paths: Paths, depth: nat): seq<Field>
    requires WithinLimit(cfg, depth)
    decreases cfg.maxDepth - depth, 1, fields
  {
    if fields == [] then []
    else
      var rest := ParseFields(cfg, fields[1..], paths, depth);
      match CreateTransferType(cfg, fields[0].typ, paths, fields[0].name, depth)
      case None => rest
      case Some(t) => [MakeField(cfg, paths, fields[0], t)] + rest
  }

  /** `_create_transfer_type`. The result is missing where the source raises RecursionError. */
  function CreateTransferType(cfg: Config, t: TypeDef, paths: Paths, name: Segment, depth: nat): Option<TransferType>
    requires WithinLimit(cfg, depth)
    decreases cfg.maxDepth - depth, 0, t
  {
    var here := FilterPaths(paths, name);
    match t
    case LeafDef(annotation, isNoneType) => Some(SimpleType(annotation, isNoneType, None))
    case ModelDef(cls) =>
      if depth == cfg.maxDepth then None
      else Some(SimpleType(cls, false, Some(NestedFieldInfo(cls, ParseModel(cfg, cls, here, depth + 1)))))
    case UnionDef(members) =>
      (match CreateTransferTypes(cfg, members, here, 0, depth)
       case None => None
       case Some(ts) => Some(UnionType(ts)))
    case TupleDef(inners) =>
      (match CreateTransferTypes(cfg, inners, here, 0, depth)
       case None => None
       case Some(ts) => Some(TupleType(ts)))
    case MappingDef(origin, key, value) =>
      (match CreateTransferType(cfg, key, here, Decimal(0), depth)
       case None => None
       case Some(k) =>
         match CreateTransferType(cfg, value, here, Decimal(1), depth)
         case None => None
         case Some(v) => Some(MappingType(origin, k, v)))
    case CollectionDef(origin, inner) =>
      (match CreateTransferType(cfg, inner, here, Decimal(0), depth)
       case None => None
       case Some(i) => Some(CollectionType(origin, i)))
  }

  /** The types of a union or a tuple, numbered from `from`. */
  function CreateTransferTypes(cfg: Config, ts: seq<TypeDef>, paths: Paths, from: nat, depth: nat)
    : Option<seq<TransferType>>
    requires WithinLimit(cfg, depth)
    decreases cfg.maxDepth - depth, 0, ts
  {
    if ts == [] then Some([])
    else
      match CreateTransferType(cfg, ts[0], paths, Decimal(from), depth)
      case None => None
      case Some(t) =>
        match CreateTransferTypes(cfg, ts[1..], paths, from + 1, depth)
        case None => None
        case Some(rest) => Some([t] + rest)
  }

  /** `parse_model` as the loop it is. */
  method RunParseModel(cfg: Config, cls: TypeId, paths: Paths, depth: nat) returns (definedFields: seq<Field>)
    requires WithinLimit(cfg, depth)
    ensures definedFields == ParseModel(cfg, cls, paths, depth)
  {
    var fields := FieldsOf(cfg.models, cls);
    definedFields := [];
    for i := 0 to |fields|
      invariant definedFields + ParseFields(cfg, fields[i..], paths, depth) == ParseFields(cfg, fields, paths, depth)
    {
      ParseFirst(cfg, fields, i, paths, depth);
      ghost var rest := ParseFields(cfg, fields[i + 1..], paths, depth);
      var t := CreateTransferType(cfg, fields[i].typ, paths, fields[i].name, depth);
      if t.None? { continue; }
      var f := MakeField(cfg, paths, fields[i], t.value);
      assert definedFields + ([f] + rest) == definedFields + [f] + rest;
      definedFields := definedFields + [f];
    }
    assert fields[|fields|..] == [] && definedFields + [] == definedFields;
  }

  lemma {:induction false} ParseFirst(cfg: Config, fields: seq<FieldDef>, i: nat, paths: Paths, depth: nat)
    requires WithinLimit(cfg, depth) && i < |fields|
    ensures ParseFields(cfg, fields[i..], paths, depth)
         == var rest := ParseFields(cfg, fields[i + 1..], paths, depth);
            match CreateTransferType(cfg, fields[i].typ, paths, fields[i].name, depth)
            case None => rest
            case Some(t) => [MakeField(cfg, paths, fields[i], t)] + rest
  {
    assert fields[i..][0] == fields[i] && fields[i..][1..] == fields[i + 1..];
  }

  /** Fields come in the order of their definitions. */
  lemma {:induction false} ParseOfBoth(cfg: Config, a: seq<FieldDef>, b: seq<FieldDef>, paths: Paths, depth: nat)
    requires WithinLimit(cfg, depth)
    ensures ParseFields(cfg, a + b, paths, depth) == ParseFields(cfg, a, paths, depth) + ParseFields(cfg, b, paths, depth)
    decreases a
  {
    if a == [] {
      assert a + b == b;
    } else {
      assert (a + b)[0] == a[0] && (a + b)[1..] == a[1..] + b;
      ParseOfBoth(cfg, a[1..], b, paths, depth);
    }
  }

  // ----- depth -----

  function Max(a: nat, b: nat): nat {
    if a < b then b else a
  }

  /** The longest chain of nested models in a type. */
  function TypeDepth(t: TransferType): nat
    decreases t, 1
  {
    match t
    case SimpleType(_, _, nested) => if nested.Some? then 1 + FieldsDepth(nested.value.fields) else 0
    case UnionType(members) => TypesDepth(members)
    case CollectionType(_, inner) => TypeDepth(inner)
    case TupleType(inners) => TypesDepth(inners)
    case MappingType(_, key, value) => Max(TypeDepth(key), TypeDepth(value))
  }

  function TypesDepth(ts: seq<TransferType>): nat
    decreases ts, 0
  {
    if ts == [] then 0 else Max(TypeDepth(ts[0]), TypesDepth(ts[1..]))
  }

  function FieldsDepth(fields: seq<Field>): nat
    decreases fields, 0
  {
    if fields == [] then 0 else Max(TypeDepth(fields[0].transferType), FieldsDepth(fields[1..]))
  }

  /** No chain of nested models in the result is longer than `max_nested_depth`, whatever the models refer to. */
  lemma {:induction false} DepthIsBounded(cfg: Config, cls: TypeId, paths: Paths, depth: nat)
    requires WithinLimit(cfg, depth)
    ensures FieldsDepth(ParseModel(cfg, cls, paths, depth)) <= cfg.maxDepth - depth
    decreases cfg.maxDepth - depth, 3
  {
    FieldsDepthIsBounded(cfg, FieldsOf(cfg.models, cls), paths, depth);
  }

  lemma {:induction false} FieldsDepthIsBounded(cfg: Config, fields: seq<FieldDef>, paths: Paths, depth: nat)
    requires WithinLimit(cfg, depth)
    ensures FieldsDepth(ParseFields(cfg, fields, paths, depth)) <= cfg.maxDepth - depth
    decreases cfg.maxDepth - depth, 2, fields
  {
    if fields != [] {
      FieldsDepthIsBounded(cfg, fields[1..], paths, depth);
      TypeDepthIsBounded(cfg, fields[0].typ, paths, fields[0].name, depth);
    }
  }

  lemma {:induction false} TypeDepthIsBounded(cfg: Config, t: TypeDef, paths: Paths, name: Segment, depth: nat)
    requires WithinLimit(cfg, depth)
    ensures var r := CreateTransferType(cfg, t, paths, name, depth); r.Some? ==> TypeDepth(r.value) <= cfg.maxDepth - depth
    decreases cfg.maxDepth - depth, 1, t
  {
    var here := FilterPaths(paths, name);
    match t
    case LeafDef(_, _) =>
    case ModelDef(_) => ModelDepthIsBounded(cfg, t, paths, name, depth);
    case UnionDef(members) => TypesDepthIsBounded(cfg, members, here, 0, depth);
    case TupleDef(inners) => TypesDepthIsBounded(cfg, inners, here, 0, depth);
    case MappingDef(_, key, value) =>
      TypeDepthIsBounded(cfg, key, here, Decimal(0), depth);
      TypeDepthIsBounded(cfg, value, here, Decimal(1), depth);
    case CollectionDef(_, inner) => TypeDepthIsBounded(cfg, inner, here, Decimal(0), depth);
  }

  lemma {:induction false} ModelDepthIsBounded(cfg: Config, t: TypeDef, paths: Paths, name: Segment, depth: nat)
    requires WithinLimit(cfg, depth) && t.ModelDef?
    ensures var r := CreateTransferType(cfg, t, paths, name, depth); r.Some? ==> TypeDepth(r.value) <= cfg.maxDepth - depth
    decreases cfg.maxDepth - depth, 0
  {
    if depth < cfg.maxDepth {
      DepthIsBounded(cfg, t.cls, FilterPaths(paths, name), depth + 1);
    }
  }

  lemma {:induction false} TypesDepthIsBounded(cfg: Config, ts: seq<TypeDef>, paths: Paths, from: nat, depth: nat)
    requires WithinLimit(cfg, depth)
    ensures var r := CreateTransferTypes(cfg, ts, paths, from, depth);
            r.Some? ==> TypesDepth(r.value) <= cfg.maxDepth - depth
    decreases cfg.maxDepth - depth, 1, ts
  {
    if ts != [] {
      TypeDepthIsBounded(cfg, ts[0], paths, Decimal(from), depth);
      TypesDepthIsBounded(cfg, ts[1..], paths, from + 1, depth);
    }
  }

  /** A model occurs in the annotation. */
  predicate MentionsModel(t: TypeDef) {
    match t
    case LeafDef(_, _) => false
    case ModelDef(_) => true
    case UnionDef(members) => exists m | m in members :: MentionsModel(m)
    case TupleDef(inners) => exists m | m in inners :: MentionsModel(m)
    case MappingDef(_, key, value) => MentionsModel(key) || MentionsModel(value)
    case CollectionDef(_, inner) => MentionsModel(inner)
  }

  /** A field is left out exactly at the depth limit, when a model occurs anywhere in its annotation. */
  lemma {:induction false} LeftOutAtTheLimit(cfg: Config, t: TypeDef, paths: Paths, name: Segment, depth: nat)
    requires WithinLimit(cfg, depth)
    ensures CreateTransferType(cfg, t, paths, name, depth).None? <==> depth == cfg.maxDepth && MentionsModel(t)
    decreases t
  {
    var here := FilterPaths(paths, name);
    match t
    case LeafDef(_, _) =>
    case ModelDef(_) =>
    case UnionDef(members) => AllLeftOutAtTheLimit(cfg, members, here, 0, depth);
    case TupleDef(inners) => AllLeftOutAtTheLimit(cfg, inners, here, 0, depth);
    case MappingDef(_, key, value) =>
      LeftOutAtTheLimit(cfg, key, here, Decimal(0), depth);
      LeftOutAtTheLimit(cfg, value, here, Decimal(1), depth);
    case CollectionDef(_, inner) => LeftOutAtTheLimit(cfg, inner, here, Decimal(0), depth);
  }

  lemma {:induction false} AllLeftOutAtTheLimit(cfg: Config, ts: seq<TypeDef>, paths: Paths, from: nat, depth: nat)
    requires WithinLimit(cfg, depth)
    ensures CreateTransferTypes(cfg, ts, paths, from, depth).None? <==>
            depth == cfg.maxDepth && exists m | m in ts :: MentionsModel(m)
    decreases ts
  {
    if ts != [] {
      LeftOutAtTheLimit(cfg, ts[0], paths, Decimal(from), depth);
      AllLeftOutAtTheLimit(cfg, ts[1..], paths, from + 1, depth);
      assert forall m :: m in ts <==> m == ts[0] || m in ts[1..];
    }
  }
}
