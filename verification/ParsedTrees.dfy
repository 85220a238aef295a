/** What parsing guarantees to the backends: the trees it makes are of the kind that their theorems ask for. */
module ParsedTrees {
  import opened Outcomes
  import opened TransferTypes
  import opened TransferCompiler
  import opened BackendAgreement
  import opened BackendDifference
  import opened FieldPaths
  import opened DtoParsing
  import opened NestedFields
  import opened MarkedFields

  lemma {:induction false} FieldsOfModel(models: Models, cls: TypeId)
    requires ModelsHaveDistinctNames(models)
    ensures DistinctNames(FieldsOf(models, cls))
  {
  }

  /** In every tree that is parsed names are distinct throughout, and `None` is no model. */
  lemma {:induction false} ParsedIsProper(cfg: Config, fields: seq<FieldDef>, paths: Paths, depth: nat)
    requires WithinLimit(cfg, depth) && DistinctNames(fields) && ModelsHaveDistinctNames(cfg.models)
    ensures Proper(ParseFields(cfg, fields, paths, depth))
    decreases cfg.maxDepth - depth, 1, fields
  {
    if fields != [] {
      var rest := fields[1..];
      assert forall i | 0 <= i < |rest| :: rest[i] == fields[i + 1];
      ParsedIsProper(cfg, rest, paths, depth);
      ParsedNames(cfg, rest, paths, depth);
      var parsed := ParseFields(cfg, rest, paths, depth);
      match CreateTransferType(cfg, fields[0].typ, paths, fields[0].name, depth)
      case None =>
      case Some(t) =>
        TypeIsProper(cfg, fields[0].typ, paths, fields[0].name, depth);
        var f := MakeField(cfg, paths, fields[0], t);
        assert ([f] + parsed)[1..] == parsed;
        forall g | g in parsed
          ensures g.name != f.name
        {
          var d :| d in rest && d.name == g.name;
        }
    }
  }

  lemma {:induction false} TypeIsProper(cfg: Config, t: TypeDef, paths: Paths, name: Segment, depth: nat)
    requires WithinLimit(cfg, depth) && ModelsHaveDistinctNames(cfg.models)
    ensures var r := CreateTransferType(cfg, t, paths, name, depth); r.Some? ==> ProperType(r.value)
    decreases cfg.maxDepth - depth, 0, t
  {
    var here := FilterPaths(paths, name);
    match t
    case LeafDef(_, _) =>
    case ModelDef(cls) =>
      if depth < cfg.maxDepth {
        FieldsOfModel(cfg.models, cls);
        ParsedIsProper(cfg, FieldsOf(cfg.models, cls), here, depth + 1);
      }
    case UnionDef(members) => TypesAreProper(cfg, members, here, 0, depth);
    case TupleDef(_) =>
    case MappingDef(_, _, value) => TypeIsProper(cfg, value, here, Decimal(1), depth);
    case CollectionDef(_, inner) => TypeIsProper(cfg, inner, here, Decimal(0), depth);
  }

  lemma {:induction false} TypesAreProper(cfg: Config, ts: seq<TypeDef>, paths: Paths, from: nat, depth: nat)
    requires WithinLimit(cfg, depth) && ModelsHaveDistinctNames(cfg.models)
    ensures var r := CreateTransferTypes(cfg, ts, paths, from, depth);
            r.Some? ==> forall m | m in r.value :: ProperType(m)
    decreases cfg.maxDepth - depth, 0, ts
  {
    if ts != [] {
      TypeIsProper(cfg, ts[0], paths, Decimal(from), depth);
      TypesAreProper(cfg, ts[1..], paths, from + 1, depth);
    }
  }

  // ----- trees that both backends treat alike, whatever the classes -----

  /** Every model has a field that is not excluded, and unions hold no models. */
  predicate Simple(t: TransferType)
    decreases t, 1
  {
    match t
    case SimpleType(_, _, nested) =>
      nested.Some? ==> AllSimple(nested.value.fields) && exists f :: f in nested.value.fields && !f.isExcluded
    case UnionType(_) => !HasNested(t)
    case CollectionType(_, inner) => Simple(inner)
    case TupleType(_) => true
    case MappingType(_, _, value) => Simple(value)
  }

  predicate AllSimple(fields: seq<Field>)
    decreases fields, 0
  {
    fields != [] ==> Simple(fields[0].transferType) && AllSimple(fields[1..])
  }

  lemma {:induction false} SomeAreRelevant(cx: Context, fields: seq<Field>, f: Field)
    requires f in fields && !f.isExcluded
    ensures RelevantFields(cx, fields) != []
    decreases fields
  {
    if f != fields[0] {
      SomeAreRelevant(cx, fields[1..], f);
    }
  }

  /** Such trees are supported: the backends agree on them for any classes, unless a field access fails. */
  lemma {:induction false} SimpleIsSupported(cx: Context, fields: seq<Field>)
    requires AllSimple(fields)
    ensures FieldsSupported(cx, true, fields)
    decreases fields, 1
  {
    if fields != [] {
      SimpleTypeIsSupported(cx, fields[0].transferType);
      SimpleIsSupported(cx, fields[1..]);
    }
  }

  lemma {:induction false} SimpleTypeIsSupported(cx: Context, t: TransferType)
    requires Simple(t)
    ensures TypeSupported(cx, true, t) && TouchesSource(cx, t)
    decreases t, 0
  {
    match t
    case SimpleType(_, _, nested) =>
      if nested.Some? {
        SimpleIsSupported(cx, nested.value.fields);
        var f :| f in nested.value.fields && !f.isExcluded;
        SomeAreRelevant(cx, nested.value.fields, f);
      }
    case UnionType(_) =>
    case CollectionType(_, inner) => SimpleTypeIsSupported(Context(cx.isData, false), inner);
    case TupleType(_) =>
    case MappingType(_, _, value) => SimpleTypeIsSupported(Context(cx.isData, false), value);
  }
}
