/**
 What the unfolding of a model holds at any depth: peeling paths level by level
 comes to one rule on whole paths.
 */
module NestedFields {
  import opened Outcomes
  import opened TransferTypes
  import opened FieldPaths
  import opened DtoParsing

  // ----- places in a model and in the result -----

  /** A field by name, and the way into its type, as positions in composite types. */
  datatype Step = Step(name: string, positions: seq<nat>)

  function Positions(positions: seq<nat>): Path {
    if positions == [] then [] else [Decimal(positions[0])] + Positions(positions[1..])
  }

  function StepPath(s: Step): Path {
    [s.name] + Positions(s.positions)
  }

  function PathOf(steps: seq<Step>): Path {
    if steps == [] then [] else StepPath(steps[0]) + PathOf(steps[1..])
  }

  function Inner(t: TransferType, i: nat): Option<TransferType> {
    match t
    case SimpleType(_, _, _) => None
    case UnionType(members) => if i < |members| then Some(members[i]) else None
    case TupleType(inners) => if i < |inners| then Some(inners[i]) else None
    case CollectionType(_, inner) => if i == 0 then Some(inner) else None
    case MappingType(_, key, value) => if i == 0 then Some(key) else if i == 1 then Some(value) else None
  }

  function Descend(t: TransferType, positions: seq<nat>): Option<TransferType>
    decreases positions
  {
    if positions == [] then Some(t)
    else match Inner(t, positions[0])
      case None => None
      case Some(inner) => Descend(inner, positions[1..])
  }

  function FieldNamed(fields: seq<Field>, name: string): Option<Field> {
    if fields == [] then None
    else if fields[0].name == name then Some(fields[0])
    else FieldNamed(fields[1..], name)
  }

  /** The field the steps lead to. Positions of the last step lead on into its type and are not looked at. */
  function FieldAt(fields: seq<Field>, steps: seq<Step>): Option<Field>
    requires steps != []
    decreases steps
  {
    match FieldNamed(fields, steps[0].name)
    case None => None
    case Some(f) =>
      if |steps| == 1 then Some(f)
      else match Descend(f.transferType, steps[0].positions)
        case None => None
        case Some(t) => if IsNested(t) then FieldAt(t.nested.value.fields, steps[1..]) else None
  }

  function InnerDef(t: TypeDef, i: nat): Option<TypeDef> {
    match t
    case LeafDef(_, _) => None
    case ModelDef(_) => None
    case UnionDef(members) => if i < |members| then Some(members[i]) else None
    case TupleDef(inners) => if i < |inners| then Some(inners[i]) else None
    case CollectionDef(_, inner) => if i == 0 then Some(inner) else None
    case MappingDef(_, key, value) => if i == 0 then Some(key) else if i == 1 then Some(value) else None
  }

  function DescendDef(t: TypeDef, positions: seq<nat>): Option<TypeDef>
    decreases positions
  {
    if positions == [] then Some(t)
    else match InnerDef(t, positions[0])
      case None => None
      case Some(inner) => DescendDef(inner, positions[1..])
  }

  function DefNamed(fields: seq<FieldDef>, name: string): Option<FieldDef> {
    if fields == [] then None
    else if fields[0].name == name then Some(fields[0])
    else DefNamed(fields[1..], name)
  }

  /** The definition the steps lead to, from a model, without any configuration. */
  function DefAt(models: Models, fields: seq<FieldDef>, steps: seq<Step>): Option<FieldDef>
    requires steps != []
    decreases steps
  {
    match DefNamed(fields, steps[0].name)
    case None => None
    case Some(f) =>
      if |steps| == 1 then Some(f)
      else match DescendDef(f.typ, steps[0].positions)
        case Some(ModelDef(cls)) => DefAt(models, FieldsOf(models, cls), steps[1..])
        case _ => None
  }

  predicate DistinctNames(fields: seq<FieldDef>) {
    forall i, j | 0 <= i < j < |fields| :: fields[i].name != fields[j].name
  }

  predicate ModelsHaveDistinctNames(models: Models) {
    forall cls | cls in models :: DistinctNames(models[cls])
  }

  // ----- what is known of a place -----

  /** The path of the last field, and the path of the place it is declared at. */
  function Parent(p: Path, steps: seq<Step>): Path
    requires steps != []
  {
    p + PathOf(steps[..|steps| - 1])
  }

  // ----- unfolding and the global rule -----

  /** The positions lead to a nested model in the transfer type exactly when they do in the annotation. */
  ghost predicate Leads(
    cfg: Config, t: TransferType, typ: TypeDef, positions: seq<nat>, paths: Paths, depth: nat)
  {
    match Descend(t, positions)
    case None => DescendDef(typ, positions).None?
    case Some(inner) =>
      && DescendDef(typ, positions).Some?
      && (IsNested(inner) <==> DescendDef(typ, positions).value.ModelDef?)
      && (IsNested(inner) ==>
            && depth < cfg.maxDepth
            && inner.nested.value.fields == ParseModel(cfg, DescendDef(typ, positions).value.cls, paths, depth + 1))
  }

  lemma {:induction false} DescendCreated(
    cfg: Config, t: TypeDef, paths: Paths, p: Path, name: Segment, depth: nat, positions: seq<nat>)
    requires WithinLimit(cfg, depth)
    requires CreateTransferType(cfg, t, PeelPaths(paths, p), name, depth).Some?
    ensures Leads(cfg, CreateTransferType(cfg, t, PeelPaths(paths, p), name, depth).value, t, positions,
                  PeelPaths(paths, p + [name] + Positions(positions)), depth)
    decreases positions
  {
    var here := PeelPaths(paths, p);
    FilterPeeled(paths, p, name);
    if positions == [] {
      assert p + [name] + Positions([]) == p + [name];
      CreatedHere(cfg, t, here, name, depth);
    } else {
      var i := positions[0];
      InnerCreated(cfg, t, here, name, depth, i);
      var r := CreateTransferType(cfg, t, here, name, depth).value;
      if Inner(r, i).Some? {
        DescendCreated(cfg, InnerDef(t, i).value, paths, p + [name], Decimal(i), depth, positions[1..]);
        assert p + [name] + Positions(positions) == p + [name] + [Decimal(i)] + Positions(positions[1..]);
      }
      LeadsFurther(cfg, r, t, positions, PeelPaths(paths, p + [name] + Positions(positions)), depth);
    }
  }

  /** A model is made of an annotation that is one, and of no other. */
  lemma {:induction false} CreatedHere(cfg: Config, t: TypeDef, paths: Paths, name: Segment, depth: nat)
    requires WithinLimit(cfg, depth) && CreateTransferType(cfg, t, paths, name, depth).Some?
    ensures Leads(cfg, CreateTransferType(cfg, t, paths, name, depth).value, t, [], FilterPaths(paths, name), depth)
  {
  }

  lemma {:induction false} LeadsFurther(
    cfg: Config, r: TransferType, t: TypeDef, positions: seq<nat>, below: Paths, depth: nat)
    requires positions != [] && (Inner(r, positions[0]).Some? <==> InnerDef(t, positions[0]).Some?)
    requires Inner(r, positions[0]).Some? ==>
               Leads(cfg, Inner(r, positions[0]).value, InnerDef(t, positions[0]).value, positions[1..], below, depth)
    ensures Leads(cfg, r, t, positions, below, depth)
  {
  }

  lemma {:induction false} InnerCreated(cfg: Config, t: TypeDef, paths: Paths, name: Segment, depth: nat, i: nat)
    requires WithinLimit(cfg, depth) && CreateTransferType(cfg, t, paths, name, depth).Some?
    ensures var r := CreateTransferType(cfg, t, paths, name, depth).value;
            match Inner(r, i)
            case None => InnerDef(t, i).None?
            case Some(inner) =>
              InnerDef(t, i).Some? &&
              CreateTransferType(cfg, InnerDef(t, i).value, FilterPaths(paths, name), Decimal(i), depth) == Some(inner)
  {
    if t.UnionDef? {
      CreatedAt(cfg, t.members, FilterPaths(paths, name), 0, depth, i);
    } else if t.TupleDef? {
      CreatedAt(cfg, t.inners, FilterPaths(paths, name), 0, depth, i);
    }
  }

  lemma {:induction false} CreatedAt(cfg: Config, ts: seq<TypeDef>, paths: Paths, from: nat, depth: nat, i: nat)
    requires WithinLimit(cfg, depth) && CreateTransferTypes(cfg, ts, paths, from, depth).Some?
    ensures var rs := CreateTransferTypes(cfg, ts, paths, from, depth).value;
            && |rs| == |ts|
            && (i < |ts| ==> CreateTransferType(cfg, ts[i], paths, Decimal(from + i), depth) == Some(rs[i]))
    decreases ts
  {
    if ts != [] {
      CreatedAt(cfg, ts[1..], paths, from + 1, depth, if i == 0 then 0 else i - 1);
    }
  }

  lemma {:induction false} NamedParsed(cfg: Config, fields: seq<FieldDef>, paths: Paths, depth: nat, name: string)
    requires WithinLimit(cfg, depth) && DistinctNames(fields)
    ensures var r := FieldNamed(ParseFields(cfg, fields, paths, depth), name);
            r.Some? ==>
              && DefNamed(fields, name).Some?
              && var d := DefNamed(fields, name).value;
                 && d in fields && d.name == name
                 && CreateTransferType(cfg, d.typ, paths, name, depth).Some?
                 && r.value == MakeField(cfg, paths, d, CreateTransferType(cfg, d.typ, paths, name, depth).value)
    ensures DefNamed(fields, name).Some?
            && CreateTransferType(cfg, DefNamed(fields, name).value.typ, paths, name, depth).Some?
            ==> FieldNamed(ParseFields(cfg, fields, paths, depth), name).Some?
    decreases fields
  {
    if fields != [] {
      assert forall f | f in fields[1..] :: f.name != fields[0].name;
      NamedParsed(cfg, fields[1..], paths, depth, name);
    }
  }

  /** The annotation that a transfer type was made from. */
  function AnnotationOf(t: TransferType): TypeDef {
    match t
    case SimpleType(annotation, isNoneType, nested) =>
      if nested.Some? && !isNoneType then ModelDef(annotation) else LeafDef(annotation, isNoneType)
    case UnionType(members) => UnionDef(AnnotationsOf(members))
    case CollectionType(origin, inner) => CollectionDef(origin, AnnotationOf(inner))
    case TupleType(inners) => TupleDef(AnnotationsOf(inners))
    case MappingType(origin, key, value) => MappingDef(origin, AnnotationOf(key), AnnotationOf(value))
  }

  function AnnotationsOf(ts: seq<TransferType>): seq<TypeDef> {
    if ts == [] then [] else [AnnotationOf(ts[0])] + AnnotationsOf(ts[1..])
  }

  /** A transfer type says all that its annotation did. */
  lemma {:induction false} AnnotationIsKept(cfg: Config, t: TypeDef, paths: Paths, name: Segment, depth: nat)
    requires WithinLimit(cfg, depth) && CreateTransferType(cfg, t, paths, name, depth).Some?
    ensures AnnotationOf(CreateTransferType(cfg, t, paths, name, depth).value) == t
    decreases t
  {
    var here := FilterPaths(paths, name);
    match t
    case LeafDef(_, _) =>
    case ModelDef(_) =>
    case UnionDef(members) => AnnotationsAreKept(cfg, members, here, 0, depth);
    case TupleDef(inners) => AnnotationsAreKept(cfg, inners, here, 0, depth);
    case MappingDef(_, key, value) =>
      AnnotationIsKept(cfg, key, here, Decimal(0), depth);
      AnnotationIsKept(cfg, value, here, Decimal(1), depth);
    case CollectionDef(_, inner) => AnnotationIsKept(cfg, inner, here, Decimal(0), depth);
  }

  lemma {:induction false} AnnotationsAreKept(cfg: Config, ts: seq<TypeDef>, paths: Paths, from: nat, depth: nat)
    requires WithinLimit(cfg, depth) && CreateTransferTypes(cfg, ts, paths, from, depth).Some?
    ensures AnnotationsOf(CreateTransferTypes(cfg, ts, paths, from, depth).value) == ts
    decreases ts
  {
    if ts != [] {
      AnnotationIsKept(cfg, ts[0], paths, Decimal(from), depth);
      AnnotationsAreKept(cfg, ts[1..], paths, from + 1, depth);
    }
  }

  /**
   The field carries what the definition says, and what the global rules say of its
   place: exclusion, or a mark, and the new name.
   */
  ghost predicate FollowsRules(cfg: Config, paths: Paths, parent: Path, d: FieldDef, f: Field) {
    var path := parent + [d.name];
    && f.name == d.name
    && (f.isExcluded <==> ExcludedByPath(paths, parent, d.name) || ExcludedByMark(cfg, d))
    && f.serializationName == (if path in paths.rename then Some(paths.rename[path]) else None)
    && f.isPartial == cfg.partial
    && (f.isOptional <==> d.typ.UnionDef? && exists a :: LeafDef(a, true) in d.typ.members)
    && AnnotationOf(f.transferType) == d.typ
  }

  lemma {:induction false} MadeByRules(cfg: Config, paths: Paths, p: Path, d: FieldDef, t: TransferType)
    requires AnnotationOf(t) == d.typ
    ensures FollowsRules(cfg, paths, p, d, MakeField(cfg, PeelPaths(paths, p), d, t))
  {
    ExcludedByPathMeans(paths, p, d.name);
    PeelMember(paths.rename.Keys, p, [d.name]);
    if m :| d.typ.UnionDef? && m in d.typ.members && m.LeafDef? && m.isNoneType {
      assert LeafDef(m.annotation, true) in d.typ.members;
    }
  }

  lemma {:induction false} ParentOfRest(p: Path, steps: seq<Step>)
    requires |steps| > 1
    ensures Parent(p, steps) == Parent(p + StepPath(steps[0]), steps[1..])
  {
    var before := steps[..|steps| - 1];
    assert before[0] == steps[0] && before[1..] == steps[1..][..|steps[1..]| - 1];
  }

  /**
   The field that the first step names: it is in the result unless it is left out
   at the depth limit, and what lies below it was parsed from the model the step
   leads to, with paths peeled by the step.
   */
  lemma {:induction false} StepInto(cfg: Config, fields: seq<FieldDef>, paths: Paths, p: Path, depth: nat, step: Step)
    requires WithinLimit(cfg, depth) && DistinctNames(fields)
    ensures StepLeads(cfg, fields, PeelPaths(paths, p), PeelPaths(paths, p + StepPath(step)), depth, step)
  {
    var d := DefNamed(fields, step.name);
    if d.Some? && CreateTransferType(cfg, d.value.typ, PeelPaths(paths, p), step.name, depth).Some? {
      DescendCreated(cfg, d.value.typ, paths, p, step.name, depth, step.positions);
      assert p + StepPath(step) == p + [step.name] + Positions(step.positions);
    }
    StepNamed(cfg, fields, PeelPaths(paths, p), PeelPaths(paths, p + StepPath(step)), depth, step);
  }

  ghost predicate StepLeads(cfg: Config, fields: seq<FieldDef>, here: Paths, below: Paths, depth: nat, step: Step)
    requires WithinLimit(cfg, depth)
  {
    var d := DefNamed(fields, step.name);
    match FieldNamed(ParseFields(cfg, fields, here, depth), step.name)
    case None => d.None? || (depth == cfg.maxDepth && MentionsModel(d.value.typ))
    case Some(f) =>
      && d.Some? && d.value.name == step.name
      && !(depth == cfg.maxDepth && MentionsModel(d.value.typ))
      && Leads(cfg, f.transferType, d.value.typ, step.positions, below, depth)
  }

  lemma {:induction false} StepNamed(
    cfg: Config, fields: seq<FieldDef>, here: Paths, below: Paths, depth: nat, step: Step)
    requires WithinLimit(cfg, depth) && DistinctNames(fields)
    requires var d := DefNamed(fields, step.name);
             d.Some? && CreateTransferType(cfg, d.value.typ, here, step.name, depth).Some? ==>
               Leads(cfg, CreateTransferType(cfg, d.value.typ, here, step.name, depth).value, d.value.typ,
                     step.positions, below, depth)
    ensures StepLeads(cfg, fields, here, below, depth, step)
  {
    NamedParsed(cfg, fields, here, depth, step.name);
    var d := DefNamed(fields, step.name);
    if d.Some? {
      LeftOutAtTheLimit(cfg, d.value.typ, here, step.name, depth);
    }
  }

  lemma {:induction false} DescendMentions(t: TypeDef, positions: seq<nat>)
    requires DescendDef(t, positions).Some? && DescendDef(t, positions).value.ModelDef?
    ensures MentionsModel(t)
    decreases positions
  {
    if positions != [] {
      DescendMentions(InnerDef(t, positions[0]).value, positions[1..]);
    }
  }

  /** The place lies within the depth limit: `depth` is the depth its first step starts from. */
  predicate WithinDepth(cfg: Config, depth: nat, steps: seq<Step>, d: FieldDef) {
    depth + |steps| - 1 < cfg.maxDepth || (depth + |steps| - 1 == cfg.maxDepth && !MentionsModel(d.typ))
  }

  /** What can be said of the first step alone. */
  lemma {:induction false} FirstStepPresent(
    cfg: Config, fields: seq<FieldDef>, paths: Paths, p: Path, depth: nat, steps: seq<Step>)
    requires WithinLimit(cfg, depth) && steps != [] && DistinctNames(fields)
    ensures |steps| == 1 ==>
              (FieldAt(ParseFields(cfg, fields, PeelPaths(paths, p), depth), steps).Some? <==>
               DefAt(cfg.models, fields, steps).Some?
               && WithinDepth(cfg, depth, steps, DefAt(cfg.models, fields, steps).value))
    ensures |steps| > 1 && FieldAt(ParseFields(cfg, fields, PeelPaths(paths, p), depth), steps).Some? ==>
              depth < cfg.maxDepth && DefNamed(fields, steps[0].name).Some?
              && StepsOn(fields, steps[0])
    ensures |steps| > 1 && depth < cfg.maxDepth && StepsOn(fields, steps[0]) ==>
              var inner := FieldsOf(cfg.models, ClassAt(fields, steps[0]));
              FieldAt(ParseFields(cfg, fields, PeelPaths(paths, p), depth), steps)
              == FieldAt(ParseFields(cfg, inner, PeelPaths(paths, p + StepPath(steps[0])), depth + 1), steps[1..])
  {
    StepInto(cfg, fields, paths, p, depth, steps[0]);
    var d := DefNamed(fields, steps[0].name);
    if |steps| > 1 && StepsOn(fields, steps[0]) {
      DescendMentions(d.value.typ, steps[0].positions);
    }
  }

  /** The step leads to a model. */
  predicate StepsOn(fields: seq<FieldDef>, step: Step) {
    match DefNamed(fields, step.name)
    case None => false
    case Some(d) =>
      var inner := DescendDef(d.typ, step.positions);
      inner.Some? && inner.value.ModelDef?
  }

  /** Exactly the places within the depth limit are in the result. */
  lemma {:induction false} PresentWithinDepth(
    cfg: Config, fields: seq<FieldDef>, paths: Paths, p: Path, depth: nat, steps: seq<Step>)
    requires WithinLimit(cfg, depth) && steps != []
    requires DistinctNames(fields) && ModelsHaveDistinctNames(cfg.models)
    ensures FieldAt(ParseFields(cfg, fields, PeelPaths(paths, p), depth), steps).Some? <==>
            DefAt(cfg.models, fields, steps).Some?
            && WithinDepth(cfg, depth, steps, DefAt(cfg.models, fields, steps).value)
    decreases steps
  {
    FirstStepPresent(cfg, fields, paths, p, depth, steps);
    if |steps| > 1 && StepsOn(fields, steps[0]) {
      var cls := ClassAt(fields, steps[0]);
      DefAtBelow(cfg.models, fields, steps, DefNamed(fields, steps[0].name).value, cls);
      if depth < cfg.maxDepth {
        PresentWithinDepth(cfg, FieldsOf(cfg.models, cls), paths, p + StepPath(steps[0]), depth + 1, steps[1..]);
      }
    }
  }

  /** The model that a step leads to, if it does. */
  function ClassAt(fields: seq<FieldDef>, step: Step): TypeId {
    match DefNamed(fields, step.name)
    case None => ""
    case Some(d) =>
      match DescendDef(d.typ, step.positions)
      case Some(ModelDef(cls)) => cls
      case _ => ""
  }

  lemma {:induction false} FieldAtBelow(fields: seq<Field>, steps: seq<Step>) returns (f: Field, t: TransferType)
    requires |steps| > 1 && FieldAt(fields, steps).Some?
    ensures FieldNamed(fields, steps[0].name) == Some(f) && Descend(f.transferType, steps[0].positions) == Some(t)
    ensures IsNested(t) && FieldAt(fields, steps) == FieldAt(t.nested.value.fields, steps[1..])
  {
    f := FieldNamed(fields, steps[0].name).value;
    t := Descend(f.transferType, steps[0].positions).value;
  }

  lemma {:induction false} DefAtBelow(models: Models, fields: seq<FieldDef>, steps: seq<Step>, d: FieldDef, cls: TypeId)
    requires |steps| > 1 && DefNamed(fields, steps[0].name) == Some(d)
    requires DescendDef(d.typ, steps[0].positions) == Some(ModelDef(cls))
    ensures ClassAt(fields, steps[0]) == cls
    ensures DefAt(models, fields, steps) == DefAt(models, FieldsOf(models, cls), steps[1..])
  {
  }

  /** A place that takes several steps is a place in the model that the first step leads to. */
  lemma {:induction false} PlaceBelow(
    cfg: Config, fields: seq<FieldDef>, paths: Paths, p: Path, depth: nat, steps: seq<Step>)
    requires WithinLimit(cfg, depth) && |steps| > 1 && DistinctNames(fields)
    requires FieldAt(ParseFields(cfg, fields, PeelPaths(paths, p), depth), steps).Some?
    ensures depth < cfg.maxDepth
    ensures var inner := FieldsOf(cfg.models, ClassAt(fields, steps[0]));
            && DefAt(cfg.models, fields, steps) == DefAt(cfg.models, inner, steps[1..])
            && FieldAt(ParseFields(cfg, fields, PeelPaths(paths, p), depth), steps)
            == FieldAt(ParseFields(cfg, inner, PeelPaths(paths, p + StepPath(steps[0])), depth + 1), steps[1..])
  {
    var here, below := PeelPaths(paths, p), PeelPaths(paths, p + StepPath(steps[0]));
    StepInto(cfg, fields, paths, p, depth, steps[0]);
    var f, t := FieldAtBelow(ParseFields(cfg, fields, here, depth), steps);
    var d := DefNamed(fields, steps[0].name).value;
    assert Leads(cfg, f.transferType, d.typ, steps[0].positions, below, depth);
    var cls := DescendDef(d.typ, steps[0].positions).value.cls;
    assert t.nested.value.fields == ParseModel(cfg, cls, below, depth + 1);
    DefAtBelow(cfg.models, fields, steps, d, cls);
  }

  lemma {:induction false} TopFieldByGlobalRule(
    cfg: Config, fields: seq<FieldDef>, paths: Paths, p: Path, depth: nat, name: string)
    requires WithinLimit(cfg, depth) && DistinctNames(fields)
    requires FieldNamed(ParseFields(cfg, fields, PeelPaths(paths, p), depth), name).Some?
    ensures DefNamed(fields, name).Some?
    ensures FollowsRules(cfg, paths, p, DefNamed(fields, name).value,
                         FieldNamed(ParseFields(cfg, fields, PeelPaths(paths, p), depth), name).value)
  {
    var here := PeelPaths(paths, p);
    NamedParsed(cfg, fields, here, depth, name);
    var d := DefNamed(fields, name).value;
    AnnotationIsKept(cfg, d.typ, here, d.name, depth);
    MadeByRules(cfg, paths, p, d, CreateTransferType(cfg, d.typ, here, d.name, depth).value);
  }

  /**
   A field of the result comes from the definition at the same place, and follows
   the global rules for that place.
   */
  lemma {:induction false} ParsedByGlobalRule(
    cfg: Config, fields: seq<FieldDef>, paths: Paths, p: Path, depth: nat, steps: seq<Step>)
    requires WithinLimit(cfg, depth) && steps != []
    requires DistinctNames(fields) && ModelsHaveDistinctNames(cfg.models)
    requires FieldAt(ParseFields(cfg, fields, PeelPaths(paths, p), depth), steps).Some?
    ensures DefAt(cfg.models, fields, steps).Some?
    ensures FollowsRules(cfg, paths, Parent(p, steps), DefAt(cfg.models, fields, steps).value,
                         FieldAt(ParseFields(cfg, fields, PeelPaths(paths, p), depth), steps).value)
    decreases steps
  {
    if |steps| == 1 {
      assert Parent(p, steps) == p;
      TopFieldByGlobalRule(cfg, fields, paths, p, depth, steps[0].name);
    } else {
      PlaceBelow(cfg, fields, paths, p, depth, steps);
      ParentOfRest(p, steps);
      ParsedByGlobalRule(cfg, FieldsOf(cfg.models, ClassAt(fields, steps[0])), paths, p + StepPath(steps[0]), depth + 1,
                         steps[1..]);
    }
  }

  /** What counts as private: what is marked so, and underscored names without a mark, if that is configured. */
  predicate IsPrivate(cfg: Config, d: FieldDef) {
    d.mark == Private || (cfg.underscorePrivate && d.mark == Unmarked && d.name != "" && d.name[0] == '_')
  }

  /**
   At any place: what is private is excluded from both directions, what is read-only
   from incoming data, what is write-only from return data. For the rest the path
   decides alone.
   */
  lemma {:induction false} MarksDecide(
    cfg: Config, fields: seq<FieldDef>, paths: Paths, p: Path, depth: nat, steps: seq<Step>)
    requires WithinLimit(cfg, depth) && steps != []
    requires DistinctNames(fields) && ModelsHaveDistinctNames(cfg.models)
    requires FieldAt(ParseFields(cfg, fields, PeelPaths(paths, p), depth), steps).Some?
    ensures DefAt(cfg.models, fields, steps).Some?
    ensures var f := FieldAt(ParseFields(cfg, fields, PeelPaths(paths, p), depth), steps).value;
            var d := DefAt(cfg.models, fields, steps).value;
            var byPath := ExcludedByPath(paths, Parent(p, steps), d.name);
            && (IsPrivate(cfg, d) ==> f.isExcluded)
            && (d.mark == ReadOnly ==> f.isExcluded == (cfg.isData || byPath))
            && (d.mark == WriteOnly ==> f.isExcluded == (!cfg.isData || byPath))
            && (d.mark == Unmarked && !IsPrivate(cfg, d) ==> f.isExcluded == byPath)
  {
    ParsedByGlobalRule(cfg, fields, paths, p, depth, steps);
  }

  /** No field on the way is excluded. */
  predicate Reachable(fields: seq<Field>, steps: seq<Step>) {
    forall n | 0 < n <= |steps| ::
      FieldAt(fields, steps[..n]).Some? && !FieldAt(fields, steps[..n]).value.isExcluded
  }

  /** The place is within the depth limit, and the global rule and the mark of its field let it through. */
  ghost predicate Admitted(cfg: Config, cls: TypeId, paths: Paths, steps: seq<Step>)
    requires steps != []
  {
    match DefAt(cfg.models, FieldsOf(cfg.models, cls), steps)
    case None => false
    case Some(d) =>
      WithinDepth(cfg, 0, steps, d) && !ExcludedByPath(paths, Parent([], steps), d.name) && !ExcludedByMark(cfg, d)
  }

  /**
   Peeling one segment per level amounts to one rule on whole paths: a nested
   field is reachable if and only if no field path on the way to it is excluded,
   and at every field on the way, include entries that lead on from there are
   matched. Positions in composite types count as segments, but an entry that ends
   in one decides nothing.
   */
  lemma {:induction false} ReachableByGlobalRule(cfg: Config, cls: TypeId, paths: Paths, steps: seq<Step>)
    requires [] !in paths.exclude && [] !in paths.includes && [] !in paths.rename
    requires ModelsHaveDistinctNames(cfg.models)
    ensures Reachable(ParseModel(cfg, cls, paths, 0), steps) <==>
            forall n | 0 < n <= |steps| :: Admitted(cfg, cls, paths, steps[..n])
  {
    PeelNothing(paths);
    var fields := FieldsOf(cfg.models, cls);
    forall n | 0 < n <= |steps|
      ensures (FieldAt(ParseModel(cfg, cls, paths, 0), steps[..n]).Some?
               && !FieldAt(ParseModel(cfg, cls, paths, 0), steps[..n]).value.isExcluded)
              <==> Admitted(cfg, cls, paths, steps[..n])
    {
      PresentWithinDepth(cfg, fields, paths, [], 0, steps[..n]);
      if FieldAt(ParseModel(cfg, cls, paths, 0), steps[..n]).Some? {
        ParsedByGlobalRule(cfg, fields, paths, [], 0, steps[..n]);
      }
    }
  }
}
