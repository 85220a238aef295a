/**
 What the code generator of litestar/dto/_codegen_backend.py emits for a
 transfer-type tree, as a function from the tree to a block of code.
 */
module TransferCompiler {
  import opened Outcomes
  import opened TransferTypes
  import opened GeneratedCode

  /** What stays the same while one function is generated. */
  datatype Context = Context(isData: bool, nestedAsDict: bool)

  /** A generated block with all names in use after it, or no function at all. */
  datatype Gen = Gen(block: seq<Stmt>, names: set<Name>) | NoCode
  datatype GenArms = GenArms(arms: seq<Arm>, names: set<Name>) | NoArms

  // ----- names -----

  ghost function TakenFrom(base: Base, names: set<Name>, from: nat): set<Name> {
    set n | n in names && n.base == base && from <= n.index
  }

  /** The least free index: the one `unique_name_for_scope` stops at. */
  function FreshIndex(base: Base, names: set<Name>, from: nat): (i: nat)
    ensures from <= i && Name(base, i) !in names
    ensures forall j :: from <= j < i ==> Name(base, j) in names
    decreases TakenFrom(base, names, from)
  {
    if Name(base, from) !in names then from
    else
      assert TakenFrom(base, names, from + 1) <= TakenFrom(base, names, from);
      assert Name(base, from) in TakenFrom(base, names, from);
      FreshIndex(base, names, from + 1)
  }

  function Fresh(base: Base, names: set<Name>): (n: Name)
    ensures n !in names
  {
    Name(base, FreshIndex(base, names, 0))
  }

  /** No attribute access occurs in the expression. */
  predicate OnlyItems(e: Expr) {
    match e
    case Var(_) => true
    case ItemOf(base, _) => OnlyItems(base)
    case AttrOf(_, _) => false
  }

  function FirstKey(e: Expr): string
    requires OnlyItems(e) && e.ItemOf?
  {
    if e.base.Var? then e.key else FirstKey(e.base)
  }

  /**
   The base of the name a nested source is hoisted into. The text of the source
   is split at its first dot, or else at its first item access, and joined by an
   underscore. For two accesses with a dot among them that is no identifier. As
   the mapping and the object branch are emitted side by side, such a source
   comes with one whose hoisting line does not even parse.
   */
  function HoistBase(e: Expr): Option<Base>
    requires !e.Var?
  {
    if e.base.Var? then Some(Hoisted(e.base.name, if e.ItemOf? then e.key else e.attr))
    else if OnlyItems(e) then Some(Hoisted(e.Root(), FirstKey(e)))
    else None
  }

  // ----- fields -----

  predicate Relevant(cx: Context, f: Field) {
    cx.isData || !f.isExcluded
  }

  function RelevantFields(cx: Context, fields: seq<Field>): seq<Field> {
    if fields == [] then []
    else (if Relevant(cx, fields[0]) then [fields[0]] else []) + RelevantFields(cx, fields[1..])
  }

  function FieldExpr(mapping: bool, src: Expr, name: string): Expr {
    if mapping then ItemOf(src, name) else AttrOf(src, name)
  }

  function PresenceTest(mapping: bool, src: Expr, name: string): Cond {
    if mapping then HasKey(src, name) else HasAttr(src, name)
  }

  function AccessError(mapping: bool): Error {
    if mapping then KeyError else AttributeError
  }

  function GuardAccess(f: Field, mapping: bool, src: Expr, block: seq<Stmt>): Stmt {
    if f.ExpectOptional() then If([Arm(PresenceTest(mapping, src, f.name), block)], [])
    else TryPass(AccessError(mapping), block)
  }

  /** What is emitted within the guarded access to a field. */
  function GenFieldBlock(cx: Context, f: Field, dict: Name, access: Expr, names: set<Name>): Gen
    decreases f, 0
  {
    if cx.isData && f.isPartial then
      var value := Fresh(Plain("source_value"), names);
      match GenType(cx, f.transferType, cx.nestedAsDict, Var(value), ToItem(dict, f.name), names + {value})
      case NoCode => NoCode
      case Gen(block, names') =>
        Gen([Assign(ToName(value), Copy(access)), If([Arm(IsNotUnset(Var(value)), block)], [])], names')
    else GenType(cx, f.transferType, cx.nestedAsDict, access, ToItem(dict, f.name), names)
  }

  function GenField(cx: Context, f: Field, dict: Name, mapping: bool, src: Expr, names: set<Name>): Gen
    decreases f, 1
  {
    match GenFieldBlock(cx, f, dict, FieldExpr(mapping, src, f.name), names)
    case NoCode => NoCode
    case Gen(block, names') => Gen([GuardAccess(f, mapping, src, block)], names')
  }

  function GenFields(cx: Context, fields: seq<Field>, dict: Name, mapping: bool, src: Expr, names: set<Name>): Gen
    decreases fields, 1
  {
    if fields == [] then Gen([], names)
    else if !Relevant(cx, fields[0]) then GenFields(cx, fields[1..], dict, mapping, src, names)
    else
      match GenField(cx, fields[0], dict, mapping, src, names)
      case NoCode => NoCode
      case Gen(first, names1) =>
        match GenFields(cx, fields[1..], dict, mapping, src, names1)
        case NoCode => NoCode
        case Gen(rest, names2) => Gen(first + rest, names2)
  }

  function Finish(destination: Destination, dict: Name, target: Target): Stmt {
    match destination
    case DictDestination => Assign(target, Copy(Var(dict)))
    case ClassDestination(cls) => Assign(target, Construct(cls, dict))
  }

  /** A source that is read more than once is assigned to a name of its own first. */
  predicate MustHoist(cx: Context, fields: seq<Field>, src: Expr) {
    |RelevantFields(cx, fields)| > 1 && !src.Var?
  }

  /** `_create_transfer_instance_data` */
  function GenInstance(
    cx: Context, fields: seq<Field>, destination: Destination, src: Expr, target: Target, names: set<Name>): Gen
    decreases fields, 4
  {
    var dict := Fresh(Plain("unstructured_data"), names);
    match GenReads(cx, fields, dict, src, names + {dict})
    case NoCode => NoCode
    case Gen(block, names') =>
      Gen([Assign(ToName(dict), EmptyDict)] + block + [Finish(destination, dict, target)], names')
  }

  /** What fills the dict. */
  function GenReads(cx: Context, fields: seq<Field>, dict: Name, src: Expr, names: set<Name>): Gen
    decreases fields, 3
  {
    if RelevantFields(cx, fields) == [] then Gen([], names)
    else if MustHoist(cx, fields, src) then
      match HoistBase(src)
      case None => NoCode
      case Some(base) =>
        var hoisted := Fresh(base, names);
        (match GenBranches(cx, fields, dict, Var(hoisted), names + {hoisted})
         case NoCode => NoCode
         case Gen(block, names') => Gen([Assign(ToName(hoisted), Copy(src))] + block, names'))
    else GenBranches(cx, fields, dict, src, names)
  }

  /** The `if isinstance(..., Mapping)` and `else` blocks that read all fields. */
  function GenBranches(cx: Context, fields: seq<Field>, dict: Name, src: Expr, names: set<Name>): Gen
    decreases fields, 2
  {
    match GenFields(cx, fields, dict, true, src, names)
    case NoCode => NoCode
    case Gen(items, names1) =>
      match GenFields(cx, fields, dict, false, src, names1)
      case NoCode => NoCode
      case Gen(attrs, names2) => Gen([If([Arm(IsMapping(src), items)], attrs)], names2)
  }

  // ----- types -----

  /** `_create_transfer_type_data_body` */
  function GenType(cx: Context, t: TransferType, asDict: bool, src: Expr, target: Target, names: set<Name>): Gen
    decreases t, 5
  {
    if IsNested(t) then
      GenInstance(cx, t.nested.value.fields, NestedDestination(t, asDict, cx.isData), src, target, names)
    else if t.UnionType? && HasNested(t) then GenUnion(cx, t.members, src, target, names)
    else if t.CollectionType? then
      if HasNested(t) then
        match GenTypeFunction(cx.isData, t.inner)
        case None => NoCode
        case Some(fn) => Gen([Assign(target, Collect(t.origin, fn, src))], names)
      else Gen([Assign(target, Convert(t.origin, src))], names)
    else if t.MappingType? then
      if HasNested(t) then
        match GenTypeFunction(cx.isData, t.value)
        case None => NoCode
        case Some(fn) => Gen([Assign(target, CollectPairs(t.origin, fn, src))], names)
      else Gen([Assign(target, Convert(t.origin, src))], names)
    else Gen([Assign(target, Copy(src))], names)
  }

  function CompositeCount(members: seq<TransferType>): nat {
    if members == [] then 0
    else (if members[0].SimpleType? then 0 else 1) + CompositeCount(members[1..])
  }

  function CompositeIndex(members: seq<TransferType>): (i: nat)
    requires CompositeCount(members) > 0
    ensures i < |members| && !members[i].SimpleType?
    ensures forall j | 0 <= j < i :: members[j].SimpleType?
  {
    if !members[0].SimpleType? then 0 else CompositeIndex(members[1..]) + 1
  }

  /** One composite member next to simple ones: every simple member gets a test. */
  predicate MixedUnion(members: seq<TransferType>) {
    CompositeCount(members) == 1 && |members| > 1
  }

  /** `_create_transfer_nested_union_type_data` */
  function GenUnion(cx: Context, members: seq<TransferType>, src: Expr, target: Target, names: set<Name>): Gen
    decreases members, 6
  {
    if CompositeCount(members) > 1 then NoCode
    else
      match GenMembers(cx, members, MixedUnion(members), src, target, names)
      case NoArms => NoCode
      case GenArms(arms, names1) =>
        if arms == [] then NoCode  // a lone `else:` does not parse
        else
          match GenElse(cx, members, src, target, names1)
          case NoCode => NoCode
          case Gen(orelse, names2) => Gen([If(arms, orelse)], names2)
  }

  /** What is emitted for a value that no tested member fits. */
  function GenElse(cx: Context, members: seq<TransferType>, src: Expr, target: Target, names: set<Name>): Gen
    decreases members, 5
  {
    if MixedUnion(members) then GenType(cx, members[CompositeIndex(members)], false, src, target, names)
    else Gen([Assign(target, Copy(src))], names)
  }

  /** A test is emitted for the nested members, or for all simple ones. */
  predicate Tested(t: TransferType, all: bool) {
    t.SimpleType? && (all || t.nested.Some?)
  }

  function MemberTest(cx: Context, t: TransferType, src: Expr): Cond
    requires t.SimpleType?
  {
    if t.isNoneType then IsNone(src)
    else if t.nested.Some? then IsInstance(src, MemberConstraint(t, cx.isData))
    else IsInstance(src, t.annotation)
  }

  /** Members without a single field are passed on as they are. */
  predicate Rebuilt(t: TransferType) {
    t.SimpleType? && !t.isNoneType && t.nested.Some? && t.nested.value.fields != []
  }

  function GenMember(cx: Context, t: TransferType, src: Expr, target: Target, names: set<Name>): Gen
    decreases t, 4
  {
    if Rebuilt(t) then
      GenInstance(cx, t.nested.value.fields, MemberDestination(t, cx.isData), src, target, names)
    else Gen([Assign(target, Copy(src))], names)
  }

  function GenMembers(
    cx: Context, members: seq<TransferType>, all: bool, src: Expr, target: Target, names: set<Name>): GenArms
    decreases members, 5
  {
    if members == [] then GenArms([], names)
    else if !Tested(members[0], all) then GenMembers(cx, members[1..], all, src, target, names)
    else
      match GenMember(cx, members[0], src, target, names)
      case NoCode => NoArms
      case Gen(body, names1) =>
        match GenMembers(cx, members[1..], all, src, target, names1)
        case NoArms => NoArms
        case GenArms(rest, names2) => GenArms([Arm(MemberTest(cx, members[0], src), body)] + rest, names2)
  }

  // ----- functions -----

  const RESULT_OF_TYPE := Name(Plain("tmp_return_type"), 0)
  const RESULT_OF_VALUE := Name(Plain("tmp_return_value"), 0)
  const SOURCE_VALUE := Name(Plain("source_value"), 0)
  const SOURCE_INSTANCE := Name(Plain("source_instance"), 0)

  /** `create_transfer_type_data` */
  function GenTypeFunction(isData: bool, t: TransferType): Option<Function>
    decreases t, 6
  {
    match GenType(Context(isData, false), t, false, Var(SOURCE_VALUE), ToName(RESULT_OF_TYPE),
                  {RESULT_OF_TYPE, SOURCE_VALUE})
    case NoCode => None
    case Gen(block, _) => Some(Function(SOURCE_VALUE, block, RESULT_OF_TYPE))
  }

  /** `create_transfer_instance_data` */
  function GenInstanceFunction(isData: bool, fields: seq<Field>, destination: Destination): Option<Function> {
    match GenInstance(Context(isData, destination.DictDestination?), fields, destination, Var(SOURCE_INSTANCE),
                      ToName(RESULT_OF_TYPE), {RESULT_OF_TYPE, SOURCE_INSTANCE})
    case NoCode => None
    case Gen(block, _) => Some(Function(SOURCE_INSTANCE, block, RESULT_OF_TYPE))
  }

  /** `create_transfer_data`. The values of a mapping are transferred by the shape of its first type argument. */
  function GenData(isData: bool, s: Shape, fields: seq<Field>, destination: Destination): Option<Function> {
    match s
    case PlainShape => GenInstanceFunction(isData, fields, destination)
    case CollectionShape(origin, item) =>
      (match GenData(isData, item, fields, destination)
       case None => None
       case Some(fn) =>
         Some(Function(SOURCE_VALUE, [Assign(ToName(RESULT_OF_VALUE), Collect(origin, fn, Var(SOURCE_VALUE)))],
                       RESULT_OF_VALUE)))
    case MappingShape(origin, key, _) =>
      (match GenData(isData, key, fields, destination)
       case None => None
       case Some(fn) =>
         Some(Function(SOURCE_VALUE, [Assign(ToName(RESULT_OF_VALUE), CollectPairs(origin, fn, Var(SOURCE_VALUE)))],
                       RESULT_OF_VALUE)))
  }
}
