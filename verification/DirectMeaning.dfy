/**
 The meaning of the generated code without the code: a reading of every
 transfer type that takes its source unevaluated, because generated code
 evaluates it late, several times, or not at all, and inside a `try`.
 */
module DirectMeaning {
  import opened Outcomes
  import opened TransferTypes
  import opened TransferCompiler

  type Source = Outcome<Value>

  /** The dict after one field, when the block for the field ended in `block`. */
  function Caught(f: Field, mapping: bool, block: Outcome<Dict>, acc: Dict): Outcome<Dict> {
    if !f.ExpectOptional() && block == Err(AccessError(mapping)) then Ok(acc) else block
  }

  function DirectField(w: World, cx: Context, f: Field, v: Value, acc: Dict): Outcome<Dict>
    decreases f, 0
  {
    var read := GetField(v, f.name);
    if f.ExpectOptional() && read.Err? then Ok(acc)
    else Caught(f, v.Mapping?, DirectBlock(w, cx, f, read, acc), acc)
  }

  function DirectBlock(w: World, cx: Context, f: Field, read: Source, acc: Dict): Outcome<Dict>
    decreases f, 0, 0
  {
    if cx.isData && f.isPartial then
      var value :- read;
      if value.Unset? then Ok(acc)
      else
        var r :- DirectType(w, cx, f.transferType, cx.nestedAsDict, Ok(value));
        Ok(Put(acc, Text(f.name), r))
    else
      var r :- DirectType(w, cx, f.transferType, cx.nestedAsDict, read);
      Ok(Put(acc, Text(f.name), r))
  }

  function DirectFields(w: World, cx: Context, fields: seq<Field>, v: Value, acc: Dict): Outcome<Dict>
    decreases fields, 1
  {
    if fields == [] then Ok(acc)
    else if !Relevant(cx, fields[0]) then DirectFields(w, cx, fields[1..], v, acc)
    else
      var acc' :- DirectField(w, cx, fields[0], v, acc);
      DirectFields(w, cx, fields[1..], v, acc')
  }

  function DirectInstance(w: World, cx: Context, fields: seq<Field>, destination: Destination, src: Source)
    : Outcome<Value>
    decreases fields, 2
  {
    var d :- DirectReads(w, cx, fields, src);
    Build(w, destination, d)
  }

  /** Without a field to read, the source is not even evaluated. */
  function DirectReads(w: World, cx: Context, fields: seq<Field>, src: Source): Outcome<Dict>
    decreases fields, 2, 0
  {
    if RelevantFields(cx, fields) == [] then Ok([])
    else
      var v :- src;
      DirectFields(w, cx, fields, v, [])
  }

  function DirectType(w: World, cx: Context, t: TransferType, asDict: bool, src: Source): Outcome<Value>
    decreases t, 1
  {
    if IsNested(t) then
      DirectInstance(w, cx, t.nested.value.fields, NestedDestination(t, asDict, cx.isData), src)
    else if t.UnionType? && HasNested(t) then
      var v :- src;
      DirectUnion(w, cx, t.members, v)
    else if t.CollectionType? then
      var v :- src;
      if HasNested(t) then
        var items :- Iterate(v);
        var rs :- DirectItems(w, cx.isData, t.inner, items);
        w.collect(t.origin, rs)
      else w.convert(t.origin, v)
    else if t.MappingType? then
      var v :- src;
      if HasNested(t) then
        var items :- Items(v);
        var rs :- DirectPairs(w, cx.isData, t.value, items);
        w.collectPairs(t.origin, rs)
      else w.convert(t.origin, v)
    else src
  }

  function DirectItems(w: World, isData: bool, t: TransferType, items: seq<Value>): Outcome<seq<Value>>
    decreases t, 2, |items|
  {
    if items == [] then Ok([])
    else
      var r :- DirectType(w, Context(isData, false), t, false, Ok(items[0]));
      var rs :- DirectItems(w, isData, t, items[1..]);
      Ok([r] + rs)
  }

  function DirectPairs(w: World, isData: bool, t: TransferType, items: Dict): Outcome<Dict>
    decreases t, 2, |items|
  {
    if items == [] then Ok([])
    else
      var r :- DirectType(w, Context(isData, false), t, false, Ok(items[0].1));
      var rs :- DirectPairs(w, isData, t, items[1..]);
      Ok([(items[0].0, r)] + rs)
  }

  predicate Fits(w: World, cx: Context, t: TransferType, v: Value)
    requires t.SimpleType?
  {
    if t.isNoneType then v.NoneValue?
    else if t.nested.Some? then w.isInstance(v, MemberConstraint(t, cx.isData))
    else w.isInstance(v, t.annotation)
  }

  function DirectMember(w: World, cx: Context, t: TransferType, v: Value): Outcome<Value>
    decreases t, 0
  {
    if Rebuilt(t) then DirectInstance(w, cx, t.nested.value.fields, MemberDestination(t, cx.isData), Ok(v))
    else Ok(v)
  }

  /** What the first tested member that fits makes of the value, if any fits. */
  function DirectMembers(w: World, cx: Context, members: seq<TransferType>, all: bool, v: Value)
    : Option<Outcome<Value>>
    decreases members, 0
  {
    if members == [] then None
    else if Tested(members[0], all) && Fits(w, cx, members[0], v) then Some(DirectMember(w, cx, members[0], v))
    else DirectMembers(w, cx, members[1..], all, v)
  }

  function DirectUnion(w: World, cx: Context, members: seq<TransferType>, v: Value): Outcome<Value>
    decreases members, 1
  {
    match DirectMembers(w, cx, members, MixedUnion(members), v)
    case Some(r) => r
    case None =>
      if MixedUnion(members) then DirectType(w, cx, members[CompositeIndex(members)], false, Ok(v))
      else Ok(v)
  }

  /** Mapping values are read by the shape of the mapping's key. */
  function DirectData(w: World, isData: bool, s: Shape, fields: seq<Field>, destination: Destination, v: Value)
    : Outcome<Value>
    decreases s, 0
  {
    match s
    case PlainShape =>
      DirectInstance(w, Context(isData, destination.DictDestination?), fields, destination, Ok(v))
    case CollectionShape(origin, item) =>
      var items :- Iterate(v);
      var rs :- DirectDataItems(w, isData, item, fields, destination, items);
      w.collect(origin, rs)
    case MappingShape(origin, key, _) =>
      var items :- Items(v);
      var rs :- DirectDataPairs(w, isData, key, fields, destination, items);
      w.collectPairs(origin, rs)
  }

  function DirectDataItems(
    w: World, isData: bool, s: Shape, fields: seq<Field>, destination: Destination, items: seq<Value>)
    : Outcome<seq<Value>>
    decreases s, 1, |items|
  {
    if items == [] then Ok([])
    else
      var r :- DirectData(w, isData, s, fields, destination, items[0]);
      var rs :- DirectDataItems(w, isData, s, fields, destination, items[1..]);
      Ok([r] + rs)
  }

  function DirectDataPairs(
    w: World, isData: bool, s: Shape, fields: seq<Field>, destination: Destination, items: Dict)
    : Outcome<Dict>
    decreases s, 1, |items|
  {
    if items == [] then Ok([])
    else
      var r :- DirectData(w, isData, s, fields, destination, items[0].1);
      var rs :- DirectDataPairs(w, isData, s, fields, destination, items[1..]);
      Ok([(items[0].0, r)] + rs)
  }
}
