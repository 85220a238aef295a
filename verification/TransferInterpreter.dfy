/**
 The interpreting backend: `_transfer_data` and the functions it calls
 (litestar/dto/_backend.py). The functions say what is computed, the methods
 below them how the source computes it.
 */
module TransferInterpreter {
  import opened Outcomes
  import opened TransferTypes

  /** Whether the interpreter passes over a field of `source` without reading it. */
  predicate Passed(f: Field, isData: bool, source: Value) {
    if isData then GetField(source, f.name).Err? else f.isExcluded
  }

  function TransferFields(w: World, isData: bool, fields: seq<Field>, asDict: bool, source: Value, acc: Dict)
    : Outcome<Dict>
    decreases fields, 1
  {
    if fields == [] then Ok(acc)
    else
      var acc' :- TransferField(w, isData, fields[0], asDict, source, acc);
      TransferFields(w, isData, fields[1..], asDict, source, acc')
  }

  function TransferField(w: World, isData: bool, f: Field, asDict: bool, source: Value, acc: Dict): Outcome<Dict>
    decreases f, 0
  {
    if Passed(f, isData, source) then Ok(acc)
    else
      var v :- GetField(source, f.name);
      if f.isPartial && isData && v.Unset? then Ok(acc)
      else
        var r :- TransferTyped(w, isData, f.transferType, asDict, v);
        Ok(Put(acc, Text(f.name), r))
  }

  function TransferInstance(w: World, isData: bool, fields: seq<Field>, destination: Destination, source: Value)
    : Outcome<Value>
    decreases fields, 2
  {
    var d :- TransferFields(w, isData, fields, destination.DictDestination?, source, []);
    Build(w, destination, d)
  }

  function TransferTyped(w: World, isData: bool, t: TransferType, asDict: bool, v: Value): Outcome<Value>
    decreases t, 1
  {
    if IsNested(t) then
      TransferInstance(w, isData, t.nested.value.fields, NestedDestination(t, asDict, isData), v)
    else if t.UnionType? && HasNested(t) then
      TransferUnion(w, isData, t.members, v)
    else if t.CollectionType? then
      if HasNested(t) then
        var items :- Iterate(v);
        var rs :- TransferItems(w, isData, t.inner, items);
        w.collect(t.origin, rs)
      else w.convert(t.origin, v)
    else if t.MappingType? then
      if HasNested(t) then
        var items :- Items(v);
        var rs :- TransferPairs(w, isData, t.value, items);
        w.collectPairs(t.origin, rs)
      else w.convert(t.origin, v)
    else Ok(v)
  }

  function TransferItems(w: World, isData: bool, t: TransferType, items: seq<Value>): Outcome<seq<Value>>
    decreases t, 2, |items|
  {
    if items == [] then Ok([])
    else
      var r :- TransferTyped(w, isData, t, false, items[0]);
      var rs :- TransferItems(w, isData, t, items[1..]);
      Ok([r] + rs)
  }

  function TransferPairs(w: World, isData: bool, t: TransferType, items: Dict): Outcome<Dict>
    decreases t, 2, |items|
  {
    if items == [] then Ok([])
    else
      var r :- TransferTyped(w, isData, t, false, items[0].1);
      var rs :- TransferPairs(w, isData, t, items[1..]);
      Ok([(items[0].0, r)] + rs)
  }

  function TransferUnion(w: World, isData: bool, members: seq<TransferType>, v: Value): Outcome<Value>
    decreases members, 0
  {
    if members == [] then Ok(v)
    else if !members[0].SimpleType? then Err(RuntimeError)
    else if IsNested(members[0]) && w.isInstance(v, MemberConstraint(members[0], isData)) then
      TransferInstance(w, isData, members[0].nested.value.fields, MemberDestination(members[0], isData), v)
    else TransferUnion(w, isData, members[1..], v)
  }

  /** `_transfer_data`: the whole transfer, for an annotation of shape `s`. */
  function TransferData(w: World, isData: bool, s: Shape, fields: seq<Field>, destination: Destination, v: Value)
    : Outcome<Value>
    decreases s, 0
  {
    match s
    case PlainShape => TransferInstance(w, isData, fields, destination, v)
    case CollectionShape(origin, item) =>
      var items :- Iterate(v);
      var rs :- TransferDataItems(w, isData, item, fields, destination, items);
      w.collect(origin, rs)
    case MappingShape(origin, _, value) =>
      var items :- Items(v);
      var rs :- TransferDataPairs(w, isData, value, fields, destination, items);
      w.collectPairs(origin, rs)
  }

  function TransferDataItems(
    w: World, isData: bool, s: Shape, fields: seq<Field>, destination: Destination, items: seq<Value>)
    : Outcome<seq<Value>>
    decreases s, 1, |items|
  {
    if items == [] then Ok([])
    else
      var r :- TransferData(w, isData, s, fields, destination, items[0]);
      var rs :- TransferDataItems(w, isData, s, fields, destination, items[1..]);
      Ok([r] + rs)
  }

  function TransferDataPairs(
    w: World, isData: bool, s: Shape, fields: seq<Field>, destination: Destination, items: Dict)
    : Outcome<Dict>
    decreases s, 1, |items|
  {
    if items == [] then Ok([])
    else
      var r :- TransferData(w, isData, s, fields, destination, items[0].1);
      var rs :- TransferDataPairs(w, isData, s, fields, destination, items[1..]);
      Ok([(items[0].0, r)] + rs)
  }

  /** `_transfer_instance_data`: fills a dict field by field, leaving the loop when a read or a transfer raises. */
  method RunTransferInstance(w: World, isData: bool, fields: seq<Field>, destination: Destination, source: Value)
    returns (r: Outcome<Value>)
    ensures r == TransferInstance(w, isData, fields, destination, source)
  {
    var unstructured: Dict := [];
    var asDict := destination.DictDestination?;
    var i := 0;
    while i < |fields|
      invariant 0 <= i <= |fields|
      invariant TransferFields(w, isData, fields, asDict, source, [])
             == TransferFields(w, isData, fields[i..], asDict, source, unstructured)
    {
      var f := fields[i];
      assert fields[i..][0] == f && fields[i..][1..] == fields[i + 1..];
      i := i + 1;
      if !isData {
        if f.isExcluded { continue; }
      } else if GetField(source, f.name).Err? {
        continue;
      }
      var read := GetField(source, f.name);
      if read.Err? { return Err(read.error); }
      if f.isPartial && isData && read.value.Unset? { continue; }
      var transferred := TransferTyped(w, isData, f.transferType, asDict, read.value);
      if transferred.Err? { return Err(transferred.error); }
      unstructured := Put(unstructured, Text(f.name), transferred.value);
    }
    assert fields[i..] == [];
    r := Build(w, destination, unstructured);
  }

  /** `_transfer_nested_union_type_data`: the first nested member that fits decides. */
  method RunTransferUnion(w: World, isData: bool, members: seq<TransferType>, v: Value) returns (r: Outcome<Value>)
    ensures r == TransferUnion(w, isData, members, v)
  {
    for i := 0 to |members|
      invariant TransferUnion(w, isData, members, v) == TransferUnion(w, isData, members[i..], v)
    {
      var m := members[i];
      assert members[i..][0] == m && members[i..][1..] == members[i + 1..];
      if !m.SimpleType? { return Err(RuntimeError); }
      if IsNested(m) && w.isInstance(v, MemberConstraint(m, isData)) {
        r := RunTransferInstance(w, isData, m.nested.value.fields, MemberDestination(m, isData), v);
        return;
      }
    }
    r := Ok(v);
  }
}
