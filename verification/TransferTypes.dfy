/**
 The data of a DTO transfer: run-time values, the classes values are built with,
 and the tree of transfer types that says how a value is transferred
 (litestar/dto/_types.py).
 */
module TransferTypes {
  import opened Outcomes

  type TypeId = string

  /** The entries of a Python dict in insertion order. */
  type Dict = seq<(Value, Value)>

  datatype Value =
    | NoneValue
    | Unset
    | Scalar(repr: int)
    | Text(text: string)
    | Sequence(items: seq<Value>)
    | Mapping(entries: Dict)
    | Instance(cls: TypeId, attrs: map<string, Value>)

  /** The classes the transfer calls into, none of which its code defines. */
  datatype World = World(
    isInstance: (Value, TypeId) -> bool,
    construct: (TypeId, Dict) -> Outcome<Value>,
    convert: (TypeId, Value) -> Outcome<Value>,
    collect: (TypeId, seq<Value>) -> Outcome<Value>,
    collectPairs: (TypeId, Dict) -> Outcome<Value>
  )

  // ----- access to values -----

  function Lookup(d: Dict, key: Value): Outcome<Value> {
    if d == [] then Err(KeyError)
    else if d[0].0 == key then Ok(d[0].1)
    else Lookup(d[1..], key)
  }

  /** `d[key] = value`: an existing key keeps its place, a new one goes last. */
  function Put(d: Dict, key: Value, value: Value): Dict {
    if d == [] then [(key, value)]
    else if d[0].0 == key then [(key, value)] + d[1..]
    else [d[0]] + Put(d[1..], key, value)
  }

  function GetItem(v: Value, key: string): Outcome<Value> {
    if v.Mapping? then Lookup(v.entries, Text(key)) else Err(TypeError)
  }

  function GetAttr(v: Value, name: string): Outcome<Value> {
    if v.Instance? && name in v.attrs then Ok(v.attrs[name]) else Err(AttributeError)
  }

  /** How both backends read a field: by key from a mapping, by attribute from anything else. */
  function GetField(v: Value, name: string): Outcome<Value> {
    if v.Mapping? then GetItem(v, name) else GetAttr(v, name)
  }

  function Iterate(v: Value): Outcome<seq<Value>> {
    match v
    case Sequence(items) => Ok(items)
    case Mapping(entries) => Ok(seq(|entries|, i requires 0 <= i < |entries| => entries[i].0))
    case Text(text) => Ok(seq(|text|, i requires 0 <= i < |text| => Text([text[i]])))
    case _ => Err(TypeError)
  }

  /** `v.items()` */
  function Items(v: Value): Outcome<Dict> {
    if v.Mapping? then Ok(v.entries) else Err(AttributeError)
  }

  lemma {:induction false} GetFieldFailsWithAccessError(v: Value, name: string)
    ensures GetField(v, name).Err? ==>
              GetField(v, name).error == (if v.Mapping? then KeyError else AttributeError)
  {
    if v.Mapping? {
      LookupFailsWithKeyError(v.entries, Text(name));
    }
  }

  lemma {:induction false} LookupFailsWithKeyError(d: Dict, key: Value)
    ensures Lookup(d, key).Err? ==> Lookup(d, key).error == KeyError
  {
    if d != [] {
      LookupFailsWithKeyError(d[1..], key);
    }
  }

  // ----- transfer types -----

  datatype TransferType =
    | SimpleType(annotation: TypeId, isNoneType: bool, nested: Option<NestedFieldInfo>)
    | UnionType(members: seq<TransferType>)
    | CollectionType(origin: TypeId, inner: TransferType)
    | TupleType(inners: seq<TransferType>)
    | MappingType(origin: TypeId, key: TransferType, value: TransferType)

  datatype NestedFieldInfo = NestedFieldInfo(model: TypeId, fields: seq<Field>)

  /** A transfer field definition. `isOptional` says that its annotation is a union with `None`. */
  datatype Field = Field(
    name: string,
    transferType: TransferType,
    isPartial: bool,
    isExcluded: bool,
    isOptional: bool,
    serializationName: Option<string>
  )
  {
    /** Generated code tests for the field beforehand, instead of catching the failed access. */
    predicate ExpectOptional() {
      isPartial || isOptional
    }
  }

  predicate HasNested(t: TransferType) {
    match t
    case SimpleType(_, _, nested) => nested.Some?
    case UnionType(members) => exists m | m in members :: HasNested(m)
    case CollectionType(_, inner) => HasNested(inner)
    case TupleType(inners) => exists m | m in inners :: HasNested(m)
    case MappingType(_, key, value) => HasNested(key) || HasNested(value)
  }

  predicate IsNested(t: TransferType) {
    t.SimpleType? && t.nested.Some?
  }

  /** The class of an instance that is built, or plain `dict`. */
  datatype Destination = DictDestination | ClassDestination(cls: TypeId)

  function Build(w: World, destination: Destination, d: Dict): Outcome<Value> {
    match destination
    case DictDestination => Ok(Mapping(d))
    case ClassDestination(cls) => w.construct(cls, d)
  }

  /** Destination of a nested model, the same choice in both backends. */
  function NestedDestination(t: TransferType, asDict: bool, isData: bool): Destination
    requires IsNested(t)
  {
    if asDict then DictDestination
    else if isData then ClassDestination(t.annotation)
    else ClassDestination(t.nested.value.model)
  }

  /** Destination of a nested union member, which is never a `dict`. */
  function MemberDestination(t: TransferType, isData: bool): Destination
    requires IsNested(t)
  {
    NestedDestination(t, false, isData)
  }

  /** The class a value must be an instance of to be transferred as this union member. */
  function MemberConstraint(t: TransferType, isData: bool): TypeId
    requires IsNested(t)
  {
    if isData then t.nested.value.model else t.annotation
  }

  /** The shape of the annotation a DTO is applied to: collections around what is no collection. */
  datatype Shape =
    | PlainShape
    | CollectionShape(origin: TypeId, item: Shape)
    | MappingShape(origin: TypeId, key: Shape, value: Shape)
}
