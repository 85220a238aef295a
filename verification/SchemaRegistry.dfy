/** The registry of OpenAPI schemas and of the references to them (litestar/_openapi/datastructures.py). */
module SchemaRegistry {
  import opened Outcomes
  import opened Strings
  import opened OpenApiComponents

  /** A type annotation: the key it is normalised to, its identity, and how it prints. */
  datatype Field = Field(key: SchemaKey, identity: nat, raw: string)

  /** The address of a reference object. */
  type ReferenceId = nat

  datatype Registered<+T> = Found(value: T) | NotRegistered | ImproperlyConfigured

  const SCHEMAS := "#/components/schemas/"

  /** The groups hold the keys by model name, in the order they were registered. */
  ghost predicate Indexed(keys: seq<SchemaKey>, groups: map<string, seq<SchemaKey>>, groupOrder: seq<string>) {
    && (forall n :: n in groups <==> n in groupOrder)
    && (forall k | k in keys :: Last(k) in groups)
    && (forall n | n in groups :: groups[n] == Group(keys, n) != [])
  }

  lemma {:induction false} IndexGrows(
    keys: seq<SchemaKey>, groups: map<string, seq<SchemaKey>>, groupOrder: seq<string>, key: SchemaKey)
    requires Indexed(keys, groups, groupOrder)
    ensures Last(key) in groups ==>
              Indexed(keys + [key], groups[Last(key) := groups[Last(key)] + [key]], groupOrder)
    ensures Last(key) !in groups ==>
              Indexed(keys + [key], groups[Last(key) := [key]], groupOrder + [Last(key)])
  {
    GroupsGrow(keys, key);
    if Last(key) !in groups {
      NoGroup(keys, Last(key));
    }
  }

  class Registry {
    /** The registered keys in order; each has a schema of its own. */
    var keys: seq<SchemaKey>
    var types: map<SchemaKey, Field>
    /** The keys by model name, and the model names in order. */
    var groups: map<string, seq<SchemaKey>>
    var groupOrder: seq<string>
    /** The key of the schema each reference was issued for, and what the reference says. */
    var references: map<ReferenceId, SchemaKey>
    var refs: map<ReferenceId, string>
    var issued: nat

    ghost predicate Valid()
      reads this
    {
      && Distinct(keys)
      && (forall k | k in types :: k in keys) && (forall k | k in keys :: k in types)
      && Indexed(keys, groups, groupOrder)
      && refs.Keys == references.Keys
      && (forall r | r in references :: r < issued)
      && (forall r | r in references :: references[r] in keys)
    }

    constructor ()
      ensures Valid() && keys == [] && references == map[]
    {
      keys, types, groups, groupOrder, references, refs, issued := [], map[], map[], [], map[], map[], 0;
    }

    /** The schema of a type, which is registered unless its key is; two types must not share a key. */
    method GetSchemaForFieldDefinition(field: Field) returns (schema: Registered<SchemaKey>)
      requires Valid()
      modifies this
      ensures Valid() && references == old(references) && refs == old(refs)
      ensures field.key !in old(keys) ==>
                schema == Found(field.key) && keys == old(keys) + [field.key] && types == old(types)[field.key := field]
      ensures field.key in old(keys) ==>
                && keys == old(keys) && types == old(types)
                && schema == if types[field.key] == field then Found(field.key) else ImproperlyConfigured
    {
      var key := field.key;
      schema := Found(key);
      if key !in types {
        DistinctGrows(keys, key);
        AddToGroup(key);
        types := types[key := field];
      } else if types[key] != field {
        schema := ImproperlyConfigured;
      }
    }

    method AddToGroup(key: SchemaKey)
      requires Indexed(keys, groups, groupOrder)
      modifies this`keys, this`groups, this`groupOrder
      ensures Indexed(keys, groups, groupOrder) && keys == old(keys) + [key]
    {
      var name := Last(key);
      IndexGrows(keys, groups, groupOrder, key);
      if name !in groups {
        groups := groups[name := [key]];
        groupOrder := groupOrder + [name];
      } else {
        groups := groups[name := groups[name] + [key]];
      }
      keys := keys + [key];
    }

    /** A new reference to a registered schema. */
    method GetReferenceForFieldDefinition(field: Field) returns (reference: Registered<ReferenceId>)
      requires Valid()
      modifies this`references, this`refs, this`issued
      ensures Valid()
      ensures field.key !in keys ==> reference == NotRegistered
      ensures field.key in keys ==>
                (reference == ImproperlyConfigured <==> types[field.key] != field && types[field.key].raw != field.raw)
      ensures !reference.Found? ==> references == old(references) && refs == old(refs)
      ensures reference.Found? ==>
                && field.key in keys && reference.value !in old(references)
                && references == old(references)[reference.value := field.key]
                && refs == old(refs)[reference.value := SCHEMAS + Joined("_", field.key)]
    {
      var key := field.key;
      if key !in types {
        return NotRegistered;
      }
      if types[key] != field && field.raw != types[key].raw {
        return ImproperlyConfigured;
      }
      var id := Issue(key);
      reference := Found(id);
    }

    method Issue(key: SchemaKey) returns (id: ReferenceId)
      requires refs.Keys == references.Keys && forall r | r in references :: r < issued
      modifies this`references, this`refs, this`issued
      ensures id == old(issued) && issued == id + 1
      ensures references == old(references)[id := key] && refs == old(refs)[id := SCHEMAS + Joined("_", key)]
      ensures refs.Keys == references.Keys && forall r | r in references :: r < issued
    {
      id := issued;
      references := references[id := key];
      refs := refs[id := SCHEMAS + Joined("_", key)];
      issued := issued + 1;
    }

    method SetReferencePaths(name: string, key: SchemaKey)
      requires refs.Keys == references.Keys
      modifies this`refs
      ensures refs.Keys == references.Keys
      ensures forall r | r in references ::
                refs[r] == if references[r] == key then SCHEMAS + name else old(refs)[r]
    {
      refs := map r | r in references :: if references[r] == key then SCHEMAS + name else refs[r];
    }

    /** Every component is a registered schema under its name. */
    ghost predicate Named(components: map<string, SchemaKey>)
      reads this
    {
      forall n | n in components :: components[n] in keys && NameOf(keys, components[n]) == n
    }

    /** The schemas of one model name, from the i-th of its group on, are named and pointed to. */
    ghost predicate GroupDone(name: string, i: nat, components: map<string, SchemaKey>)
      reads this
      requires refs.Keys == references.Keys && i <= |Group(keys, name)|
    {
      forall k | k in keys && k in Group(keys, name)[..i] ::
        && NameOf(keys, k) in components
        && forall r | r in references && references[r] == k :: refs[r] == SCHEMAS + NameOf(keys, k)
    }

    /** One turn of the inner loop: a schema of the group gets its name. */
    method NameSchema(name: string, i: nat, name_: string, sofar: map<string, SchemaKey>)
      returns (components: map<string, SchemaKey>)
      requires refs.Keys == references.Keys && Named(sofar) && Distinct(keys)
      requires i < |Group(keys, name)| && GroupDone(name, i, sofar)
      requires Group(keys, name)[i] in keys && name_ == NameOf(keys, Group(keys, name)[i])
      modifies this`refs
      ensures refs.Keys == references.Keys && Named(components) && sofar.Keys <= components.Keys
      ensures GroupDone(name, i + 1, components)
      ensures forall r | r in references && Last(references[r]) != name :: refs[r] == old(refs)[r]
    {
      var key := Group(keys, name)[i];
      GroupStep(keys, name, i);
      SetReferencePaths(name_, key);
      components := sofar[name_ := key];
      forall k | k in keys && k in Group(keys, name)[..i + 1]
        ensures NameOf(keys, k) in components
        ensures forall r | r in references && references[r] == k :: refs[r] == SCHEMAS + NameOf(keys, k)
      {
        assert k != key ==> k in Group(keys, name)[..i];
      }
    }

    /** One turn of the outer loop, for the schemas of one model name. */
    method GenerateGroup(name: string, sofar: map<string, SchemaKey>) returns (components: map<string, SchemaKey>)
      requires refs.Keys == references.Keys && Named(sofar) && Distinct(keys)
      requires name in groups && groups[name] == Group(keys, name) != []
      modifies this`refs
      ensures refs.Keys == references.Keys && Named(components) && sofar.Keys <= components.Keys
      ensures GroupDone(name, |Group(keys, name)|, components)
      ensures forall r | r in references && Last(references[r]) != name :: refs[r] == old(refs)[r]
    {
      var group := groups[name];
      components := sofar;
      if |group| == 1 {
        GroupMembers(keys, name, group[0]);
        components := NameSchema(name, 0, name, components);
        return;
      }
      var prefix := FindLongestCommonPrefix(group);
      var i := 0;
      while i < |group|
        invariant 0 <= i <= |group| && refs.Keys == references.Keys
        invariant Named(components) && sofar.Keys <= components.Keys
        invariant GroupDone(name, i, components)
        invariant forall r | r in references && Last(references[r]) != name :: refs[r] == old(refs)[r]
      {
        GroupMembers(keys, name, group[i]);
        PrefixOfMember(group, group[i]);
        components := NameSchema(name, i, Joined("_", group[i][|prefix|..]), components);
        i := i + 1;
      }
    }

    /** The schemas of these model names are named and pointed to. */
    ghost predicate Done(names: seq<string>, components: map<string, SchemaKey>)
      reads this
      requires refs.Keys == references.Keys
    {
      forall k | k in keys && Last(k) in names ::
        && NameOf(keys, k) in components
        && forall r | r in references && references[r] == k :: refs[r] == SCHEMAS + NameOf(keys, k)
    }

    method GenerateNext(i: nat, sofar: map<string, SchemaKey>) returns (components: map<string, SchemaKey>)
      requires refs.Keys == references.Keys && Named(sofar) && Distinct(keys) && Indexed(keys, groups, groupOrder)
      requires i < |groupOrder| && Done(groupOrder[..i], sofar)
      modifies this`refs
      ensures refs.Keys == references.Keys && Named(components) && Done(groupOrder[..i + 1], components)
    {
      var name := groupOrder[i];
      components := GenerateGroup(name, sofar);
      assert groupOrder[..i + 1] == groupOrder[..i] + [name];
      ghost var group := Group(keys, name);
      assert group[..|group|] == group;
      forall k | k in keys && Last(k) in groupOrder[..i + 1]
        ensures NameOf(keys, k) in components
        ensures forall r | r in references && references[r] == k :: refs[r] == SCHEMAS + NameOf(keys, k)
      {
        if Last(k) == name {
          GroupMembers(keys, name, k);
        } else {
          assert Last(k) in groupOrder[..i];
        }
      }
    }

    method GenerateAll() returns (components: map<string, SchemaKey>)
      requires refs.Keys == references.Keys && Distinct(keys) && Indexed(keys, groups, groupOrder)
      modifies this`refs
      ensures refs.Keys == references.Keys && Named(components) && Done(groupOrder, components)
    {
      components := map[];
      var i := 0;
      while i < |groupOrder|
        invariant 0 <= i <= |groupOrder| && refs.Keys == references.Keys
        invariant Named(components) && Done(groupOrder[..i], components)
      {
        components := GenerateNext(i, components);
        i := i + 1;
      }
      assert groupOrder[..i] == groupOrder;
    }

    /**
     The components of the document, and where all references point to. Nothing else of
     the registry changes. When the names differ every schema stands under its own name,
     and every reference that was issued points to the schema it was issued for.
     */
    method GenerateComponentsSchemas() returns (components: map<string, SchemaKey>)
      requires Valid()
      modifies this`refs
      ensures refs.Keys == references.Keys && Named(components)
      ensures forall k | k in keys :: NameOf(keys, k) in components
      ensures forall r | r in references :: refs[r] == SCHEMAS + NameOf(keys, references[r])
      ensures NamesDiffer(keys) ==> forall k | k in keys :: components[NameOf(keys, k)] == k
      ensures NamesDiffer(keys) ==>
                forall r | r in references ::
                  exists n :: n in components && refs[r] == SCHEMAS + n && components[n] == references[r]
    {
      components := GenerateAll();
      AllDone(components);
    }

    lemma {:induction false} AllDone(components: map<string, SchemaKey>)
      requires refs.Keys == references.Keys && Indexed(keys, groups, groupOrder) && Done(groupOrder, components)
      requires forall r | r in references :: references[r] in keys
      ensures forall k | k in keys :: NameOf(keys, k) in components
      ensures forall r | r in references :: refs[r] == SCHEMAS + NameOf(keys, references[r])
    {
      forall k | k in keys
        ensures NameOf(keys, k) in components
        ensures forall r | r in references && references[r] == k :: refs[r] == SCHEMAS + NameOf(keys, k)
      {
        assert Last(k) in groupOrder;
      }
    }
  }

  lemma {:induction false} DistinctGrows(keys: seq<SchemaKey>, key: SchemaKey)
    requires Distinct(keys) && key !in keys
    ensures Distinct(keys + [key])
  {
  }

  lemma {:induction false} GroupStep(keys: seq<SchemaKey>, name: string, i: nat)
    requires Distinct(keys) && i < |Group(keys, name)|
    ensures var group := Group(keys, name);
            && Last(group[i]) == name
            && forall k :: k in group[..i + 1] <==> k in group[..i] || k == group[i]
  {
    var group := Group(keys, name);
    GroupMembers(keys, name, group[i]);
    assert group[..i + 1] == group[..i] + [group[i]];
  }

  lemma {:induction false} NoGroup(keys: seq<SchemaKey>, name: string)
    requires forall k | k in keys :: Last(k) != name
    ensures Group(keys, name) == []
  {
    if Group(keys, name) != [] {
      GroupMembers(keys, name, Group(keys, name)[0]);
    }
  }

  lemma {:induction false} GroupsGrow(keys: seq<SchemaKey>, key: SchemaKey)
    ensures forall n :: Group(keys + [key], n) == Group(keys, n) + if Last(key) == n then [key] else []
  {
    var more := keys + [key];
    if keys == [] {
      assert more[1..] == [];
    } else {
      assert more[1..] == keys[1..] + [key] && more[0] == keys[0];
      GroupsGrow(keys[1..], key);
    }
  }
}
