/**
 Naming the components of an OpenAPI document: schemas are registered under
 tuples such as ("path", "to", "Model"), and get names that are as short as
 possible (litestar/_openapi/datastructures.py).
 */
module OpenApiComponents {
  import opened Strings

  type Key = seq<string>

  // ----- the longest common prefix -----

  predicate IsCommonPrefix(prefix: Key, keys: seq<Key>) {
    forall i | 0 <= i < |keys| :: prefix <= keys[i]
  }

  function CommonOfTwo(a: Key, b: Key): (r: Key)
    ensures r <= a && r <= b
    ensures |r| == |a| || |r| == |b| || a[|r|] != b[|r|]
  {
    if a == [] || b == [] || a[0] != b[0] then [] else [a[0]] + CommonOfTwo(a[1..], b[1..])
  }

  function CommonFrom(prefix: Key, keys: seq<Key>): (r: Key)
    ensures r <= prefix
    decreases keys
  {
    if keys == [] then prefix else CommonFrom(CommonOfTwo(prefix, keys[0]), keys[1..])
  }

  function LongestCommonPrefix(keys: seq<Key>): Key
    requires keys != []
  {
    CommonFrom(keys[0], keys)
  }

  lemma {:induction false} GreatestOfTwo(a: Key, b: Key, p: Key)
    ensures p <= a && p <= b <==> p <= CommonOfTwo(a, b)
  {
    var r := CommonOfTwo(a, b);
    if p <= a && p <= b && |p| > |r| {
      assert false;
    }
  }

  lemma {:induction false} GreatestFrom(prefix: Key, keys: seq<Key>, p: Key)
    ensures p <= CommonFrom(prefix, keys) <==> p <= prefix && IsCommonPrefix(p, keys)
    decreases keys
  {
    if keys != [] {
      GreatestFrom(CommonOfTwo(prefix, keys[0]), keys[1..], p);
      GreatestOfTwo(prefix, keys[0], p);
      assert IsCommonPrefix(p, keys) <==> p <= keys[0] && IsCommonPrefix(p, keys[1..]) by {
        if p <= keys[0] && IsCommonPrefix(p, keys[1..]) {
          assert forall i | 1 <= i < |keys| :: keys[i] == keys[1..][i - 1];
        }
      }
    }
  }

  /** It is a common prefix, and every common prefix is a prefix of it. */
  lemma {:induction false} LongestIsGreatest(keys: seq<Key>, p: Key)
    requires keys != []
    ensures p <= LongestCommonPrefix(keys) <==> IsCommonPrefix(p, keys)
  {
    GreatestFrom(keys[0], keys, p);
  }

  /** The inner loop: shorten the prefix to what it shares with one more tuple. */
  method Shorten(prefix: Key, t: Key) returns (r: Key)
    ensures r == CommonOfTwo(prefix, t)
  {
    r := prefix[..if |prefix| <= |t| then |prefix| else |t|];
    var i := 0;
    while i < |r|
      invariant 0 <= i <= |r|
      invariant r <= prefix && r[..i] <= t
      invariant |r| == |prefix| || |r| == |t|
    {
      if r[i] != t[i] {
        r := r[..i];
        CommonIsUnique(prefix, t, r);
        return;
      }
      assert r[..i + 1] == r[..i] + [r[i]];
      i := i + 1;
    }
    assert r[..i] == r;
    CommonIsUnique(prefix, t, r);
  }

  method FindLongestCommonPrefix(tuples: seq<Key>) returns (prefix: Key)
    requires tuples != []
    ensures prefix == LongestCommonPrefix(tuples)
  {
    prefix := tuples[0];
    for n := 0 to |tuples|
      invariant CommonFrom(prefix, tuples[n..]) == LongestCommonPrefix(tuples)
    {
      assert tuples[n..][0] == tuples[n] && tuples[n..][1..] == tuples[n + 1..];
      prefix := Shorten(prefix, tuples[n]);
    }
  }

  lemma {:induction false} CommonIsUnique(a: Key, b: Key, r: Key)
    requires r <= a && r <= b && (|r| == |a| || |r| == |b| || a[|r|] != b[|r|])
    ensures r == CommonOfTwo(a, b)
  {
    GreatestOfTwo(a, b, r);
    var c := CommonOfTwo(a, b);
    if |c| > |r| {
      assert false;
    }
  }

  // ----- names -----

  /** What a schema is registered under has a model name. */
  type SchemaKey = k: Key | k != [] witness [""]

  function Last(key: SchemaKey): string {
    key[|key| - 1]
  }

  /** The keys of the same model name, in the order they were registered. */
  function Group(keys: seq<SchemaKey>, name: string): seq<SchemaKey> {
    if keys == [] then []
    else if Last(keys[0]) == name then [keys[0]] + Group(keys[1..], name)
    else Group(keys[1..], name)
  }

  lemma {:induction false} GroupMembers(keys: seq<SchemaKey>, name: string, k: SchemaKey)
    ensures k in Group(keys, name) <==> k in keys && Last(k) == name
  {
    if keys != [] {
      assert k in keys <==> k == keys[0] || k in keys[1..];
      GroupMembers(keys[1..], name, k);
    }
  }

  /** What remains of a key: the model name if that is unique, else what its group does not have in common. */
  function Short(keys: seq<SchemaKey>, key: SchemaKey): (r: Key)
    requires key in keys
  {
    var group := Group(keys, Last(key));
    GroupMembers(keys, Last(key), key);
    if |group| == 1 then [Last(key)]
    else
      PrefixOfMember(group, key);
      key[|LongestCommonPrefix(group)|..]
  }

  lemma {:induction false} PrefixOfMember(group: seq<SchemaKey>, key: SchemaKey)
    requires key in group
    ensures LongestCommonPrefix(group) <= key
  {
    LongestIsGreatest(group, LongestCommonPrefix(group));
  }

  function NameOf(keys: seq<SchemaKey>, key: SchemaKey): string
    requires key in keys
  {
    Joined("_", Short(keys, key))
  }

  predicate Plain(key: Key) {
    forall i | 0 <= i < |key| :: key[i] != "" && '_' !in key[i]
  }

  lemma {:induction false} PlainPieces(a: Key)
    requires Plain(a) && a != []
    ensures Pieces(a, '_') == a
  {
    assert Find(a[0], '_') == |a[0]|;
    if |a| > 1 {
      PlainPieces(a[1..]);
      assert a == [a[0]] + a[1..];
    } else {
      assert a == [a[0]];
    }
  }

  /** Without underscores or empty components a joined key can be read back. */
  lemma {:induction false} JoinedIsInjective(a: Key, b: Key)
    requires Plain(a) && Plain(b) && Joined("_", a) == Joined("_", b)
    ensures a == b
  {
    JoinedEqualIff(a, b, '_');
    if a != [] {
      PlainPieces(a);
    }
    if b != [] {
      PlainPieces(b);
    }
  }

  /** What is left of a key, if anything is, tells which key it is. */
  lemma {:induction false} ShortIsInjective(keys: seq<SchemaKey>, a: SchemaKey, b: SchemaKey)
    requires a in keys && b in keys
    requires Short(keys, a) == Short(keys, b) != []
    ensures a == b
  {
    var short, group := Short(keys, a), Group(keys, Last(a));
    ShortEnds(keys, a);
    ShortEnds(keys, b);
    GroupMembers(keys, Last(a), a);
    GroupMembers(keys, Last(a), b);
    PrefixOfMember(group, a);
    PrefixOfMember(group, b);
    if |group| != 1 {
      var prefix := LongestCommonPrefix(group);
      assert a == prefix + short && b == prefix + short;
    }
  }

  lemma {:induction false} ShortEnds(keys: seq<SchemaKey>, key: SchemaKey)
    requires key in keys && Short(keys, key) != []
    ensures Last(Short(keys, key)) == Last(key)
  {
    GroupMembers(keys, Last(key), key);
    PrefixOfMember(Group(keys, Last(key)), key);
  }

  /** Two schemas get the same name only if nothing is left of either key. */
  lemma {:induction false} SameNameOnlyIfEmpty(keys: seq<SchemaKey>, a: SchemaKey, b: SchemaKey)
    requires a in keys && b in keys && Plain(a) && Plain(b) && a != b
    requires NameOf(keys, a) == NameOf(keys, b)
    ensures Short(keys, a) == Short(keys, b) == []
  {
    ShortIsPlain(keys, a);
    ShortIsPlain(keys, b);
    JoinedIsInjective(Short(keys, a), Short(keys, b));
    if Short(keys, a) != [] {
      ShortIsInjective(keys, a, b);
      assert false;
    }
  }

  lemma {:induction false} ShortIsPlain(keys: seq<SchemaKey>, key: SchemaKey)
    requires key in keys && Plain(key)
    ensures Plain(Short(keys, key))
  {
    GroupMembers(keys, Last(key), key);
    PrefixOfMember(Group(keys, Last(key)), key);
  }

  /** Of a key nothing is left exactly when it has company in its group and begins every key of it. */
  lemma {:induction false} ShortIsEmptyIff(keys: seq<SchemaKey>, key: SchemaKey)
    requires key in keys
    ensures var group := Group(keys, Last(key));
            Short(keys, key) == [] <==> |group| != 1 && IsCommonPrefix(key, group)
  {
    var group := Group(keys, Last(key));
    GroupMembers(keys, Last(key), key);
    PrefixOfMember(group, key);
    LongestIsGreatest(group, key);
  }

  ghost predicate Distinct(keys: seq<SchemaKey>) {
    forall i, j | 0 <= i < j < |keys| :: keys[i] != keys[j]
  }

  ghost predicate NamesDiffer(keys: seq<SchemaKey>) {
    forall a, b | a in keys && b in keys && a != b :: NameOf(keys, a) != NameOf(keys, b)
  }

  /** The pieces between underscores of what is left of a key. */
  function NamePieces(keys: seq<SchemaKey>, key: SchemaKey): seq<string>
    requires key in keys
  {
    Pieces(Short(keys, key), '_')
  }

  /** Two schemas, be there underscores or not, collide exactly when what is left of their keys falls into the same pieces. */
  lemma {:induction false} CollideIff(keys: seq<SchemaKey>, a: SchemaKey, b: SchemaKey)
    requires a in keys && b in keys
    ensures NameOf(keys, a) == NameOf(keys, b) <==> NamePieces(keys, a) == NamePieces(keys, b)
  {
    JoinedEqualIff(Short(keys, a), Short(keys, b), '_');
  }

  /** So no schema is lost exactly when the keys' remainders fall into different pieces. */
  lemma {:induction false} NamesDifferByPieces(keys: seq<SchemaKey>)
    ensures NamesDiffer(keys) <==>
            forall a, b | a in keys && b in keys && a != b :: NamePieces(keys, a) != NamePieces(keys, b)
  {
    forall a, b | a in keys && b in keys {
      CollideIff(keys, a, b);
    }
  }

  /** A key of which its group leaves nothing. */
  ghost predicate Vanishes(keys: seq<SchemaKey>, key: SchemaKey) {
    && key in keys
    && |Group(keys, Last(key))| != 1
    && IsCommonPrefix(key, Group(keys, Last(key)))
  }

  /** Without underscores names differ exactly when at most one key vanishes. */
  lemma {:induction false} NamesDifferIff(keys: seq<SchemaKey>)
    requires forall k | k in keys :: Plain(k)
    ensures NamesDiffer(keys) <==> forall a, b | Vanishes(keys, a) && Vanishes(keys, b) :: a == b
  {
    forall k | k in keys
      ensures Vanishes(keys, k) <==> Short(keys, k) == []
    {
      ShortIsEmptyIff(keys, k);
    }
    if forall a, b | Vanishes(keys, a) && Vanishes(keys, b) :: a == b {
      forall a, b | a in keys && b in keys && a != b
        ensures NameOf(keys, a) != NameOf(keys, b)
      {
        if NameOf(keys, a) == NameOf(keys, b) {
          SameNameOnlyIfEmpty(keys, a, b);
        }
      }
    } else {
      var a, b :| Vanishes(keys, a) && Vanishes(keys, b) && a != b;
      assert NameOf(keys, a) == "" == NameOf(keys, b);
    }
  }

  /** No key is the beginning of another of the same model name. */
  ghost predicate PrefixFree(keys: seq<SchemaKey>) {
    forall a, b | a in keys && b in keys && a != b && Last(a) == Last(b) :: !(a <= b)
  }

  lemma {:induction false} GroupIsDistinct(keys: seq<SchemaKey>, name: string)
    requires Distinct(keys)
    ensures Distinct(Group(keys, name))
  {
    if keys != [] {
      var first, rest := keys[0], keys[1..];
      assert forall i | 0 <= i < |rest| :: rest[i] == keys[i + 1];
      GroupIsDistinct(rest, name);
      GroupMembers(rest, name, first);
      assert first !in rest;
    }
  }

  lemma {:induction false} VanishedIsPrefix(keys: seq<SchemaKey>, k: SchemaKey) returns (other: SchemaKey)
    requires Distinct(keys) && Vanishes(keys, k)
    ensures other in keys && other != k && Last(other) == Last(k) && k <= other
  {
    var group := Group(keys, Last(k));
    GroupIsDistinct(keys, Last(k));
    GroupMembers(keys, Last(k), k);
    other := group[if group[0] == k then 1 else 0];
    GroupMembers(keys, Last(k), other);
  }

  /** So then no schema is lost. */
  lemma {:induction false} PrefixFreeNamesDiffer(keys: seq<SchemaKey>)
    requires Distinct(keys) && (forall k | k in keys :: Plain(k)) && PrefixFree(keys)
    ensures NamesDiffer(keys)
  {
    forall k
      ensures !Vanishes(keys, k)
    {
      if Vanishes(keys, k) {
        var other := VanishedIsPrefix(keys, k);
        assert false;
      }
    }
    NamesDifferIff(keys);
  }

  lemma {:induction false} GroupsOfThree(k0: SchemaKey, k1: SchemaKey, k2: SchemaKey)
    requires Last(k0) != Last(k1) == Last(k2)
    ensures Group([k0, k1, k2], Last(k1)) == [k1, k2] && Group([k0, k1, k2], Last(k0)) == [k0]
  {
    var none: seq<SchemaKey>, one: seq<SchemaKey>, two: seq<SchemaKey>, three: seq<SchemaKey> :=
      [], [k2], [k1, k2], [k0, k1, k2];
    assert three[1..] == two && two[1..] == one && one[1..] == none;
    assert Group(none, Last(k1)) == none && Group(none, Last(k0)) == none;
    assert one[0] == k2 && two[0] == k1 && three[0] == k0;
    assert Group(one, Last(k1)) == [k2] + none == one;
    assert Group(two, Last(k1)) == [k1] + one == two;
    assert Group(two, Last(k0)) == Group(one, Last(k0)) == none;
  }

  lemma {:induction false} PrefixOfTwo(k1: Key, k2: Key)
    ensures LongestCommonPrefix([k1, k2]) == CommonOfTwo(k1, k2)
  {
    var none: seq<Key>, one, two := [], [k2], [k1, k2];
    assert two[1..] == one && one[1..] == none;
    CommonIsUnique(k1, k1, k1);
    assert two[0] == k1 && one[0] == k2;
    assert CommonFrom(k1, two) == CommonFrom(k1, one) == CommonFrom(CommonOfTwo(k1, k2), none);
  }

  /** Two classes of one name keep what tells them apart, and a class with a name of its own keeps that. */
  lemma {:induction false} ThreeNames(k0: SchemaKey, k1: SchemaKey, k2: SchemaKey)
    requires k0 == ["m", "D"] && k1 == ["x", "a", "C"] && k2 == ["x", "b", "C"]
    ensures var keys := [k0, k1, k2];
            NameOf(keys, k0) == "D" && NameOf(keys, k1) == "a_C" && NameOf(keys, k2) == "b_C"
    ensures Plain(k0) && Plain(k1) && Plain(k2)
  {
    assert "D"[0] == 'D' && "C"[0] == 'C' && k1[1][0] == 'a' && k2[1][0] == 'b';
    var keys := [k0, k1, k2];
    GroupsOfThree(k0, k1, k2);
    PrefixOfTwo(k1, k2);
    CommonIsUnique(k1, k2, ["x"]);
    assert k0 in keys && k1 in keys && k2 in keys;
    assert k1[1..] == ["a", "C"] && k2[1..] == ["b", "C"] && ["a", "C"][1..] == ["C"] && ["b", "C"][1..] == ["C"];
    assert Joined("_", ["a", "C"]) == "a" + ("_" + "C") == "a_C";
    assert Joined("_", ["b", "C"]) == "b" + ("_" + "C") == "b_C";
  }

  const CLASS_OF_M: SchemaKey := ["m", "a_C"]
  const CLASS_OF_A: SchemaKey := ["x", "a", "C"]
  const CLASS_OF_B: SchemaKey := ["x", "b", "C"]

  lemma {:induction false} CollidingKeysArePrefixFree()
    ensures var keys := [CLASS_OF_M, CLASS_OF_A, CLASS_OF_B];
            Distinct(keys) && PrefixFree(keys)
    ensures Last(CLASS_OF_M) != Last(CLASS_OF_A) == Last(CLASS_OF_B)
    ensures CommonOfTwo(CLASS_OF_A, CLASS_OF_B) == ["x"]
  {
    var k0, k1, k2 := CLASS_OF_M, CLASS_OF_A, CLASS_OF_B;
    assert k1[1][0] == 'a' && k2[1][0] == 'b' && |k0| == 2 && |k1| == |k2| == 3;
    assert |Last(k0)| == 3 && |Last(k1)| == 1;
    assert forall k | k in [k0, k1, k2] :: k == k0 || k == k1 || k == k2;
    CommonIsUnique(k1, k2, ["x"]);
  }

  /** With underscores a schema is lost: the class a_C, and the class C of two modules, one of them named a. */
  lemma {:induction false} UnderscoresCollide()
    ensures var keys := [CLASS_OF_M, CLASS_OF_A, CLASS_OF_B];
            && Distinct(keys) && PrefixFree(keys)
            && NameOf(keys, CLASS_OF_M) == NameOf(keys, CLASS_OF_A) == "a_C"
  {
    var k0, k1, k2 := CLASS_OF_M, CLASS_OF_A, CLASS_OF_B;
    var keys, short := [k0, k1, k2], ["a", "C"];
    CollidingKeysArePrefixFree();
    GroupsOfThree(k0, k1, k2);
    PrefixOfTwo(k1, k2);
    assert k0 in keys && k1 in keys;
    assert Short(keys, k0) == ["a_C"];
    assert k1[1..] == short && short[1..] == ["C"];
    assert Joined("_", short) == "a" + ("_" + "C") == "a_C";
  }
}
