/**
 Merging the request parameters that a handler and its dependencies expect
 (litestar/_kwargs/parameter_definition.py, litestar/_kwargs/kwargs_model.py).
 */
module ParameterSets {

  datatype ParamType = Path | Query | Cookie | Header

  datatype ParameterDefinition = ParameterDefinition(
    default: nat, fieldAlias: string, fieldName: string, isRequired: bool, isSequence: bool, paramType: ParamType)

  type Params = set<ParameterDefinition>

  predicate RequiredIn(alias: string, s: Params) {
    exists p :: p in s && p.fieldAlias == alias && p.isRequired
  }

  /** Optional definitions give way to a required one of the same alias. */
  function Normal(s: Params): Params {
    set p | p in s && (p.isRequired || !RequiredIn(p.fieldAlias, s))
  }

  /** No alias is both required and optional. */
  predicate IsNormal(s: Params) {
    forall p, q | p in s && q in s && p.fieldAlias == q.fieldAlias :: p.isRequired == q.isRequired
  }

  function Difference(first: Params, second: Params): Params {
    (first - second) + (second - first)
  }

  function MergeParameterSets(first: Params, second: Params): Params {
    var difference := Difference(first, second);
    (first * second) + set p | p in difference && (p.isRequired || !RequiredIn(p.fieldAlias, difference))
  }

  method MergeInLoop(first: Params, second: Params) returns (result: Params)
    ensures result == MergeParameterSets(first, second)
  {
    result := first * second;
    var difference := (first - second) + (second - first);
    var rest := difference;
    while rest != {}
      invariant rest <= difference
      invariant result == (first * second) + set p | p in difference - rest
                                                 && (p.isRequired || !RequiredIn(p.fieldAlias, difference))
      decreases rest
    {
      var param :| param in rest;
      if param.isRequired || !RequiredIn(param.fieldAlias, difference) {
        result := result + {param};
      }
      rest := rest - {param};
    }
  }

  // ----- what merging means -----

  lemma {:induction false} NormalIsNormal(s: Params)
    ensures IsNormal(Normal(s))
    ensures IsNormal(s) <==> Normal(s) == s
  {
    if Normal(s) == s {
      forall p, q | p in s && q in s && p.fieldAlias == q.fieldAlias
        ensures p.isRequired == q.isRequired
      {
        assert p in Normal(s) && q in Normal(s);
      }
    }
  }

  /** Of sets in normal form merging makes their union, less what a required definition shadows, in normal form. */
  lemma {:induction false} MergeIsNormalUnion(a: Params, b: Params)
    requires IsNormal(a) && IsNormal(b)
    ensures MergeParameterSets(a, b) == Normal(a + b)
    ensures IsNormal(MergeParameterSets(a, b))
  {
    var d := Difference(a, b);
    forall p | p in a + b
      ensures p in MergeParameterSets(a, b) <==> p in Normal(a + b)
    {
      if !p.isRequired && RequiredIn(p.fieldAlias, a + b) {
        var q :| q in a + b && q.fieldAlias == p.fieldAlias && q.isRequired;
        assert p in d && q in d;
      }
    }
    NormalIsNormal(a + b);
  }

  lemma {:induction false} NormalOfUnion(a: Params, b: Params)
    ensures Normal(Normal(a) + b) == Normal(a + b)
  {
    forall alias
      ensures RequiredIn(alias, Normal(a) + b) <==> RequiredIn(alias, a + b)
    {
      if RequiredIn(alias, a + b) {
        var q :| q in a + b && q.fieldAlias == alias && q.isRequired;
        assert q in Normal(a) + b;
      }
    }
    forall p | p in a + b && !p.isRequired && !RequiredIn(p.fieldAlias, a + b)
      ensures p in Normal(a) + b
    {
      assert RequiredIn(p.fieldAlias, a) ==> RequiredIn(p.fieldAlias, a + b);
    }
  }

  /** On sets in normal form merging is associative, commutative and idempotent. */
  lemma {:induction false} MergeLaws(a: Params, b: Params, c: Params)
    requires IsNormal(a) && IsNormal(b) && IsNormal(c)
    ensures MergeParameterSets(MergeParameterSets(a, b), c) == MergeParameterSets(a, MergeParameterSets(b, c))
    ensures MergeParameterSets(a, b) == MergeParameterSets(b, a)
    ensures MergeParameterSets(a, a) == a
  {
    MergeIsNormalUnion(a, b);
    MergeIsNormalUnion(b, a);
    MergeIsNormalUnion(b, c);
    MergeIsNormalUnion(a, a);
    MergeIsNormalUnion(Normal(a + b), c);
    MergeIsNormalUnion(a, Normal(b + c));
    NormalOfUnion(a + b, c);
    NormalOfUnion(b + c, a);
    assert Normal(b + c) + a == a + Normal(b + c);
    assert (b + c) + a == (a + b) + c;
    assert b + a == a + b && a + a == a;
    NormalIsNormal(a);
  }

  /** Exactly for sets in normal form does it not matter how they are grouped, be it only with themselves and nothing. */
  lemma {:induction false} GroupingMattersUnlessNormal(a: Params)
    ensures MergeParameterSets(MergeParameterSets(a, a), {}) == MergeParameterSets(a, MergeParameterSets(a, {}))
       <==> IsNormal(a)
  {
    var n := Normal(a);
    assert Difference(a, a) == {} && MergeParameterSets(a, a) == a;
    assert Difference(a, {}) == a && MergeParameterSets(a, {}) == n;
    assert Difference(a, n) == a - n;
    assert n <= a && forall q | q in a - n :: !q.isRequired;
    assert MergeParameterSets(a, n) == a;
    NormalIsNormal(a);
  }

  ghost predicate Associates(family: set<Params>) {
    forall a, b, c | a in family && b in family && c in family ::
      MergeParameterSets(MergeParameterSets(a, b), c) == MergeParameterSets(a, MergeParameterSets(b, c))
  }

  /** Among sets of parameters, the empty one being one of them, grouping is irrelevant exactly if all are normal. */
  lemma {:induction false} AssociatesIff(family: set<Params>)
    requires {} in family
    ensures Associates(family) <==> forall a | a in family :: IsNormal(a)
  {
    if Associates(family) {
      forall a | a in family
        ensures IsNormal(a)
      {
        GroupingMattersUnlessNormal(a);
      }
    }
    if forall a | a in family :: IsNormal(a) {
      forall a, b, c | a in family && b in family && c in family
        ensures MergeParameterSets(MergeParameterSets(a, b), c) == MergeParameterSets(a, MergeParameterSets(b, c))
      {
        MergeLaws(a, b, c);
      }
    }
  }

  /**
   Out of normal form the order counts: a set that holds both kinds of an alias
   keeps its optional definition where the other set holds both as well.
   */
  lemma {:induction false} OrderCountsOutOfNormalForm()
    ensures var optional := ParameterDefinition(0, "x", "a", false, false, Query);
            var required := ParameterDefinition(0, "x", "b", true, false, Query);
            var both := {optional, required};
            && !IsNormal(both)
            && MergeParameterSets(MergeParameterSets(both, both), {}) == {required}
            && MergeParameterSets(both, MergeParameterSets(both, {})) == both
  {
    var optional := ParameterDefinition(0, "x", "a", false, false, Query);
    var required := ParameterDefinition(0, "x", "b", true, false, Query);
    var both := {optional, required};
    assert optional.fieldName[0] != required.fieldName[0];
    assert Difference(both, both) == {};
    assert MergeParameterSets(both, both) == both;
    assert Difference(both, {}) == both;
    assert RequiredIn("x", both);
    assert MergeParameterSets(both, {}) == {required};
    assert Difference(both, {required}) == {optional};
    assert !RequiredIn("x", {optional});
    assert MergeParameterSets(both, {required}) == both;
  }

  // ----- over the tree of dependencies -----

  /** A signature: the parameters of its own fields, and the dependencies in the order they are visited. */
  datatype Signature = Signature(own: Params, dependencies: seq<Signature>)

  function MergeAll(sofar: Params, dependencies: seq<Signature>): Params
    decreases dependencies, 1
  {
    if dependencies == [] then sofar
    else MergeAll(MergeParameterSets(sofar, Expected(dependencies[0])), dependencies[1..])
  }

  function Expected(s: Signature): Params
    decreases s, 0
  {
    MergeAll(s.own, s.dependencies)
  }

  /** The loop of `create_for_signature_model`. */
  method CreateForSignatureModel(s: Signature) returns (expected: Params)
    ensures expected == Expected(s)
    decreases s
  {
    expected := s.own;
    var i := 0;
    while i < |s.dependencies|
      invariant 0 <= i <= |s.dependencies|
      invariant MergeAll(expected, s.dependencies[i..]) == Expected(s)
    {
      var dependency := s.dependencies[i];
      assert s.dependencies[i..][0] == dependency && s.dependencies[i..][1..] == s.dependencies[i + 1..];
      var model := CreateForSignatureModel(dependency);
      expected := MergeInLoop(expected, model);
      i := i + 1;
    }
  }

  function AllOf(dependencies: seq<Signature>): Params
    decreases dependencies, 1
  {
    if dependencies == [] then {} else All(dependencies[0]) + AllOf(dependencies[1..])
  }

  /** The parameters of all signatures in the tree. */
  function All(s: Signature): Params
    decreases s, 0
  {
    s.own + AllOf(s.dependencies)
  }

  predicate AllNormalOf(dependencies: seq<Signature>)
    decreases dependencies, 1
  {
    dependencies == [] || (AllNormal(dependencies[0]) && AllNormalOf(dependencies[1..]))
  }

  predicate AllNormal(s: Signature)
    decreases s, 0
  {
    IsNormal(s.own) && AllNormalOf(s.dependencies)
  }

  lemma {:induction false} MergeAllIsNormalUnion(sofar: Params, dependencies: seq<Signature>)
    requires IsNormal(sofar) && AllNormalOf(dependencies)
    ensures MergeAll(sofar, dependencies) == Normal(sofar + AllOf(dependencies))
    decreases dependencies, 1
  {
    if dependencies == [] {
      NormalIsNormal(sofar);
      assert sofar + {} == sofar;
    } else {
      var all, rest := All(dependencies[0]), AllOf(dependencies[1..]);
      ExpectedIsNormalUnion(dependencies[0]);
      NormalIsNormal(all);
      MergeIsNormalUnion(sofar, Normal(all));
      MergeAllIsNormalUnion(Normal(sofar + Normal(all)), dependencies[1..]);
      NormalOfUnion(all, sofar);
      assert Normal(all) + sofar == sofar + Normal(all) && all + sofar == sofar + all;
      NormalOfUnion(sofar + all, rest);
      assert (sofar + all) + rest == sofar + AllOf(dependencies);
    }
  }

  /** What is expected over the whole tree: the union of it all, a required definition shadowing optional ones. */
  lemma {:induction false} ExpectedIsNormalUnion(s: Signature)
    requires AllNormal(s)
    ensures Expected(s) == Normal(All(s))
    decreases s, 0
  {
    MergeAllIsNormalUnion(s.own, s.dependencies);
  }

  lemma {:induction false} AllOfMeans(dependencies: seq<Signature>, p: ParameterDefinition)
    ensures p in AllOf(dependencies) <==> exists d :: d in dependencies && p in All(d)
    decreases dependencies
  {
    if dependencies != [] {
      AllOfMeans(dependencies[1..], p);
      var d0, rest := dependencies[0], dependencies[1..];
      assert dependencies == [d0] + rest;
      if p in AllOf(rest) {
        var d :| d in rest && p in All(d);
        assert d in dependencies;
      } else if p in All(d0) {
        assert d0 in dependencies;
      }
    }
  }

  lemma {:induction false} AllNormalOfMeans(dependencies: seq<Signature>)
    ensures AllNormalOf(dependencies) <==> forall d | d in dependencies :: AllNormal(d)
    decreases dependencies
  {
    if dependencies != [] {
      AllNormalOfMeans(dependencies[1..]);
      var d0, rest := dependencies[0], dependencies[1..];
      assert dependencies == [d0] + rest;
      if AllNormalOf(rest) && AllNormal(d0) {
        forall d | d in dependencies
          ensures AllNormal(d)
        {
          assert d == d0 || d in rest;
        }
      } else if !AllNormal(d0) {
        assert d0 in dependencies;
      } else {
        var d :| d in rest && !AllNormal(d);
        assert d in dependencies;
      }
    }
  }

  /** All sets of parameters in the tree are normal, which is so of those of one signature and of its dependencies. */
  lemma {:induction false} AllNormalMeans(s: Signature)
    ensures AllNormal(s) <==> IsNormal(s.own) && forall d | d in s.dependencies :: AllNormal(d)
    ensures s.dependencies == [] ==> All(s) == s.own
  {
    AllNormalOfMeans(s.dependencies);
  }

  /** The order in which the set of dependencies is walked does not matter, nor does walking one twice. */
  lemma {:induction false} VisitingOrderIsIrrelevant(own: Params, some: seq<Signature>, other: seq<Signature>)
    requires AllNormal(Signature(own, some)) && forall d :: d in some <==> d in other
    ensures Expected(Signature(own, some)) == Expected(Signature(own, other))
  {
    AllNormalOfMeans(some);
    AllNormalOfMeans(other);
    ExpectedIsNormalUnion(Signature(own, some));
    ExpectedIsNormalUnion(Signature(own, other));
    forall p
      ensures p in AllOf(some) <==> p in AllOf(other)
    {
      AllOfMeans(some, p);
      AllOfMeans(other, p);
    }
    assert AllOf(some) == AllOf(other);
  }
}
