/**
 Scheduling of dependencies (litestar/_kwargs/dependencies.py): a graph of
 containers is flattened by depth-first search and layered into batches. A
 container is equal to every container of the same key, so dictionaries and
 sets of containers are dictionaries and sets of keys.
 */
module DependencyGraph {

  datatype Container = Container(key: string, dependencies: seq<Container>)

  function ChildKeys(c: Container): set<string> {
    set d | d in c.dependencies :: d.key
  }

  /** The container and everything below it. */
  function Nodes(c: Container): set<Container> {
    {c} + set d, n | d in c.dependencies && n in Nodes(d) :: n
  }

  function Universe(cs: set<Container>): set<Container> {
    set c, n | c in cs && n in Nodes(c) :: n
  }

  function Keys(u: set<Container>): set<string> {
    set n | n in u :: n.key
  }

  /** The child list, as far as comparing containers goes. */
  function ChildKeyList(cs: seq<Container>): (r: seq<string>)
    ensures |r| == |cs| && forall i | 0 <= i < |r| :: r[i] == cs[i].key
  {
    if cs == [] then [] else [cs[0].key] + ChildKeyList(cs[1..])
  }

  /** Equal keys have equal child lists, children being compared by their keys. */
  ghost predicate Consistent(u: set<Container>) {
    forall a, b | a in u && b in u && a.key == b.key :: ChildKeyList(a.dependencies) == ChildKeyList(b.dependencies)
  }

  ghost predicate ClosedBelow(u: set<Container>) {
    forall c, d | c in u && d in c.dependencies :: d in u
  }

  /** The length of the longest chain of dependencies below a container. */
  function Level(c: Container): nat
    decreases c, 1
  {
    LevelAbove(c.dependencies)
  }

  function LevelAbove(cs: seq<Container>): nat
    decreases cs, 0
  {
    if cs == [] then 0
    else
      var first, rest := Level(cs[0]) + 1, LevelAbove(cs[1..]);
      if first < rest then rest else first
  }

  lemma {:induction false} LevelAboveAll(cs: seq<Container>)
    ensures forall d | d in cs :: Level(d) < LevelAbove(cs)
    ensures cs != [] ==> exists d | d in cs :: LevelAbove(cs) == Level(d) + 1
    decreases cs
  {
    if cs != [] {
      LevelAboveAll(cs[1..]);
      assert cs[0] in cs && forall d | d in cs[1..] :: d in cs;
    }
  }

  lemma {:induction false} NodesClosed(c: Container)
    ensures c in Nodes(c) && ClosedBelow(Nodes(c))
    ensures forall n | n in Nodes(c) && n != c :: Level(n) < Level(c)
    decreases c
  {
    LevelAboveAll(c.dependencies);
    forall d | d in c.dependencies
      ensures ClosedBelow(Nodes(d)) && Nodes(d) <= Nodes(c) && forall n | n in Nodes(d) :: Level(n) < Level(c)
    {
      NodesClosed(d);
    }
  }

  lemma {:induction false} UniverseClosed(cs: set<Container>)
    ensures cs <= Universe(cs) && ClosedBelow(Universe(cs))
  {
    forall c | c in cs
      ensures c in Nodes(c) && ClosedBelow(Nodes(c)) && Nodes(c) <= Universe(cs)
    {
      NodesClosed(c);
    }
  }

  /** Throughout a finite tree with consistent keys, a key determines all that lies below it. */
  lemma {:induction false} KeyDeterminesTree(a: Container, b: Container, u: set<Container>)
    requires Consistent(u) && ClosedBelow(u) && a in u && b in u && a.key == b.key
    ensures a == b
    decreases a
  {
    var k := ChildKeyList(a.dependencies);
    assert k == ChildKeyList(b.dependencies);
    forall i | 0 <= i < |k|
      ensures a.dependencies[i] == b.dependencies[i]
    {
      assert a.dependencies[i] in a.dependencies && b.dependencies[i] in b.dependencies;
      assert a.dependencies[i].key == k[i] == b.dependencies[i].key;
      KeyDeterminesTree(a.dependencies[i], b.dependencies[i], u);
    }
    assert a.dependencies == b.dependencies;
  }

  /** So no key lies below itself: what is below a child of a container has another key. */
  lemma {:induction false} NoKeyBelowItself(c: Container, e: Container, d: Container)
    requires Consistent(Nodes(c)) && e in c.dependencies && d in Nodes(e)
    ensures d.key != c.key
  {
    NodesClosed(c);
    NodesClosed(e);
    LevelAboveAll(c.dependencies);
    if d.key == c.key {
      KeyDeterminesTree(d, c, Nodes(c));
      assert false;
    }
  }

  // ----- the graph by keys -----

  /** What there is to know of a graph: the children of every key, and how long the longest chain below it is. */
  datatype Table = Table(children: map<string, set<string>>, level: map<string, nat>)

  /** Levels are longest chains, so they fall from a key to its children, and for one of them only by one. */
  ghost predicate Leveled(g: Table) {
    && g.level.Keys == g.children.Keys
    && (forall k, d | k in g.children && d in g.children[k] :: d in g.children && g.level[d] < g.level[k])
    && (forall k {:trigger HasDeepest(g, k)} | k in g.children :: HasDeepest(g, k))
  }

  /** Unless it has no children, one of them is just one level lower. */
  ghost predicate HasDeepest(g: Table, k: string)
    requires k in g.children && k in g.level
    requires forall d | d in g.children[k] :: d in g.level
  {
    g.level[k] > 0 ==> exists d :: d in g.children[k] && g.level[k] == g.level[d] + 1
  }

  ghost function At(u: set<Container>, k: string): (c: Container)
    requires k in Keys(u)
    ensures c in u && c.key == k
  {
    var c :| c in u && c.key == k;
    c
  }

  ghost function TableOf(u: set<Container>): Table {
    Table(map k | k in Keys(u) :: ChildKeys(At(u, k)), map k | k in Keys(u) :: Level(At(u, k)))
  }

  /** Any container of a key tells what the table says of it. */
  lemma {:induction false} TableIsOfAny(u: set<Container>, c: Container)
    requires Consistent(u) && ClosedBelow(u) && c in u
    ensures c.key in Keys(u)
    ensures TableOf(u).children[c.key] == ChildKeys(c) && TableOf(u).level[c.key] == Level(c)
  {
    KeyDeterminesTree(At(u, c.key), c, u);
  }

  lemma {:induction false} TableIsLeveled(u: set<Container>)
    requires Consistent(u) && ClosedBelow(u)
    ensures Leveled(TableOf(u))
  {
    var g := TableOf(u);
    forall k | k in Keys(u)
      ensures forall d | d in g.children[k] :: d in g.children && g.level[d] < g.level[k]
      ensures HasDeepest(g, k)
    {
      var c := At(u, k);
      LevelAboveAll(c.dependencies);
      forall d | d in c.dependencies
        ensures d.key in Keys(u) && g.level[d.key] == Level(d)
      {
        TableIsOfAny(u, d);
      }
      if g.level[k] > 0 {
        var d :| d in c.dependencies && LevelAbove(c.dependencies) == Level(d) + 1;
        assert d.key in g.children[k];
      }
    }
  }

  // ----- flattening -----

  /** The container and all below it have the children the table says. */
  predicate Listed(c: Container, g: Table) {
    && c.key in g.children && g.children[c.key] == ChildKeys(c)
    && forall d | d in c.dependencies :: Listed(d, g)
  }

  lemma {:induction false} NodesAreListed(c: Container, u: set<Container>)
    requires Consistent(u) && ClosedBelow(u) && c in u
    ensures Listed(c, TableOf(u))
    decreases c
  {
    TableIsOfAny(u, c);
    forall d | d in c.dependencies
      ensures Listed(d, TableOf(u))
    {
      NodesAreListed(d, u);
    }
  }

  /** Every entry of the dict says what the children of its key are. */
  ghost predicate Accurate(m: map<string, set<string>>, g: Table) {
    forall k | k in m :: k in g.children && m[k] == g.children[k]
  }

  /** Of the entries in `ks`, all children are in the dict. */
  ghost predicate ClosedOn(m: map<string, set<string>>, ks: set<string>) {
    forall k | k in m && k in ks :: m[k] <= m.Keys
  }

  /** `map_dependencies_recursively`; the dict passed along comes back as a result. */
  method MapDependenciesRecursively(c: Container, m: map<string, set<string>>, ghost g: Table)
    returns (m': map<string, set<string>>)
    requires Listed(c, g) && Accurate(m, g)
    ensures Accurate(m', g) && m.Keys + {c.key} <= m'.Keys
    ensures ClosedOn(m', m'.Keys - m.Keys + {c.key})
    decreases c
  {
    m' := m[c.key := set d | d in c.dependencies :: d.key];
    for i := 0 to |c.dependencies|
      invariant Accurate(m', g) && m.Keys + {c.key} <= m'.Keys
      invariant ClosedOn(m', m'.Keys - m.Keys - {c.key})
      invariant forall j | 0 <= j < i :: c.dependencies[j].key in m'
    {
      var sub := c.dependencies[i];
      if sub.key !in m' {
        m' := MapDependenciesRecursively(sub, m', g);
      }
    }
    assert m'[c.key] == ChildKeys(c) <= m'.Keys;
  }

  lemma {:induction false} ClosedHoldsNodes(c: Container, m: map<string, set<string>>, g: Table)
    requires Listed(c, g) && Accurate(m, g) && c.key in m && ClosedOn(m, m.Keys)
    ensures forall n | n in Nodes(c) :: n.key in m
    decreases c
  {
    forall d | d in c.dependencies
      ensures forall n | n in Nodes(d) :: n.key in m
    {
      assert d.key in m[c.key];
      ClosedHoldsNodes(d, m, g);
    }
  }

  /** The first loop of `create_dependency_batches`: the dict of everything below the expected dependencies. */
  method FlattenDependencies(expected: set<Container>, ghost g: Table) returns (m: map<string, set<string>>)
    requires forall c | c in expected :: Listed(c, g)
    ensures Accurate(m, g) && Keys(Universe(expected)) <= m.Keys
  {
    m := map[];
    var rest := expected;
    while rest != {}
      invariant rest <= expected && Accurate(m, g) && ClosedOn(m, m.Keys)
      invariant forall c | c in expected - rest :: c.key in m
      decreases rest
    {
      var dependency :| dependency in rest;
      if dependency.key !in m {
        m := MapDependenciesRecursively(dependency, m, g);
      }
      rest := rest - {dependency};
    }
    forall c | c in expected
      ensures forall n | n in Nodes(c) :: n.key in m
    {
      ClosedHoldsNodes(c, m, g);
    }
  }

  // ----- batches -----

  ghost function LevelSet(g: Table, n: nat): set<string> {
    set k | k in g.level && g.level[k] == n
  }

  ghost function AtLeast(g: Table, ks: set<string>, n: nat): set<string> {
    set k | k in ks && k in g.level && g.level[k] >= n
  }

  /** The state of the loop after `n` rounds: keys of lower levels are gone, from the dict and from its values. */
  ghost predicate Layered(m: map<string, set<string>>, g: Table, n: nat) {
    && m.Keys == AtLeast(g, g.children.Keys, n)
    && forall k | k in m :: m[k] == AtLeast(g, g.children[k], n)
  }

  lemma {:induction false} RoundTakesOneLevel(m: map<string, set<string>>, g: Table, n: nat)
    requires Leveled(g) && Layered(m, g, n)
    ensures (set k | k in m && m[k] == {}) == LevelSet(g, n)
  {
    forall k | k in m
      ensures m[k] == {} <==> g.level[k] == n
    {
      if g.level[k] > n {
        assert HasDeepest(g, k);
        var d :| d in g.children[k] && g.level[k] == g.level[d] + 1;
        assert d in m[k];
      }
    }
  }

  lemma {:induction false} LevelIsInhabited(g: Table, k: string, n: nat)
    requires Leveled(g) && k in g.children && g.level[k] >= n
    ensures LevelSet(g, n) != {}
    decreases g.level[k]
  {
    if g.level[k] == n {
      assert k in LevelSet(g, n);
    } else {
      assert HasDeepest(g, k);
      var d :| d in g.children[k] && g.level[k] == g.level[d] + 1;
      LevelIsInhabited(g, d, n);
    }
  }

  /** `gone` is taken out of a dict, as keys and from the values. */
  ghost predicate Without(m: map<string, set<string>>, gone: set<string>, m': map<string, set<string>>) {
    m'.Keys == m.Keys - gone && forall k | k in m' :: m'[k] == m[k] - gone
  }

  lemma {:induction false} NextRound(m: map<string, set<string>>, m': map<string, set<string>>, g: Table, n: nat)
    requires Leveled(g) && Layered(m, g, n) && Without(m, LevelSet(g, n), m')
    ensures Layered(m', g, n + 1)
  {
    assert m'.Keys == AtLeast(g, g.children.Keys, n + 1);
    forall k | k in m'
      ensures m'[k] == AtLeast(g, g.children[k], n + 1)
    {
      assert m[k] == AtLeast(g, g.children[k], n);
    }
  }

  /** The body of the batching loop: takes the finished keys out of the dict, one after the other. */
  method RemoveBatch(m: map<string, set<string>>, batch: set<string>) returns (m': map<string, set<string>>)
    requires batch <= m.Keys
    ensures Without(m, batch, m')
  {
    m' := m;
    var rest := batch;
    while rest != {}
      invariant rest <= batch && Without(m, batch - rest, m')
      decreases rest
    {
      var dependency :| dependency in rest;
      m' := map k | k in m' && k != dependency :: m'[k] - {dependency};
      rest := rest - {dependency};
    }
    assert batch - rest == batch;
  }

  ghost predicate LowestLevels(batches: seq<set<string>>, g: Table) {
    forall i | 0 <= i < |batches| :: batches[i] == LevelSet(g, i) && batches[i] != {}
  }

  /** The batches are the levels of the graph, from the leaves up, and none is empty. */
  ghost predicate BatchesOf(batches: seq<set<string>>, g: Table) {
    LowestLevels(batches, g) && forall k | k in g.level :: g.level[k] < |batches|
  }

  lemma {:induction false} RoundAddsLevel(
    m: map<string, set<string>>, m': map<string, set<string>>, batches: seq<set<string>>, batch: set<string>, g: Table)
    requires Leveled(g) && Layered(m, g, |batches|) && LowestLevels(batches, g) && m.Keys != {}
    requires batch == (set k | k in m && m[k] == {}) && Without(m, batch, m')
    ensures Layered(m', g, |batches| + 1) && LowestLevels(batches + [batch], g) && m'.Keys < m.Keys
  {
    RoundTakesOneLevel(m, g, |batches|);
    assert batch != {} by {
      var k :| k in m.Keys;
      LevelIsInhabited(g, k, |batches|);
    }
    NextRound(m, m', g, |batches|);
    LevelAppended(batches, batch, g);
    assert m'.Keys < m.Keys by {
      var k :| k in batch;
      assert k in m.Keys && k !in m'.Keys;
    }
  }

  lemma {:induction false} LevelAppended(batches: seq<set<string>>, batch: set<string>, g: Table)
    requires Leveled(g) && LowestLevels(batches, g) && batch == LevelSet(g, |batches|) && batch != {}
    ensures LowestLevels(batches + [batch], g)
  {
  }

  lemma {:induction false} LastRound(m: map<string, set<string>>, batches: seq<set<string>>, g: Table)
    requires Leveled(g) && Layered(m, g, |batches|) && LowestLevels(batches, g) && m.Keys == {}
    ensures BatchesOf(batches, g)
  {
    forall k | k in g.children
      ensures g.level[k] < |batches|
    {
      assert k !in AtLeast(g, g.children.Keys, |batches|);
    }
  }

  /** One round of the batching loop. */
  method TakeBatch(m: map<string, set<string>>, ghost batches: seq<set<string>>, ghost g: Table)
    returns (currentBatch: set<string>, m': map<string, set<string>>)
    requires Leveled(g) && Layered(m, g, |batches|) && LowestLevels(batches, g) && m.Keys != {}
    ensures Layered(m', g, |batches| + 1) && LowestLevels(batches + [currentBatch], g) && m'.Keys < m.Keys
  {
    currentBatch := set k | k in m && m[k] == {};
    m' := RemoveBatch(m, currentBatch);
    RoundAddsLevel(m, m', batches, currentBatch, g);
  }

  /** The second loop of `create_dependency_batches`. Every round takes something out of the dict. */
  method LayerDependencies(m: map<string, set<string>>, ghost g: Table) returns (batches: seq<set<string>>)
    requires Leveled(g) && m == g.children
    ensures BatchesOf(batches, g)
  {
    var dependenciesTo := m;
    batches := [];
    FirstRound(g);
    while dependenciesTo.Keys != {}
      invariant Layered(dependenciesTo, g, |batches|) && LowestLevels(batches, g)
      decreases dependenciesTo.Keys
    {
      var currentBatch;
      currentBatch, dependenciesTo := TakeBatch(dependenciesTo, batches, g);
      batches := batches + [currentBatch];
    }
    LastRound(dependenciesTo, batches, g);
  }

  lemma {:induction false} FirstRound(g: Table)
    requires Leveled(g)
    ensures Layered(g.children, g, 0)
  {
    forall k | k in g.children
      ensures g.children[k] == AtLeast(g, g.children[k], 0)
    {
    }
  }

  /** `create_dependency_batches`: the levels of everything the expected dependencies reach. */
  method CreateDependencyBatches(expected: set<Container>) returns (batches: seq<set<string>>)
    requires Consistent(Universe(expected))
    ensures Leveled(TableOf(Universe(expected))) && BatchesOf(batches, TableOf(Universe(expected)))
  {
    ghost var g := TableOf(Universe(expected));
    ExpectedAreListed(expected);
    var dependenciesTo := FlattenDependencies(expected, g);
    FlattenedIsTable(dependenciesTo, expected);
    batches := LayerDependencies(dependenciesTo, g);
  }

  lemma {:induction false} ExpectedAreListed(expected: set<Container>)
    requires Consistent(Universe(expected))
    ensures Leveled(TableOf(Universe(expected)))
    ensures forall c | c in expected :: Listed(c, TableOf(Universe(expected)))
  {
    var u := Universe(expected);
    UniverseClosed(expected);
    TableIsLeveled(u);
    forall c | c in expected
      ensures Listed(c, TableOf(u))
    {
      NodesAreListed(c, u);
    }
  }

  lemma {:induction false} FlattenedIsTable(m: map<string, set<string>>, expected: set<Container>)
    requires Accurate(m, TableOf(Universe(expected))) && Keys(Universe(expected)) <= m.Keys
    ensures m == TableOf(Universe(expected)).children
  {
    assert m.Keys == TableOf(Universe(expected)).children.Keys;
  }

  // ----- what the batches are good for -----

  /** Every key is in exactly one batch, and its dependencies are in earlier ones. */
  lemma {:induction false} BatchesPartition(batches: seq<set<string>>, g: Table, k: string)
    requires Leveled(g) && BatchesOf(batches, g)
    ensures k in g.children <==> exists i :: 0 <= i < |batches| && k in batches[i]
    ensures forall i, j | 0 <= i < |batches| && 0 <= j < |batches| && k in batches[i] && k in batches[j] :: i == j
    ensures forall i, d | 0 <= i < |batches| && k in batches[i] && d in g.children[k] ::
              exists j :: 0 <= j < i && d in batches[j]
  {
    if k in g.children {
      assert k in batches[g.level[k]];
      forall d | d in g.children[k]
        ensures 0 <= g.level[d] < g.level[k] && d in batches[g.level[d]]
      {
      }
    }
  }

  /** A way to schedule the keys so that every key comes after its dependencies. */
  ghost predicate Schedule(slots: seq<set<string>>, g: Table) {
    && (forall k | k in g.children :: exists i :: 0 <= i < |slots| && k in slots[i])
    && (forall i, k, d | 0 <= i < |slots| && k in slots[i] && k in g.children && d in g.children[k] ::
          exists j :: 0 <= j < i && d in slots[j])
  }

  lemma {:induction false} NoEarlierSlot(slots: seq<set<string>>, g: Table, i: nat, k: string)
    requires Leveled(g) && Schedule(slots, g)
    requires i < |slots| && k in slots[i] && k in g.children
    ensures g.level[k] <= i
    decreases i
  {
    if g.level[k] > 0 {
      assert HasDeepest(g, k);
      var d :| d in g.children[k] && g.level[k] == g.level[d] + 1;
      var j :| 0 <= j < i && d in slots[j];
      NoEarlierSlot(slots, g, j, d);
    }
  }

  /** No schedule gets by with fewer slots than there are batches. */
  lemma {:induction false} BatchesAreFewest(batches: seq<set<string>>, slots: seq<set<string>>, g: Table)
    requires Leveled(g) && BatchesOf(batches, g) && Schedule(slots, g)
    ensures |batches| <= |slots|
  {
    if |batches| > 0 {
      var k :| k in batches[|batches| - 1];
      var i :| 0 <= i < |slots| && k in slots[i];
      NoEarlierSlot(slots, g, i, k);
    }
  }

  // ----- the graph -----

  /** The names a provider asks for that are dependencies themselves; a rank shows that they are not circular. */
  ghost predicate Ranked(providers: map<string, seq<string>>, rank: map<string, nat>) {
    forall k, f | k in providers && f in providers[k] && f in providers ::
      k in rank && f in rank && rank[f] < rank[k]
  }

  /** Those of a provider's fields that are dependencies themselves, in the order of the signature. */
  function SubKeys(fields: seq<string>, providers: map<string, seq<string>>): (r: seq<string>)
    ensures forall k :: k in r <==> k in fields && k in providers
  {
    if fields == [] then []
    else (if fields[0] in providers then [fields[0]] else []) + SubKeys(fields[1..], providers)
  }

  function RankOf(rank: map<string, nat>, k: string): nat {
    if k in rank then rank[k] else 0
  }

  /** `_create_dependency_graph` */
  function CreateDependencyGraph(key: string, providers: map<string, seq<string>>, ghost rank: map<string, nat>)
    : (c: Container)
    requires key in providers && Ranked(providers, rank)
    ensures c.key == key && ChildKeys(c) == set f | f in providers[key] && f in providers
    decreases RankOf(rank, key), 1
  {
    Container(key, CreateGraphs(key, SubKeys(providers[key], providers), providers, rank))
  }

  function CreateGraphs(
    parent: string, keys: seq<string>, providers: map<string, seq<string>>, ghost rank: map<string, nat>)
    : (cs: seq<Container>)
    requires parent in providers && Ranked(providers, rank)
    requires forall k | k in keys :: k in providers && k in providers[parent]
    ensures |cs| == |keys| && forall i | 0 <= i < |keys| :: cs[i] == CreateDependencyGraph(keys[i], providers, rank)
    decreases RankOf(rank, parent), 0, |keys|
  {
    if keys == [] then []
    else [CreateDependencyGraph(keys[0], providers, rank)] + CreateGraphs(parent, keys[1..], providers, rank)
  }

  lemma {:induction false} GraphNodes(key: string, providers: map<string, seq<string>>, rank: map<string, nat>)
    requires key in providers && Ranked(providers, rank)
    ensures forall n | n in Nodes(CreateDependencyGraph(key, providers, rank)) ::
              n.key in providers && n == CreateDependencyGraph(n.key, providers, rank)
    decreases RankOf(rank, key)
  {
    var c := CreateDependencyGraph(key, providers, rank);
    var keys := SubKeys(providers[key], providers);
    forall i | 0 <= i < |keys|
      ensures forall n | n in Nodes(c.dependencies[i]) ::
                n.key in providers && n == CreateDependencyGraph(n.key, providers, rank)
    {
      GraphNodes(keys[i], providers, rank);
    }
  }

  /** The graphs made from one dict of providers are consistent, so that they can be scheduled. */
  lemma {:induction false} GraphsAreConsistent(
    expected: set<Container>, providers: map<string, seq<string>>, rank: map<string, nat>)
    requires Ranked(providers, rank)
    requires forall c | c in expected :: c.key in providers && c == CreateDependencyGraph(c.key, providers, rank)
    ensures Consistent(Universe(expected))
    ensures forall n | n in Universe(expected) :: n.key in providers && n == CreateDependencyGraph(n.key, providers, rank)
  {
    forall c | c in expected
      ensures forall n | n in Nodes(c) :: n.key in providers && n == CreateDependencyGraph(n.key, providers, rank)
    {
      GraphNodes(c.key, providers, rank);
    }
  }
}
