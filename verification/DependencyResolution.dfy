/**
 Running the batches of a dependency graph: `resolve_dependency` and
 `resolve_dependencies` (litestar/_kwargs), with the tasks of a batch interleaved
 in any way, and the clean-up of generator dependencies afterwards.
 */
module DependencyResolution {
  import opened Outcomes
  import opened DependencyGraph
  import opened DependencyCleanup

  /** A value that is passed around, by its identity. */
  type Value = int
  type Kwargs = map<string, Value>

  /** A provider is a function of the arguments its signature names, be it what it returns or first yields. */
  datatype Provider = Provider(fields: seq<string>, isGenerator: bool, call: Kwargs -> Value)

  type Providers = map<string, Provider>

  /** What `parse_values_from_connection_kwargs` picks out. */
  function Restrict(kwargs: Kwargs, fields: seq<string>): Kwargs {
    map f | f in fields && f in kwargs :: kwargs[f]
  }

  // ----- the reference: evaluating the graph recursively -----

  function CallOf(providers: Providers, k: string, args: Kwargs): Value {
    if k in providers then providers[k].call(Restrict(args, providers[k].fields)) else 0
  }

  function Evaluate(c: Container, providers: Providers, kwargs: Kwargs): Value
    decreases c, 1
  {
    CallOf(providers, c.key, kwargs + EvaluateAll(c.dependencies, providers, kwargs))
  }

  function EvaluateAll(cs: seq<Container>, providers: Providers, kwargs: Kwargs): Kwargs
    decreases cs, 0
  {
    if cs == [] then map[]
    else EvaluateAll(cs[1..], providers, kwargs)[cs[0].key := Evaluate(cs[0], providers, kwargs)]
  }

  /** The graph is one of the providers: what a provider asks for and is provided lies below it. */
  ghost predicate GraphOf(g: Table, providers: Providers) {
    && g.children.Keys <= providers.Keys
    && forall k | k in g.children :: g.children[k] == set f | f in providers[k].fields && f in providers
  }

  function Only(vals: Kwargs, ks: set<string>): Kwargs {
    map k | k in vals && k in ks :: vals[k]
  }

  /** Every key has the value its provider makes of the request's arguments and the values of its children. */
  ghost predicate Solves(vals: Kwargs, g: Table, providers: Providers, kwargs: Kwargs) {
    && vals.Keys == g.children.Keys
    && forall k | k in g.children :: vals[k] == CallOf(providers, k, kwargs + Only(vals, g.children[k]))
  }

  lemma {:induction false} EvaluateAllKeys(cs: seq<Container>, providers: Providers, kwargs: Kwargs, vals: Kwargs)
    requires forall c | c in cs :: c.key in vals && vals[c.key] == Evaluate(c, providers, kwargs)
    ensures forall c | c in cs :: c.key in EvaluateAll(cs, providers, kwargs)
    ensures forall k | k in EvaluateAll(cs, providers, kwargs) ::
              k in vals && EvaluateAll(cs, providers, kwargs)[k] == vals[k] && exists c :: c in cs && c.key == k
    decreases cs
  {
    if cs != [] {
      assert forall c | c in cs[1..] :: c in cs;
      EvaluateAllKeys(cs[1..], providers, kwargs, vals);
      assert cs[0] in cs;
    }
  }

  lemma {:induction false} EvaluateAllGives(cs: seq<Container>, providers: Providers, kwargs: Kwargs, vals: Kwargs)
    requires forall c | c in cs :: c.key in vals && vals[c.key] == Evaluate(c, providers, kwargs)
    ensures EvaluateAll(cs, providers, kwargs) == Only(vals, set c | c in cs :: c.key)
  {
    EvaluateAllKeys(cs, providers, kwargs, vals);
  }

  /** The one solution is the recursive evaluation. */
  lemma {:induction false} SolutionIsEvaluation(
    c: Container, g: Table, providers: Providers, kwargs: Kwargs, vals: Kwargs)
    requires Solves(vals, g, providers, kwargs) && Listed(c, g)
    ensures c.key in vals && vals[c.key] == Evaluate(c, providers, kwargs)
    decreases c
  {
    forall d | d in c.dependencies
      ensures d.key in vals && vals[d.key] == Evaluate(d, providers, kwargs)
    {
      SolutionIsEvaluation(d, g, providers, kwargs, vals);
    }
    EvaluateAllGives(c.dependencies, providers, kwargs, vals);
    assert (set d | d in c.dependencies :: d.key) == g.children[c.key];
  }

  /** There is a solution: the evaluation of the containers. */
  ghost function Solution(u: set<Container>, providers: Providers, kwargs: Kwargs): Kwargs {
    map k | k in Keys(u) :: Evaluate(At(u, k), providers, kwargs)
  }

  lemma {:induction false} SolutionSolves(u: set<Container>, providers: Providers, kwargs: Kwargs)
    requires Consistent(u) && ClosedBelow(u)
    ensures Solves(Solution(u, providers, kwargs), TableOf(u), providers, kwargs)
  {
    var vals := Solution(u, providers, kwargs);
    forall k | k in Keys(u)
      ensures vals[k] == CallOf(providers, k, kwargs + Only(vals, TableOf(u).children[k]))
    {
      var c := At(u, k);
      forall d | d in c.dependencies
        ensures d.key in vals && vals[d.key] == Evaluate(d, providers, kwargs)
      {
        assert d in u && d.key in Keys(u);
        KeyDeterminesTree(At(u, d.key), d, u);
      }
      EvaluateAllGives(c.dependencies, providers, kwargs, vals);
    }
  }

  // ----- one batch, interleaved -----

  /** A task is started when it calls its provider and finished when it stores what came of it. */
  datatype Event = Start(key: string) | Finish(key: string)

  /** Arguments so far, results not yet stored, and the calls made with what they were given. */
  datatype State = State(kwargs: Kwargs, pending: Kwargs, calls: seq<(string, Kwargs)>)

  function Step(providers: Providers, s: State, e: Event): State {
    match e
    case Start(k) =>
      if k !in providers then s
      else
        var args := Restrict(s.kwargs, providers[k].fields);
        State(s.kwargs, s.pending[k := providers[k].call(args)], s.calls + [(k, args)])
    case Finish(k) =>
      if k !in s.pending then s
      else State(s.kwargs[k := s.pending[k]], s.pending - {k}, s.calls)
  }

  function RunEvents(providers: Providers, s: State, events: seq<Event>): State
    decreases |events|
  {
    if |events| == 0 then s else RunEvents(providers, Step(providers, s, events[0]), events[1..])
  }

  /** An interleaving of the tasks of a batch: each is started once, and finished once after that. */
  predicate Interleaving(events: seq<Event>, todo: set<string>, running: set<string>) {
    if events == [] then todo == {} && running == {}
    else match events[0]
      case Start(k) => k in todo && Interleaving(events[1..], todo - {k}, running + {k})
      case Finish(k) => k in running && Interleaving(events[1..], todo, running - {k})
  }

  /** Every batch has interleavings: all tasks may be started ahead of the first that is finished. */
  lemma {:induction false} SomeInterleaving(todo: set<string>, running: set<string>) returns (events: seq<Event>)
    requires todo !! running
    ensures Interleaving(events, todo, running)
    decreases todo, running
  {
    if k :| k in todo {
      events := SomeInterleaving(todo - {k}, running + {k});
      events := [Start(k)] + events;
    } else if k :| k in running {
      assert todo == {};
      events := SomeInterleaving({}, running - {k});
      events := [Finish(k)] + events;
    } else {
      events := [];
    }
  }

  /** The calls are for these keys, one for each. */
  ghost predicate OneEach(calls: seq<(string, Kwargs)>, keys: set<string>) {
    && (forall c | c in calls :: c.0 in keys)
    && (forall k | k in keys :: exists i :: 0 <= i < |calls| && calls[i].0 == k)
    && (forall i, j | 0 <= i < j < |calls| :: calls[i].0 != calls[j].0)
  }

  lemma {:induction false} OneEachConcat(
    a: seq<(string, Kwargs)>, b: seq<(string, Kwargs)>, keys: set<string>, keys': set<string>)
    requires OneEach(a, keys) && OneEach(b, keys') && keys !! keys'
    ensures OneEach(a + b, keys + keys')
  {
    forall k | k in keys + keys'
      ensures exists i :: 0 <= i < |a + b| && (a + b)[i].0 == k
    {
      if k in keys {
        var i :| 0 <= i < |a| && a[i].0 == k;
        assert (a + b)[i].0 == k;
      } else {
        var i :| 0 <= i < |b| && b[i].0 == k;
        assert (a + b)[|a| + i].0 == k;
      }
    }
    forall i, j | 0 <= i < j < |a + b|
      ensures (a + b)[i].0 != (a + b)[j].0
    {
      assert i < |a| ==> a[i] in a;
      assert |a| <= j ==> b[j - |a|] in b;
    }
  }

  /** None of the providers of the batch asks for what the batch provides. */
  ghost predicate Independent(batch: set<string>, providers: Providers) {
    batch <= providers.Keys && forall k, f | k in batch && f in providers[k].fields :: f !in batch
  }

  function ProvidedAll(providers: Providers, batch: set<string>, kwargs: Kwargs): Kwargs {
    map k | k in batch :: CallOf(providers, k, kwargs)
  }

  /** Part-way through a batch that began with `base`: what is stored and what is pending is as from `base`. */
  ghost predicate PartWay(
    s: State, providers: Providers, batch: set<string>, base: Kwargs, todo: set<string>, running: set<string>)
  {
    && todo <= batch && running <= batch && todo !! running
    && s.kwargs == base + ProvidedAll(providers, batch - todo - running, base)
    && s.pending == ProvidedAll(providers, running, base)
  }

  /** Every call got the arguments that it would have got at the beginning of the batch. */
  ghost predicate CallsFrom(calls: seq<(string, Kwargs)>, providers: Providers, base: Kwargs) {
    forall c | c in calls :: c.0 in providers && c.1 == Restrict(base, providers[c.0].fields)
  }

  lemma {:induction false} StartKeepsPartWay(
    s: State, providers: Providers, batch: set<string>, base: Kwargs, todo: set<string>, running: set<string>,
    k: string)
    requires Independent(batch, providers) && PartWay(s, providers, batch, base, todo, running) && k in todo
    ensures PartWay(Step(providers, s, Start(k)), providers, batch, base, todo - {k}, running + {k})
    ensures Step(providers, s, Start(k)).calls == s.calls + [(k, Restrict(base, providers[k].fields))]
  {
    assert Restrict(s.kwargs, providers[k].fields) == Restrict(base, providers[k].fields);
    assert batch - (todo - {k}) - (running + {k}) == batch - todo - running;
    assert s.pending[k := CallOf(providers, k, base)] == ProvidedAll(providers, running + {k}, base);
  }

  lemma {:induction false} FinishKeepsPartWay(
    s: State, providers: Providers, batch: set<string>, base: Kwargs, todo: set<string>, running: set<string>,
    k: string)
    requires PartWay(s, providers, batch, base, todo, running) && k in running
    ensures PartWay(Step(providers, s, Finish(k)), providers, batch, base, todo, running - {k})
    ensures Step(providers, s, Finish(k)).calls == s.calls
  {
    ProvidedMore(providers, batch - todo - running, k, base);
    assert batch - todo - (running - {k}) == (batch - todo - running) + {k};
    assert s.pending - {k} == ProvidedAll(providers, running - {k}, base);
  }

  lemma {:induction false} ProvidedMore(providers: Providers, done: set<string>, k: string, base: Kwargs)
    ensures (base + ProvidedAll(providers, done, base))[k := CallOf(providers, k, base)]
         == base + ProvidedAll(providers, done + {k}, base)
  {
  }

  /** However a batch is interleaved, it calls each provider once and leaves the same arguments. */
  lemma {:induction false} AnyInterleaving(
    s: State, providers: Providers, batch: set<string>, base: Kwargs, todo: set<string>, running: set<string>,
    events: seq<Event>)
    requires Independent(batch, providers) && PartWay(s, providers, batch, base, todo, running)
    requires Interleaving(events, todo, running)
    ensures PartWay(RunEvents(providers, s, events), providers, batch, base, {}, {})
    decreases events
  {
    if events != [] {
      match events[0] {
        case Start(k) =>
          StartKeepsPartWay(s, providers, batch, base, todo, running, k);
          AnyInterleaving(Step(providers, s, events[0]), providers, batch, base, todo - {k}, running + {k}, events[1..]);
        case Finish(k) =>
          FinishKeepsPartWay(s, providers, batch, base, todo, running, k);
          AnyInterleaving(Step(providers, s, events[0]), providers, batch, base, todo, running - {k}, events[1..]);
      }
    }
  }

  /** The calls that an interleaving makes: one for each provider, with the arguments the batch began with. */
  ghost predicate CallsEachOnce(
    before: State, after: State, providers: Providers, batch: set<string>, base: Kwargs)
  {
    && before.calls <= after.calls
    && OneEach(after.calls[|before.calls|..], batch)
    && CallsFrom(after.calls[|before.calls|..], providers, base)
  }

  lemma {:induction false} AnyInterleavingCalls(
    s: State, providers: Providers, batch: set<string>, base: Kwargs, todo: set<string>, running: set<string>,
    events: seq<Event>)
    requires Independent(batch, providers) && PartWay(s, providers, batch, base, todo, running)
    requires Interleaving(events, todo, running)
    ensures CallsEachOnce(s, RunEvents(providers, s, events), providers, todo, base)
    decreases events
  {
    if events != [] {
      var s' := Step(providers, s, events[0]);
      match events[0] {
        case Start(k) =>
          StartKeepsPartWay(s, providers, batch, base, todo, running, k);
          AnyInterleavingCalls(s', providers, batch, base, todo - {k}, running + {k}, events[1..]);
          CallsAfterOne(s, s', RunEvents(providers, s', events[1..]), providers, todo, base, k);
        case Finish(k) =>
          FinishKeepsPartWay(s, providers, batch, base, todo, running, k);
          AnyInterleavingCalls(s', providers, batch, base, todo, running - {k}, events[1..]);
      }
    }
  }

  lemma {:induction false} CallsAfterOne(
    s: State, s': State, r: State, providers: Providers, todo: set<string>, base: Kwargs, k: string)
    requires k in todo && k in providers && s'.calls == s.calls + [(k, Restrict(base, providers[k].fields))]
    requires CallsEachOnce(s', r, providers, todo - {k}, base)
    ensures CallsEachOnce(s, r, providers, todo, base)
  {
    var first, rest := s'.calls[|s.calls|], r.calls[|s'.calls|..];
    assert r.calls[|s.calls|..] == [first] + rest;
    assert OneEach([first], {k}) by {
      assert [first][0].0 == k;
    }
    OneEachConcat([first], rest, {k}, todo - {k});
    assert {k} + (todo - {k}) == todo;
  }

  // ----- all batches -----

  function RunBatches(providers: Providers, s: State, runs: seq<seq<Event>>): State
    decreases |runs|
  {
    if runs == [] then s
    else RunBatches(providers, RunEvents(providers, s, runs[0]), runs[1..])
  }

  /** A dependency graph with its providers, the arguments of a request, and the values they amount to. */
  datatype Setting = Setting(g: Table, providers: Providers, kwargs: Kwargs, vals: Kwargs)
  {
    ghost predicate Valid() {
      Leveled(g) && GraphOf(g, providers) && Solves(vals, g, providers, kwargs)
    }

    /** The levels below `n`. */
    ghost function Below(n: nat): set<string> {
      set k | k in g.level && g.level[k] < n
    }

    /** The arguments once the levels below `n` have been run. */
    ghost function KwargsBelow(n: nat): Kwargs {
      kwargs + Only(vals, Below(n))
    }

    /** The arguments of a call to one provider. */
    ghost function Arguments(k: string): Kwargs {
      if k in g.children && k in providers then Restrict(kwargs + Only(vals, g.children[k]), providers[k].fields)
      else map[]
    }
  }

  type ValidSetting = x: Setting | x.Valid()
    ghost witness Setting(Table(map[], map[]), map[], map[], map[])

  lemma {:induction false} LevelsAreIndependent(x: ValidSetting, n: nat)
    ensures Independent(LevelSet(x.g, n), x.providers)
  {
    forall k, f | k in LevelSet(x.g, n) && f in x.providers[k].fields
      ensures f !in LevelSet(x.g, n)
    {
      if f in x.g.children {
        assert f in x.g.children[k];
      }
    }
  }

  /** A provider cannot tell the values of all lower levels from those of its own children. */
  lemma {:induction false} LevelArguments(x: ValidSetting, n: nat, k: string)
    requires k in LevelSet(x.g, n)
    ensures k in x.providers && Restrict(x.KwargsBelow(n), x.providers[k].fields) == x.Arguments(k)
    ensures k in x.vals && CallOf(x.providers, k, x.KwargsBelow(n)) == x.vals[k]
  {
    var fields := x.providers[k].fields;
    forall f | f in fields && f in x.vals && f in x.Below(n)
      ensures f in x.g.children[k]
    {
    }
    SameArguments(x.vals, x.kwargs, fields, x.g.children[k], x.Below(n));
  }

  lemma {:induction false} SameArguments(
    vals: Kwargs, kwargs: Kwargs, fields: seq<string>, children: set<string>, below: set<string>)
    requires children <= below && forall f | f in fields && f in vals && f in below :: f in children
    ensures Restrict(kwargs + Only(vals, below), fields) == Restrict(kwargs + Only(vals, children), fields)
  {
  }

  /** With the lower levels in place, a level adds its values. */
  lemma {:induction false} LevelIsSolved(x: ValidSetting, n: nat)
    ensures x.KwargsBelow(n) + ProvidedAll(x.providers, LevelSet(x.g, n), x.KwargsBelow(n)) == x.KwargsBelow(n + 1)
  {
    var provided := ProvidedAll(x.providers, LevelSet(x.g, n), x.KwargsBelow(n));
    forall k | k in LevelSet(x.g, n)
      ensures k in x.vals && provided[k] == x.vals[k]
    {
      LevelArguments(x, n, k);
    }
    AddLevel(x, n, provided);
  }

  lemma {:induction false} AddLevel(x: Setting, n: nat, provided: Kwargs)
    requires provided.Keys == LevelSet(x.g, n) && forall k | k in provided :: k in x.vals && provided[k] == x.vals[k]
    ensures x.KwargsBelow(n) + provided == x.KwargsBelow(n + 1)
  {
  }

  /** The levels from `n` on. */
  ghost function From(x: Setting, n: nat): set<string> {
    x.g.level.Keys - x.Below(n)
  }

  lemma {:induction false} SplitLevels(x: Setting, n: nat)
    ensures From(x, n) == LevelSet(x.g, n) + From(x, n + 1) && LevelSet(x.g, n) !! From(x, n + 1)
  {
  }

  lemma {:induction false} NoLevelsLeft(x: Setting, batches: seq<set<string>>)
    requires BatchesOf(batches, x.g)
    ensures From(x, |batches|) == {}
  {
  }

  lemma {:induction false} NothingYet(x: Setting)
    ensures x.KwargsBelow(0) == x.kwargs && From(x, 0) == x.g.level.Keys
  {
    assert x.Below(0) == {};
  }

  lemma {:induction false} Everything(x: Setting, n: nat)
    requires From(x, n) == {} && x.vals.Keys == x.g.level.Keys
    ensures x.KwargsBelow(n) == x.kwargs + x.vals
  {
    assert forall k | k in x.vals :: k in x.Below(n) by {
      assert forall k | k in x.vals :: k !in From(x, n);
    }
    assert Only(x.vals, x.Below(n)) == x.vals;
  }

  /** What running a part of the graph did: its providers were called, once each, with what they depend on. */
  ghost predicate Ran(x: Setting, s: State, r: State, keys: set<string>) {
    && s.calls <= r.calls
    && OneEach(r.calls[|s.calls|..], keys)
    && forall c | c in r.calls[|s.calls|..] :: c.1 == x.Arguments(c.0)
  }

  lemma {:induction false} LevelBegins(s: State, providers: Providers, batch: set<string>)
    requires s.pending == map[]
    ensures PartWay(s, providers, batch, s.kwargs, batch, {})
  {
    assert batch - batch - {} == {};
    assert s.kwargs + ProvidedAll(providers, {}, s.kwargs) == s.kwargs;
  }

  lemma {:induction false} LevelEnds(r: State, providers: Providers, batch: set<string>, base: Kwargs)
    requires PartWay(r, providers, batch, base, {}, {})
    ensures r.kwargs == base + ProvidedAll(providers, batch, base) && r.pending == map[]
  {
    assert batch - {} - {} == batch;
  }

  lemma {:induction false} LevelRun(x: ValidSetting, n: nat, s: State, events: seq<Event>)
    requires Interleaving(events, LevelSet(x.g, n), {})
    requires s.kwargs == x.KwargsBelow(n) && s.pending == map[]
    ensures var r := RunEvents(x.providers, s, events);
            r.kwargs == x.KwargsBelow(n + 1) && r.pending == map[] && Ran(x, s, r, LevelSet(x.g, n))
  {
    var batch := LevelSet(x.g, n);
    var r := RunEvents(x.providers, s, events);
    LevelsAreIndependent(x, n);
    LevelBegins(s, x.providers, batch);
    AnyInterleaving(s, x.providers, batch, s.kwargs, batch, {}, events);
    AnyInterleavingCalls(s, x.providers, batch, s.kwargs, batch, {}, events);
    LevelEnds(r, x.providers, batch, s.kwargs);
    LevelIsSolved(x, n);
    forall c | c in r.calls[|s.calls|..]
      ensures c.1 == x.Arguments(c.0)
    {
      LevelArguments(x, n, c.0);
    }
  }

  /** The remaining runs are interleavings of the remaining batches. */
  ghost predicate RunsOf(runs: seq<seq<Event>>, batches: seq<set<string>>, n: nat) {
    n + |runs| == |batches| && forall i | 0 <= i < |runs| :: Interleaving(runs[i], batches[n + i], {})
  }

  lemma {:induction false} RestOfRuns(runs: seq<seq<Event>>, batches: seq<set<string>>, n: nat)
    requires runs != [] && RunsOf(runs, batches, n)
    ensures Interleaving(runs[0], batches[n], {}) && RunsOf(runs[1..], batches, n + 1)
  {
    assert Interleaving(runs[0], batches[n + 0], {});
    forall i | 0 <= i < |runs[1..]|
      ensures Interleaving(runs[1..][i], batches[n + 1 + i], {})
    {
      assert Interleaving(runs[i + 1], batches[n + (i + 1)], {});
    }
  }

  lemma {:induction false} BatchesFrom(
    x: ValidSetting, batches: seq<set<string>>, n: nat, s: State, runs: seq<seq<Event>>)
    requires LowestLevels(batches, x.g) && From(x, |batches|) == {} && RunsOf(runs, batches, n)
    requires s.kwargs == x.KwargsBelow(n) && s.pending == map[]
    ensures RunBatches(x.providers, s, runs).kwargs == x.KwargsBelow(|batches|)
    ensures Ran(x, s, RunBatches(x.providers, s, runs), From(x, n))
    decreases |runs|
  {
    if runs == [] {
      NothingRan(x, s);
    } else {
      RestOfRuns(runs, batches, n);
      LevelRun(x, n, s, runs[0]);
      var s' := RunEvents(x.providers, s, runs[0]);
      BatchesFrom(x, batches, n + 1, s', runs[1..]);
      SplitLevels(x, n);
      JoinRuns(x, s, s', RunBatches(x.providers, s', runs[1..]), LevelSet(x.g, n), From(x, n + 1));
    }
  }

  lemma {:induction false} NothingRan(x: Setting, s: State)
    ensures Ran(x, s, s, {})
  {
    assert s.calls[|s.calls|..] == [];
  }

  lemma {:induction false} JoinRuns(x: Setting, s: State, s': State, r: State, keys: set<string>, keys': set<string>)
    requires Ran(x, s, s', keys) && Ran(x, s', r, keys') && keys !! keys'
    ensures Ran(x, s, r, keys + keys')
  {
    var calls, calls' := s'.calls[|s.calls|..], r.calls[|s'.calls|..];
    assert r.calls[|s.calls|..] == calls + calls';
    OneEachConcat(calls, calls', keys, keys');
  }

  /**
   Whatever the interleavings, running the batches adds to the arguments just the
   values of the solution. Each provider is called exactly once, with all the values
   it depends on.
   */
  lemma {:induction false} BatchesResolve(x: ValidSetting, batches: seq<set<string>>, runs: seq<seq<Event>>)
    requires BatchesOf(batches, x.g) && RunsOf(runs, batches, 0)
    ensures RunBatches(x.providers, State(x.kwargs, map[], []), runs).kwargs == x.kwargs + x.vals
    ensures Ran(x, State(x.kwargs, map[], []), RunBatches(x.providers, State(x.kwargs, map[], []), runs), x.vals.Keys)
    ensures var r := RunBatches(x.providers, State(x.kwargs, map[], []), runs);
            forall c | c in r.calls ::
              && c.0 in x.g.children && c.0 in x.providers && c.0 in r.kwargs
              && Given(c.1, x.providers[c.0].fields, x.g.children[c.0], x.kwargs, x.vals)
              && r.kwargs[c.0] == x.providers[c.0].call(c.1)
  {
    NothingYet(x);
    NoLevelsLeft(x, batches);
    BatchesFrom(x, batches, 0, State(x.kwargs, map[], []), runs);
    Everything(x, |batches|);
    var r := RunBatches(x.providers, State(x.kwargs, map[], []), runs);
    assert r.calls[0..] == r.calls;
    forall c | c in r.calls
      ensures c.0 in x.g.children && c.1 == x.Arguments(c.0)
    {
      ArgumentsAreGiven(x, c.0);
    }
    forall k | k in x.g.children {
      ArgumentsAreGiven(x, k);
    }
  }

  /** The setting of a request: the graph of its expected dependencies, with their recursive evaluation. */
  ghost function SettingOf(expected: set<Container>, providers: Providers, kwargs: Kwargs): Setting {
    Setting(TableOf(Universe(expected)), providers, kwargs, Solution(Universe(expected), providers, kwargs))
  }

  lemma {:induction false} SettingIsValid(expected: set<Container>, providers: Providers, kwargs: Kwargs)
    requires Consistent(Universe(expected)) && GraphOf(TableOf(Universe(expected)), providers)
    ensures SettingOf(expected, providers, kwargs).Valid()
  {
    UniverseClosed(expected);
    TableIsLeveled(Universe(expected));
    SolutionSolves(Universe(expected), providers, kwargs);
  }

  /** For a dependency that is expected, the value is that of its own recursive evaluation. */
  lemma {:induction false} ExpectedIsEvaluated(
    expected: set<Container>, providers: Providers, kwargs: Kwargs, c: Container)
    requires Consistent(Universe(expected)) && c in expected
    ensures c.key in SettingOf(expected, providers, kwargs).vals
    ensures SettingOf(expected, providers, kwargs).vals[c.key] == Evaluate(c, providers, kwargs)
  {
    var u := Universe(expected);
    UniverseClosed(expected);
    assert c in u && c.key in Keys(u);
    KeyDeterminesTree(At(u, c.key), c, u);
  }

  function FieldsOf(providers: Providers): map<string, seq<string>> {
    map k | k in providers :: providers[k].fields
  }

  /** The graphs that are made of the providers are graphs of the providers, and can be scheduled. */
  lemma {:induction false} MadeGraphs(expected: set<Container>, providers: Providers, rank: map<string, nat>)
    requires Ranked(FieldsOf(providers), rank)
    requires forall c | c in expected :: c.key in providers && c == CreateDependencyGraph(c.key, FieldsOf(providers), rank)
    ensures Consistent(Universe(expected)) && GraphOf(TableOf(Universe(expected)), providers)
  {
    var u := Universe(expected);
    GraphsAreConsistent(expected, FieldsOf(providers), rank);
    forall k | k in Keys(u)
      ensures k in providers && ChildKeys(At(u, k)) == set f | f in providers[k].fields && f in providers
    {
      MadeGraphChildren(At(u, k), providers, rank);
    }
  }

  lemma {:induction false} MadeGraphChildren(c: Container, providers: Providers, rank: map<string, nat>)
    requires Ranked(FieldsOf(providers), rank) && c.key in providers
    requires c == CreateDependencyGraph(c.key, FieldsOf(providers), rank)
    ensures ChildKeys(c) == set f | f in providers[c.key].fields && f in providers
  {
    assert (set f | f in FieldsOf(providers)[c.key] && f in FieldsOf(providers))
        == set f | f in providers[c.key].fields && f in providers;
  }

  // ----- what a provider is given -----

  /** The fields that are dependencies, with their values, and the others as far as the request has them; nothing else. */
  ghost predicate Given(args: Kwargs, fields: seq<string>, children: set<string>, kwargs: Kwargs, vals: Kwargs) {
    && (forall f :: f in args <==> f in fields && (f in children || f in kwargs))
    && (forall f | f in args && f in children :: f in vals && args[f] == vals[f])
    && (forall f | f in args && f !in children :: f in kwargs && args[f] == kwargs[f])
  }

  lemma {:induction false} ArgumentsAreGiven(x: ValidSetting, k: string)
    requires k in x.g.children
    ensures k in x.providers && k in x.vals
    ensures Given(x.Arguments(k), x.providers[k].fields, x.g.children[k], x.kwargs, x.vals)
    ensures x.vals[k] == x.providers[k].call(x.Arguments(k))
  {
    assert forall f | f in x.g.children[k] :: f in x.vals;
  }

  // ----- the generators to be cleaned up -----

  /** A list of the generators among the providers of these keys, each once. */
  ghost predicate GeneratorsOf(generators: seq<GeneratorId>, providers: Providers, keys: set<string>) {
    && (forall i, j | 0 <= i < j < |generators| :: generators[i] != generators[j])
    && forall k :: k in generators <==> k in keys && k in providers && providers[k].isGenerator
  }

  /** What was on the list before, and then the generators of these keys. */
  ghost predicate Registered(
    before: seq<GeneratorId>, after: seq<GeneratorId>, providers: Providers, keys: set<string>)
  {
    before <= after && GeneratorsOf(after[|before|..], providers, keys)
  }

  lemma {:induction false} RegisterOne(
    before: seq<GeneratorId>, after: seq<GeneratorId>, after': seq<GeneratorId>, providers: Providers,
    keys: set<string>, k: string)
    requires Registered(before, after, providers, keys) && k !in keys && k in providers
    requires after' == after + if providers[k].isGenerator then [k] else []
    ensures Registered(before, after', providers, keys + {k})
  {
    var added, added' := after[|before|..], after'[|before|..];
    assert added' == added + if providers[k].isGenerator then [k] else [];
    assert forall i | 0 <= i < |added| :: added[i] in added;
  }

  lemma {:induction false} RegisterMore(
    a: seq<GeneratorId>, b: seq<GeneratorId>, providers: Providers, keys: set<string>, keys': set<string>)
    requires GeneratorsOf(a, providers, keys) && Registered(a, b, providers, keys') && keys !! keys'
    ensures GeneratorsOf(b, providers, keys + keys')
  {
    var added := b[|a|..];
    assert b == a + added;
    assert forall i | 0 <= i < |a| :: a[i] in a;
    assert forall i | |a| <= i < |b| :: b[i] == added[i - |a|] && b[i] in added;
  }

  /** Cleaning up the generators of a request, if none raises, advances each of them once and no other. */
  lemma {:induction false} EachGeneratorAdvancedOnce(
    generators: seq<GeneratorId>, providers: Providers, keys: set<string>, advance: Advancing, done: seq<Action>,
    r: CloseResult, k: string)
    requires GeneratorsOf(generators, providers, keys) && CleanedUp(generators, advance, done, r)
    requires forall g | g in generators :: advance(g) == None
    ensures r == Closed
    ensures multiset(done)[Advance(k)] == if k in keys && k in providers && providers[k].isGenerator then 1 else 0
  {
    CleanUpFailsIff(generators, advance, done, r);
    AdvancesOnce(generators, k);
  }

  lemma {:induction false} AdvancesOnce(generators: seq<GeneratorId>, k: string)
    requires forall i, j | 0 <= i < j < |generators| :: generators[i] != generators[j]
    ensures multiset(Advances(generators))[Advance(k)] == if k in generators then 1 else 0
  {
    if generators == [] {
      assert Advances(generators) == [];
    } else {
      var rest := generators[1..];
      AdvancesOnce(rest, k);
      assert Advances(generators) == [Advance(generators[0])] + Advances(rest);
      assert k in generators <==> k == generators[0] || k in rest;
      assert forall i | 0 <= i < |rest| :: rest[i] == generators[i + 1];
    }
  }

  // ----- resolving as it is done -----

  /** The task group of one batch, or its only task. Which task goes on next is left open. */
  method RunBatch(
    batch: set<string>, providers: Providers, s: State, ghost base: Kwargs, cleanupGroup: DependencyCleanupGroup)
    returns (r: State)
    requires Independent(batch, providers) && s.kwargs == base && s.pending == map[] && !cleanupGroup.closed
    modifies cleanupGroup`generators
    ensures r.kwargs == base + ProvidedAll(providers, batch, base) && r.pending == map[]
    ensures Registered(old(cleanupGroup.generators), cleanupGroup.generators, providers, batch)
  {
    r := s;
    var todo, running := batch, {};
    LevelBegins(s, providers, batch);
    assert batch - todo == {};
    while todo != {} || running != {}
      invariant PartWay(r, providers, batch, base, todo, running)
      invariant Registered(old(cleanupGroup.generators), cleanupGroup.generators, providers, batch - todo)
      decreases todo, running
    {
      if
      case todo != {} =>
        var k :| k in todo;
        StartKeepsPartWay(r, providers, batch, base, todo, running, k);
        r := StartTask(k, providers, r, cleanupGroup, old(cleanupGroup.generators), batch - todo);
        assert batch - (todo - {k}) == batch - todo + {k};
        todo, running := todo - {k}, running + {k};
      case running != {} =>
        var k :| k in running;
        FinishKeepsPartWay(r, providers, batch, base, todo, running, k);
        r := Step(providers, r, Finish(k));
        running := running - {k};
    }
    LevelEnds(r, providers, batch, base);
    assert batch - todo == batch;
  }

  /** `resolve_dependency` up to its result: a generator is registered before it is first advanced. */
  method StartTask(
    k: string, providers: Providers, s: State, cleanupGroup: DependencyCleanupGroup,
    ghost before: seq<GeneratorId>, ghost started: set<string>)
    returns (r: State)
    requires k in providers && k !in started && !cleanupGroup.closed
    requires Registered(before, cleanupGroup.generators, providers, started)
    modifies cleanupGroup`generators
    ensures r == Step(providers, s, Start(k))
    ensures exists args ::
              && Given(args, providers[k].fields, {}, s.kwargs, map[])
              && r.calls == s.calls + [(k, args)] && r.pending == s.pending[k := providers[k].call(args)]
    ensures Registered(before, cleanupGroup.generators, providers, started + {k})
  {
    r := Step(providers, s, Start(k));
    assert Given(Restrict(s.kwargs, providers[k].fields), providers[k].fields, {}, s.kwargs, map[]);
    if providers[k].isGenerator {
      var ok := cleanupGroup.Add(k);
    }
    RegisterOne(before, old(cleanupGroup.generators), cleanupGroup.generators, providers, started, k);
  }

  method RunLevel(
    batch: set<string>, providers: Providers, s: State, ghost x: ValidSetting, ghost n: nat,
    cleanupGroup: DependencyCleanupGroup)
    returns (r: State)
    requires batch == LevelSet(x.g, n) && providers == x.providers && !cleanupGroup.closed
    requires s.kwargs == x.KwargsBelow(n) && s.pending == map[]
    requires GeneratorsOf(cleanupGroup.generators, providers, x.Below(n))
    modifies cleanupGroup`generators
    ensures r.kwargs == x.KwargsBelow(n + 1) && r.pending == map[]
    ensures GeneratorsOf(cleanupGroup.generators, providers, x.Below(n + 1))
  {
    LevelsAreIndependent(x, n);
    r := RunBatch(batch, providers, s, s.kwargs, cleanupGroup);
    LevelIsSolved(x, n);
    assert x.Below(n + 1) == x.Below(n) + batch;
    RegisterMore(old(cleanupGroup.generators), cleanupGroup.generators, providers, x.Below(n), batch);
  }

  /**
   `resolve_dependencies`: batch by batch, into the arguments of the request. What is
   returned is a group of all generators among the dependencies.
   */
  method ResolveDependencies(batches: seq<set<string>>, ghost x: ValidSetting, providers: Providers, kwargs: Kwargs)
    returns (resolved: Kwargs, cleanupGroup: DependencyCleanupGroup)
    requires BatchesOf(batches, x.g) && providers == x.providers && kwargs == x.kwargs
    ensures resolved == x.kwargs + x.vals
    ensures forall k | k in x.g.children ::
              && k in providers && k in resolved
              && exists args :: Given(args, providers[k].fields, x.g.children[k], kwargs, resolved)
                                && resolved[k] == providers[k].call(args)
    ensures fresh(cleanupGroup) && !cleanupGroup.closed && cleanupGroup.log == []
    ensures GeneratorsOf(cleanupGroup.generators, providers, x.vals.Keys)
  {
    NothingYet(x);
    NoLevelsLeft(x, batches);
    var s := State(kwargs, map[], []);
    cleanupGroup := new DependencyCleanupGroup([]);
    for n := 0 to |batches|
      invariant s.kwargs == x.KwargsBelow(n) && s.pending == map[]
      invariant fresh(cleanupGroup) && !cleanupGroup.closed && cleanupGroup.log == []
      invariant GeneratorsOf(cleanupGroup.generators, providers, x.Below(n))
    {
      s := RunLevel(batches[n], providers, s, x, n, cleanupGroup);
    }
    Everything(x, |batches|);
    EverythingIsBelow(x, |batches|);
    resolved := s.kwargs;
    forall k | k in x.g.children
      ensures k in providers && k in resolved
      ensures exists args :: Given(args, providers[k].fields, x.g.children[k], kwargs, resolved)
                             && resolved[k] == providers[k].call(args)
    {
      ArgumentsAreGiven(x, k);
      assert Given(x.Arguments(k), providers[k].fields, x.g.children[k], kwargs, resolved);
    }
  }

  lemma {:induction false} EverythingIsBelow(x: Setting, n: nat)
    requires From(x, n) == {} && x.vals.Keys == x.g.level.Keys
    ensures x.Below(n) == x.vals.Keys
  {
    assert forall k | k in x.g.level :: k !in From(x, n);
  }
}
