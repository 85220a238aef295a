/**
 The channels plugin together with the streams of its subscribers. Calls do not
 overlap, but `unsubscribe` may have to wait until there is room for the
 sentinel, and events are delivered and taken meanwhile.
 */
module ChannelStreams {
  import opened Outcomes
  import Channels
  import Subscribers

  type SubscriberId = Channels.SubscriberId
  type Payload = Channels.Payload

  /** An `unsubscribe` under way: whether it ends the stream, and what the backend is to be told afterwards. */
  datatype Leaving = Leaving(id: SubscriberId, endsStream: bool, toUnsubscribe: set<string>)

  datatype System = System(
    plugin: Channels.State,
    queues: map<SubscriberId, Subscribers.State>,
    leaving: Option<Leaving>
  )

  datatype Step =
    | Subscribe(names: seq<string>, id: SubscriberId)
    | BeginUnsubscribe(names: seq<string>, id: SubscriberId)
    | FinishUnsubscribe
    | Deliver(channel: string, payload: Payload)
    | Get(id: SubscriberId)

  /** How `_max_backlog`, `_backlog_strategy` and `_arbitrary_channels_allowed` are set. */
  datatype Settings = Settings(policy: Subscribers.Policy, arbitrary: bool)

  predicate Enabled(p: Settings, s: System, step: Step) {
    match step
    case Subscribe(names, id) =>
      s.leaving.None? && id !in s.queues && (p.arbitrary || forall n | n in names :: n in s.plugin.channels)
    case BeginUnsubscribe(names, id) =>
      s.leaving.None? && id in s.queues && forall n | n in names :: n in s.plugin.channels
    case FinishUnsubscribe =>
      && s.leaving.Some?
      && (s.leaving.value.endsStream ==>
            s.leaving.value.id in s.queues && !p.policy.Full(s.queues[s.leaving.value.id].queue))
    case Deliver(channel, _) => channel in s.plugin.backend
    case Get(id) => id in s.queues && s.queues[id].queue != []
  }

  function Do(p: Settings, s: System, step: Step): System
    requires Enabled(p, s, step)
  {
    match step
    case Subscribe(names, id) =>
      System(Channels.AfterSubscribe(s.plugin, p.arbitrary, names, id), s.queues[id := Subscribers.EMPTY], None)
    case BeginUnsubscribe(names, id) =>
      var r := Channels.UnsubscribeLoop(s.plugin.channels, names, id, {});
      var plugin := Channels.State(r.channels, s.plugin.backend);
      System(plugin, s.queues, Some(Leaving(id, !plugin.HasChannel(id), r.toUnsubscribe)))
    case FinishUnsubscribe =>
      var l := s.leaving.value;
      System(Channels.State(s.plugin.channels, s.plugin.backend - l.toUnsubscribe),
             if l.endsStream then Offer(p, s.queues, {l.id}, Subscribers.Sentinel) else s.queues, None)
    case Deliver(channel, payload) =>
      System(s.plugin, Offer(p, s.queues, s.plugin.SubscribersOf(channel), Subscribers.Event(payload)), s.leaving)
    case Get(id) =>
      System(s.plugin, s.queues[id := Subscribers.Do(p.policy, s.queues[id], Subscribers.Get)], s.leaving)
  }

  /** One item for each of some subscribers; a full queue refuses it. */
  function Offer(
    p: Settings, queues: map<SubscriberId, Subscribers.State>, ids: set<SubscriberId>, item: Subscribers.Item)
    : map<SubscriberId, Subscribers.State>
  {
    map id | id in queues ::
      if id in ids then Subscribers.Do(p.policy, queues[id], Subscribers.PutNowait(item)) else queues[id]
  }

  predicate Possible(p: Settings, s: System, steps: seq<Step>)
    decreases |steps|
  {
    |steps| > 0 ==> Enabled(p, s, steps[0]) && Possible(p, Do(p, s, steps[0]), steps[1..])
  }

  function DoAll(p: Settings, s: System, steps: seq<Step>): System
    requires Possible(p, s, steps)
    decreases |steps|
  {
    if |steps| == 0 then s else DoAll(p, Do(p, s, steps[0]), steps[1..])
  }

  function Started(declared: set<string>): System {
    System(Channels.Started(declared), map[], None)
  }

  // ----- what a subscriber should hear, going by the calls alone -----

  /** The channels a subscriber listens to, and whether it is about to end its stream. */
  datatype Ears = Ears(channels: set<string>, ending: bool)

  function Follow(e: Ears, id: SubscriberId, step: Step): Ears {
    match step
    case Subscribe(names, i) => if i == id then Ears(set n | n in names, false) else e
    case BeginUnsubscribe(names, i) =>
      if i == id then
        var left := e.channels - set n | n in names;
        Ears(left, left == {})
      else e
    case FinishUnsubscribe => Ears(e.channels, false)
    case _ => e
  }

  function Heard(e: Ears, id: SubscriberId, step: Step): seq<Subscribers.Item> {
    match step
    case Deliver(channel, payload) => if channel in e.channels then [Subscribers.Event(payload)] else []
    case FinishUnsubscribe => if e.ending then [Subscribers.Sentinel] else []
    case _ => []
  }

  /** Every event of a channel listened to at that time, and a sentinel whenever no channel is left. */
  function History(e: Ears, id: SubscriberId, steps: seq<Step>): seq<Subscribers.Item>
    decreases |steps|
  {
    if |steps| == 0 then [] else Heard(e, id, steps[0]) + History(Follow(e, id, steps[0]), id, steps[1..])
  }

  const DEAF := Ears({}, false)

  // ----- the invariant -----

  ghost predicate Sound(p: Settings, s: System) {
    && s.plugin.Consistent()
    && (forall id | id in s.queues :: Subscribers.Kept(p.policy, s.queues[id]))
    && (forall c, id | c in s.plugin.channels && id in s.plugin.channels[c] :: id in s.queues)
    && (s.leaving.Some? ==>
          && s.leaving.value.id in s.queues
          && (s.leaving.value.endsStream ==> !s.plugin.HasChannel(s.leaving.value.id))
          && (forall c | c in s.leaving.value.toUnsubscribe :: s.plugin.SubscribersOf(c) == {}))
  }

  /** The subscriber's ears are those that the system has for it. */
  ghost predicate Agrees(s: System, id: SubscriberId, e: Ears) {
    && (forall c :: c in e.channels <==> id in s.plugin.SubscribersOf(c))
    && (e.ending <==> s.leaving.Some? && s.leaving.value.id == id && s.leaving.value.endsStream)
  }

  /** Everything ever offered to the subscriber. */
  function OfferedTo(s: System, id: SubscriberId): seq<Subscribers.Item> {
    if id in s.queues then s.queues[id].offered else []
  }

  lemma {:induction false} OfferKeeps(
    p: Settings, queues: map<SubscriberId, Subscribers.State>, ids: set<SubscriberId>, item: Subscribers.Item)
    requires forall id | id in queues :: Subscribers.Kept(p.policy, queues[id])
    ensures forall id | id in queues :: Subscribers.Kept(p.policy, Offer(p, queues, ids, item)[id])
  {
    forall id | id in queues
      ensures Subscribers.Kept(p.policy, Offer(p, queues, ids, item)[id])
    {
      Subscribers.StepKeeps(p.policy, queues[id], Subscribers.PutNowait(item));
    }
  }

  lemma {:induction false} SubscribeIsSound(p: Settings, s: System, names: seq<string>, id: SubscriberId)
    requires Sound(p, s) && Enabled(p, s, Subscribe(names, id))
    ensures Sound(p, Do(p, s, Subscribe(names, id)))
  {
    Channels.SubscribeKeepsConsistent(s.plugin, p.arbitrary, names, id);
    var r := Do(p, s, Subscribe(names, id));
    forall c, i | c in r.plugin.channels && i in r.plugin.channels[c]
      ensures i in r.queues
    {
      assert i in r.plugin.SubscribersOf(c);
    }
  }

  lemma {:induction false} BeginIsSound(p: Settings, s: System, names: seq<string>, id: SubscriberId)
    requires Sound(p, s) && Enabled(p, s, BeginUnsubscribe(names, id))
    ensures Sound(p, Do(p, s, BeginUnsubscribe(names, id)))
  {
    Channels.UnsubscribeLoopRemoves(s.plugin.channels, names, id, {});
  }

  lemma {:induction false} StepIsSound(p: Settings, s: System, step: Step)
    requires Sound(p, s) && Enabled(p, s, step)
    ensures Sound(p, Do(p, s, step))
  {
    match step
    case Subscribe(names, id) => SubscribeIsSound(p, s, names, id);
    case BeginUnsubscribe(names, id) => BeginIsSound(p, s, names, id);
    case FinishUnsubscribe =>
      OfferKeeps(p, s.queues, {s.leaving.value.id}, Subscribers.Sentinel);
    case Deliver(channel, payload) =>
      OfferKeeps(p, s.queues, s.plugin.SubscribersOf(channel), Subscribers.Event(payload));
    case Get(id) => Subscribers.StepKeeps(p.policy, s.queues[id], Subscribers.Get);
  }

  lemma {:induction false} SubscribeIsHeard(
    p: Settings, s: System, names: seq<string>, i: SubscriberId, id: SubscriberId, e: Ears)
    requires Sound(p, s) && Enabled(p, s, Subscribe(names, i)) && Agrees(s, id, e)
    ensures Agrees(Do(p, s, Subscribe(names, i)), id, Follow(e, id, Subscribe(names, i)))
  {
    Channels.SubscribeKeepsConsistent(s.plugin, p.arbitrary, names, i);
    var r := Do(p, s, Subscribe(names, i));
    forall c
      ensures r.plugin.SubscribersOf(c) == s.plugin.SubscribersOf(c) + if c in names then {i} else {}
      ensures i !in s.plugin.SubscribersOf(c)
    {
    }
  }

  lemma {:induction false} BeginIsHeard(
    p: Settings, s: System, names: seq<string>, i: SubscriberId, id: SubscriberId, e: Ears)
    requires Enabled(p, s, BeginUnsubscribe(names, i)) && Agrees(s, id, e)
    ensures Agrees(Do(p, s, BeginUnsubscribe(names, i)), id, Follow(e, id, BeginUnsubscribe(names, i)))
  {
    var r, f := Do(p, s, BeginUnsubscribe(names, i)), Follow(e, id, BeginUnsubscribe(names, i));
    Channels.UnsubscribeLoopRemoves(s.plugin.channels, names, i, {});
    forall c
      ensures r.plugin.SubscribersOf(c) == s.plugin.SubscribersOf(c) - if c in names then {i} else {}
      ensures c in f.channels <==> id in r.plugin.SubscribersOf(c)
    {
    }
    if i == id {
      if f.channels != {} {
        var c :| c in f.channels;
        assert c in r.plugin.channels && id in r.plugin.channels[c];
      }
      if r.plugin.HasChannel(id) {
        var c :| c in r.plugin.channels && id in r.plugin.channels[c];
        assert c in f.channels;
      }
    }
  }

  lemma {:induction false} EarsFollow(p: Settings, s: System, step: Step, id: SubscriberId, e: Ears)
    requires Sound(p, s) && Enabled(p, s, step) && Agrees(s, id, e)
    ensures Agrees(Do(p, s, step), id, Follow(e, id, step))
  {
    match step
    case Subscribe(names, i) => SubscribeIsHeard(p, s, names, i, id, e);
    case BeginUnsubscribe(names, i) => BeginIsHeard(p, s, names, i, id, e);
    case _ =>
  }

  /** Each step offers the subscriber what it should hear. */
  lemma {:induction false} StepIsHeard(p: Settings, s: System, step: Step, id: SubscriberId, e: Ears)
    requires Sound(p, s) && Enabled(p, s, step) && Agrees(s, id, e)
    ensures OfferedTo(Do(p, s, step), id) == OfferedTo(s, id) + Heard(e, id, step)
  {
  }

  /** In every run the backend fits the plugin, and each queue keeps its order and limit. */
  lemma {:induction false} EveryRunIsSound(p: Settings, s: System, steps: seq<Step>)
    requires Sound(p, s) && Possible(p, s, steps)
    ensures Sound(p, DoAll(p, s, steps))
    decreases |steps|
  {
    if |steps| > 0 {
      StepIsSound(p, s, steps[0]);
      EveryRunIsSound(p, Do(p, s, steps[0]), steps[1..]);
    }
  }

  lemma {:induction false} Associative<T>(a: seq<T>, b: seq<T>, c: seq<T>)
    ensures (a + b) + c == a + (b + c)
  {
  }

  /**
   In every run, with events delivered and taken at any time: each subscriber is
   offered exactly the events of the channels it listens to when they arrive, in
   their order, and a sentinel when it has left its last channel.
   */
  lemma {:induction false} EveryRunIsHeard(p: Settings, s: System, steps: seq<Step>, id: SubscriberId, e: Ears)
    requires Sound(p, s) && Possible(p, s, steps) && Agrees(s, id, e)
    ensures OfferedTo(DoAll(p, s, steps), id) == OfferedTo(s, id) + History(e, id, steps)
    decreases |steps|
  {
    if |steps| > 0 {
      StepIsSound(p, s, steps[0]);
      StepIsHeard(p, s, steps[0], id, e);
      EarsFollow(p, s, steps[0], id, e);
      var f := Follow(e, id, steps[0]);
      EveryRunIsHeard(p, Do(p, s, steps[0]), steps[1..], id, f);
      Associative(OfferedTo(s, id), Heard(e, id, steps[0]), History(f, id, steps[1..]));
    }
  }

  /** What is taken from a queue or still on it: all of a history, or under a limit a selection of it, in order. */
  ghost predicate IsStreamOf(p: Subscribers.Policy, q: Subscribers.State, history: seq<Subscribers.Item>) {
    && (p.limit == 0 ==> q.consumed + q.queue == history)
    && (p.strategy == Subscribers.Backoff ==>
          q.consumed + q.queue == q.accepted && Subscribers.IsSelection(q.accepted, history))
    && (p.limit > 0 && p.strategy == Subscribers.Dropleft ==>
          && |q.queue| <= |history| && q.queue == history[|history| - |q.queue|..]
          && Subscribers.IsSelection(q.consumed, history[..|history| - |q.queue|]))
  }

  lemma {:induction false} KeptIsStream(p: Subscribers.Policy, q: Subscribers.State)
    requires Subscribers.Kept(p, q)
    ensures IsStreamOf(p, q, q.offered)
  {
  }

  /** What a subscriber gets is a stream of its history. */
  lemma {:induction false} StreamsAreHistories(
    p: Settings, declared: set<string>, steps: seq<Step>, id: SubscriberId)
    requires Possible(p, Started(declared), steps) && id in DoAll(p, Started(declared), steps).queues
    ensures IsStreamOf(p.policy, DoAll(p, Started(declared), steps).queues[id], History(DEAF, id, steps))
  {
    EveryRunIsSound(p, Started(declared), steps);
    EveryRunIsHeard(p, Started(declared), steps, id, DEAF);
    KeptIsStream(p.policy, DoAll(p, Started(declared), steps).queues[id]);
    assert [] + History(DEAF, id, steps) == History(DEAF, id, steps);
  }

  // ----- the wait of the sentinel -----

  /** The two halves of a call make up the whole of it. */
  lemma {:induction false} HalvesMakeUnsubscribe(p: Settings, s: System, names: seq<string>, id: SubscriberId)
    requires Enabled(p, s, BeginUnsubscribe(names, id))
    requires Enabled(p, Do(p, s, BeginUnsubscribe(names, id)), FinishUnsubscribe)
    ensures Do(p, Do(p, s, BeginUnsubscribe(names, id)), FinishUnsubscribe).plugin
         == Channels.AfterUnsubscribe(s.plugin, names, id)
  {
    Channels.UnsubscribeLoopRemoves(s.plugin.channels, names, id, {});
  }

  lemma {:induction false} StepWhileLeaving(p: Settings, s: System, step: Step)
    requires Sound(p, s) && Enabled(p, s, step) && step != FinishUnsubscribe
    requires s.leaving.Some? && s.leaving.value.endsStream
    ensures var r, id := Do(p, s, step), s.leaving.value.id;
            && r.leaving == s.leaving
            && r.queues[id].queue == if step == Get(id) then s.queues[id].queue[1..] else s.queues[id].queue
  {
  }

  /**
   A leaving subscriber is offered no more events, so that `unsubscribe` can go on
   if and only if there was room for the sentinel, or an event has been taken since.
   */
  lemma {:induction false} WaitsForOneGet(p: Settings, s: System, steps: seq<Step>)
    requires Sound(p, s) && Possible(p, s, steps) && FinishUnsubscribe !in steps
    requires s.leaving.Some? && s.leaving.value.endsStream
    ensures var id := s.leaving.value.id;
            Enabled(p, DoAll(p, s, steps), FinishUnsubscribe) <==> !p.policy.Full(s.queues[id].queue) || Get(id) in steps
    decreases |steps|
  {
    if |steps| > 0 {
      var s1 := Do(p, s, steps[0]);
      StepIsSound(p, s, steps[0]);
      StepWhileLeaving(p, s, steps[0]);
      WaitsForOneGet(p, s1, steps[1..]);
      assert forall x :: x in steps <==> x == steps[0] || x in steps[1..];
    }
  }

  /** When nothing waits, calls go ahead exactly if they do not raise: `subscribe` for a new subscriber only. */
  lemma {:induction false} CallsGoAheadIff(p: Settings, s: System, names: seq<string>, id: SubscriberId)
    requires s.leaving.None?
    ensures Enabled(p, s, Subscribe(names, id)) <==>
            id !in s.queues && Channels.SubscribeLoop(s.plugin.channels, p.arbitrary, names, id, {}).ok
    ensures Enabled(p, s, BeginUnsubscribe(names, id)) <==>
            id in s.queues && Channels.UnsubscribeLoop(s.plugin.channels, names, id, {}).ok
  {
    Channels.SubscribeLoopOk(s.plugin.channels, p.arbitrary, names, id, {});
    Channels.UnsubscribeLoopRemoves(s.plugin.channels, names, id, {});
  }

  lemma {:induction false} OneChannelJoinedAndLeft()
    ensures Channels.AfterSubscribe(Channels.State(map["a" := {}], {"a"}), false, ["a"], 1)
         == Channels.State(map["a" := {1}], {"a"})
    ensures Channels.UnsubscribeLoop(map["a" := {1}], ["a"], 1, {})
         == Channels.Unsubscribing(map["a" := {}], {"a"}, true)
  {
    var names, before: map<string, set<SubscriberId>>, after: map<string, set<SubscriberId>> :=
      ["a"], map["a" := {}], map["a" := {1}];
    assert names[1..] == [];
    var one: set<SubscriberId> := {1};
    assert {} + one == one && before["a" := one] == after && {"a"} + {"a"} == {"a"};
    assert Channels.SubscribeLoop(before, false, names, 1, {}) == Channels.SubscribeLoop(after, false, names[1..], 1, {"a"});
    assert {1} - {1} == {} && after["a" := {1} - {1}] == before;
    assert Channels.UnsubscribeLoop(after, names, 1, {}) == Channels.UnsubscribeLoop(before, names[1..], 1, {"a"});
  }

  const UNLIMITED := Settings(Subscribers.Policy(0, Subscribers.Backoff), false)

  /** After subscribing, hearing of an event and taking it. */
  function Listening(payload: Payload): System {
    System(Channels.State(map["a" := {1}], {"a"}),
           map[1 := Subscribers.State([], [Subscribers.Event(payload)], [Subscribers.Event(payload)],
                                      [Subscribers.Event(payload)])], None)
  }

  lemma {:induction false} JoinsAndHears(payload: Payload) returns (s1: System, s2: System)
    ensures Enabled(UNLIMITED, Started({"a"}), Subscribe(["a"], 1))
         && s1 == Do(UNLIMITED, Started({"a"}), Subscribe(["a"], 1))
    ensures Enabled(UNLIMITED, s1, Deliver("a", payload)) && s2 == Do(UNLIMITED, s1, Deliver("a", payload))
    ensures Enabled(UNLIMITED, s2, Get(1)) && Do(UNLIMITED, s2, Get(1)) == Listening(payload)
  {
    OneChannelJoinedAndLeft();
    var event := Subscribers.Event(payload);
    assert Channels.Started({"a"}) == Channels.State(map["a" := {}], {"a"});
    s1 := System(Channels.State(map["a" := {1}], {"a"}), map[1 := Subscribers.EMPTY], None);
    assert [] + [event] == [event];
    s2 := System(s1.plugin, map[1 := Subscribers.State([event], [event], [event], [])], None);
    assert s2.queues == Offer(UNLIMITED, s1.queues, {1}, event);
    assert [event][1..] == [];
    assert Do(UNLIMITED, s2, Get(1)).queues == Listening(payload).queues;
  }

  lemma {:induction false} LeavesAndEnds(payload: Payload) returns (s4: System, s5: System)
    ensures var s3, p := Listening(payload), UNLIMITED;
            Enabled(p, s3, BeginUnsubscribe(["a"], 1)) && s4 == Do(p, s3, BeginUnsubscribe(["a"], 1))
    ensures Enabled(UNLIMITED, s4, FinishUnsubscribe) && s5 == Do(UNLIMITED, s4, FinishUnsubscribe)
    ensures Enabled(UNLIMITED, s5, Get(1)) && 1 in Do(UNLIMITED, s5, Get(1)).queues
    ensures Do(UNLIMITED, s5, Get(1)).queues[1].consumed == [Subscribers.Event(payload), Subscribers.Sentinel]
  {
    OneChannelJoinedAndLeft();
    s4 := Do(UNLIMITED, Listening(payload), BeginUnsubscribe(["a"], 1));
    assert s4.leaving == Some(Leaving(1, true, {"a"}));
    s5 := Do(UNLIMITED, s4, FinishUnsubscribe);
    assert s5.queues[1].queue == [Subscribers.Sentinel];
  }

  /** A subscriber of a declared channel hears of an event, leaves, and finds its stream ended. */
  lemma {:induction false} HearsAndLeaves(payload: Payload)
    ensures var steps := [Subscribe(["a"], 1), Deliver("a", payload), Get(1), BeginUnsubscribe(["a"], 1),
                          FinishUnsubscribe, Get(1)];
            && Possible(UNLIMITED, Started({"a"}), steps)
            && 1 in DoAll(UNLIMITED, Started({"a"}), steps).queues
            && DoAll(UNLIMITED, Started({"a"}), steps).queues[1].consumed
               == [Subscribers.Event(payload), Subscribers.Sentinel]
  {
    var steps := [Subscribe(["a"], 1), Deliver("a", payload), Get(1), BeginUnsubscribe(["a"], 1), FinishUnsubscribe,
                  Get(1)];
    var s1, s2 := JoinsAndHears(payload);
    var s4, s5 := LeavesAndEnds(payload);
    RunOfSix(UNLIMITED, Started({"a"}), steps, s1, s2, Listening(payload), s4, s5);
  }

  lemma {:induction false} RunStep(p: Settings, s: System, steps: seq<Step>, s': System)
    requires steps != [] && Enabled(p, s, steps[0]) && s' == Do(p, s, steps[0]) && Possible(p, s', steps[1..])
    ensures Possible(p, s, steps) && DoAll(p, s, steps) == DoAll(p, s', steps[1..])
  {
  }

  lemma {:induction false} RunOfSix(
    p: Settings, s0: System, steps: seq<Step>, s1: System, s2: System, s3: System, s4: System, s5: System)
    requires |steps| == 6
    requires Enabled(p, s0, steps[0]) && s1 == Do(p, s0, steps[0])
    requires Enabled(p, s1, steps[1]) && s2 == Do(p, s1, steps[1])
    requires Enabled(p, s2, steps[2]) && s3 == Do(p, s2, steps[2])
    requires Enabled(p, s3, steps[3]) && s4 == Do(p, s3, steps[3])
    requires Enabled(p, s4, steps[4]) && s5 == Do(p, s4, steps[4])
    requires Enabled(p, s5, steps[5])
    ensures Possible(p, s0, steps) && DoAll(p, s0, steps) == Do(p, s5, steps[5])
  {
    var t1, t2, t3, t4, t5, t6 := steps[1..], steps[2..], steps[3..], steps[4..], steps[5..], steps[6..];
    assert t1[1..] == t2 && t2[1..] == t3 && t3[1..] == t4 && t4[1..] == t5 && t5[1..] == t6 && t6 == [];
    RunStep(p, s5, t5, Do(p, s5, steps[5]));
    RunStep(p, s4, t4, s5);
    RunStep(p, s3, t3, s4);
    RunStep(p, s2, t2, s3);
    RunStep(p, s1, t1, s2);
    RunStep(p, s0, steps, s1);
  }

  // ----- calls that do overlap -----

  /** The plugin after a `subscribe` that comes while an `unsubscribe` waits, and then goes on. */
  function AfterOverlap(p: Settings, s: System, names: seq<string>, id: SubscriberId): Channels.State
    requires s.leaving.Some?
  {
    var plugin := Channels.AfterSubscribe(s.plugin, p.arbitrary, names, id);
    Channels.State(plugin.channels, plugin.backend - s.leaving.value.toUnsubscribe)
  }

  /**
   Such a call goes well exactly if it names no channel that is being left: of one
   that it does name the new listener hears nothing.
   */
  lemma {:induction false} OverlappingSubscribe(p: Settings, s: System, names: seq<string>, id: SubscriberId)
    requires Sound(p, s) && s.leaving.Some? && (p.arbitrary || forall n | n in names :: n in s.plugin.channels)
    ensures AfterOverlap(p, s, names, id).Consistent() <==> forall n | n in names :: n !in s.leaving.value.toUnsubscribe
    ensures forall n | n in names && n in s.leaving.value.toUnsubscribe ::
              id in AfterOverlap(p, s, names, id).SubscribersOf(n) && AfterOverlap(p, s, names, id).Offered(n) == {}
  {
    Channels.SubscribeKeepsConsistent(s.plugin, p.arbitrary, names, id);
    var before, after := Channels.AfterSubscribe(s.plugin, p.arbitrary, names, id), AfterOverlap(p, s, names, id);
    forall c
      ensures after.SubscribersOf(c) == s.plugin.SubscribersOf(c) + if c in names then {id} else {}
    {
      assert after.SubscribersOf(c) == before.SubscribersOf(c);
    }
    if n :| n in names && n in s.leaving.value.toUnsubscribe {
      assert id in after.SubscribersOf(n);
      assert n in after.channels && after.channels[n] != {} && n !in after.backend;
    }
  }
}
