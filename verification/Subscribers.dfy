/**
 The stream of one subscriber: a queue with one of two policies for a full
 backlog (litestar/channels/subscriber.py).
 */
module Subscribers {

  type Payload = seq<bv8>

  /** An event, or the `None` that ends the stream. */
  datatype Item = Event(payload: Payload) | Sentinel

  datatype Strategy = Backoff | Dropleft

  /** `limit` is `max_backlog`; 0 stands for no limit, which `None` amounts to as well. */
  datatype Policy = Policy(limit: nat, strategy: Strategy)
  {
    /** An AsyncDeque with a maximal length is used for `dropleft` under a limit, an asyncio.Queue otherwise. */
    predicate Drops() {
      limit > 0 && strategy == Dropleft
    }

    /** `put_nowait` finds the queue full. */
    predicate Full(queue: seq<Item>) {
      !Drops() && limit > 0 && |queue| >= limit
    }

    /** What appending does to a queue that is not full. */
    function Append(queue: seq<Item>, item: Item): seq<Item> {
      if Drops() && |queue| == limit then queue[1..] + [item] else queue + [item]
    }
  }

  // ----- interleavings of puts and gets -----

  /** `PutNowait` may be refused. `Put` waits, so it happens when there is room, as `Get` does when there is an item. */
  datatype Step = PutNowait(item: Item) | Put(item: Item) | Get

  datatype State = State(queue: seq<Item>, offered: seq<Item>, accepted: seq<Item>, consumed: seq<Item>)

  predicate Enabled(p: Policy, s: State, step: Step) {
    match step
    case PutNowait(_) => true
    case Put(_) => !p.Full(s.queue)
    case Get => s.queue != []
  }

  function Do(p: Policy, s: State, step: Step): State
    requires Enabled(p, s, step)
  {
    match step
    case Get => State(s.queue[1..], s.offered, s.accepted, s.consumed + [s.queue[0]])
    case _ =>
      if p.Full(s.queue) then State(s.queue, s.offered + [step.item], s.accepted, s.consumed)
      else State(p.Append(s.queue, step.item), s.offered + [step.item], s.accepted + [step.item], s.consumed)
  }

  predicate Possible(p: Policy, s: State, steps: seq<Step>)
    decreases |steps|
  {
    |steps| > 0 ==> Enabled(p, s, steps[0]) && Possible(p, Do(p, s, steps[0]), steps[1..])
  }

  function DoAll(p: Policy, s: State, steps: seq<Step>): State
    requires Possible(p, s, steps)
    decreases |steps|
  {
    if |steps| == 0 then s else DoAll(p, Do(p, s, steps[0]), steps[1..])
  }

  const EMPTY := State([], [], [], [])

  ghost predicate IsSuffix<T>(a: seq<T>, b: seq<T>) {
    |a| <= |b| && a == b[|b| - |a|..]
  }

  /** Some items of b, in the order they have there. */
  ghost predicate IsSelection<T>(a: seq<T>, b: seq<T>)
    decreases |b|
  {
    a == [] ||
    (b != [] &&
     ((a[|a| - 1] == b[|b| - 1] && IsSelection(a[..|a| - 1], b[..|b| - 1])) || IsSelection(a, b[..|b| - 1])))
  }

  lemma {:induction false} SelectionSkips<T>(a: seq<T>, b: seq<T>, x: T)
    requires IsSelection(a, b)
    ensures IsSelection(a, b + [x])
  {
    assert (b + [x])[..|b + [x]| - 1] == b;
  }

  lemma {:induction false} SelectionTakes<T>(a: seq<T>, b: seq<T>, x: T)
    requires IsSelection(a, b)
    ensures IsSelection(a + [x], b + [x])
  {
    assert (b + [x])[..|b + [x]| - 1] == b && (a + [x])[..|a + [x]| - 1] == a;
  }

  /** What is no longer on a dropleft queue, taken or dropped. */
  function Gone(s: State): seq<Item>
    requires |s.queue| <= |s.offered|
  {
    s.offered[..|s.offered| - |s.queue|]
  }

  /** What holds of a queue at any time. */
  ghost predicate Kept(p: Policy, s: State) {
    && (p.limit > 0 ==> |s.queue| <= p.limit)
    && (p.limit > 0 && p.strategy == Dropleft ==>
          s.accepted == s.offered && IsSuffix(s.queue, s.offered) && IsSelection(s.consumed, Gone(s)))
    && (p.limit == 0 || p.strategy == Backoff ==>
          s.consumed + s.queue == s.accepted && IsSelection(s.accepted, s.offered))
    && (p.limit == 0 ==> s.accepted == s.offered)
  }

  /** What an attempt to put an item does, by the limit and the strategy. */
  lemma {:induction false} PutByStrategy(p: Policy, s: State, item: Item)
    requires Kept(p, s)
    ensures var r := Do(p, s, PutNowait(item));
            && r.offered == s.offered + [item] && r.consumed == s.consumed
            && (p.limit == 0 || |s.queue| < p.limit ==>
                  r.queue == s.queue + [item] && r.accepted == s.accepted + [item])
            && (p.limit > 0 && |s.queue| == p.limit && p.strategy == Backoff ==>
                  r.queue == s.queue && r.accepted == s.accepted)
            && (p.limit > 0 && |s.queue| == p.limit && p.strategy == Dropleft ==>
                  r.queue == s.queue[1..] + [item] && r.accepted == s.accepted + [item])
  {
  }

  /** A waiting put goes ahead when there is room, or when the strategy makes some. */
  lemma {:induction false} PutWaitsByStrategy(p: Policy, s: State, item: Item)
    requires Kept(p, s)
    ensures Enabled(p, s, Put(item)) <==> p.limit == 0 || p.strategy == Dropleft || |s.queue| < p.limit
    ensures Enabled(p, s, Put(item)) ==> Do(p, s, Put(item)) == Do(p, s, PutNowait(item))
  {
  }

  lemma {:induction false} GetKeeps(p: Policy, s: State)
    requires Kept(p, s) && s.queue != []
    ensures Kept(p, Do(p, s, Get))
  {
    var r := Do(p, s, Get);
    if p.Drops() {
      SelectionTakes(s.consumed, Gone(s), s.queue[0]);
      assert Gone(r) == Gone(s) + [s.queue[0]];
    } else {
      assert s.consumed + s.queue == s.consumed + [s.queue[0]] + s.queue[1..];
    }
  }

  /** One more item offered, and the first of the queue dropped, or none. */
  lemma {:induction false} SuffixMovesOn<T>(queue: seq<T>, offered: seq<T>, x: T)
    requires IsSuffix(queue, offered)
    ensures IsSuffix(queue + [x], offered + [x])
    ensures (offered + [x])[..|offered + [x]| - |queue + [x]|] == offered[..|offered| - |queue|]
    ensures queue != [] ==>
              && IsSuffix(queue[1..] + [x], offered + [x])
              && (offered + [x])[..|offered + [x]| - |queue|] == offered[..|offered| - |queue|] + [queue[0]]
  {
  }

  lemma {:induction false} PutKeepsDropleft(p: Policy, s: State, step: Step)
    requires Kept(p, s) && p.Drops() && !step.Get?
    ensures Kept(p, Do(p, s, step))
  {
    SuffixMovesOn(s.queue, s.offered, step.item);
    if |s.queue| == p.limit {
      SelectionSkips(s.consumed, Gone(s), s.queue[0]);
    }
  }

  lemma {:induction false} PutKeepsBackoff(p: Policy, s: State, step: Step)
    requires Kept(p, s) && !p.Drops() && !step.Get? && Enabled(p, s, step)
    ensures Kept(p, Do(p, s, step))
  {
    if p.Full(s.queue) {
      SelectionSkips(s.accepted, s.offered, step.item);
    } else {
      SelectionTakes(s.accepted, s.offered, step.item);
      assert s.consumed + (s.queue + [step.item]) == s.consumed + s.queue + [step.item];
    }
  }

  lemma {:induction false} StepKeeps(p: Policy, s: State, step: Step)
    requires Kept(p, s) && Enabled(p, s, step)
    ensures Kept(p, Do(p, s, step))
  {
    if step.Get? {
      GetKeeps(p, s);
    } else if p.Drops() {
      PutKeepsDropleft(p, s, step);
    } else {
      PutKeepsBackoff(p, s, step);
    }
  }

  /**
   In every interleaving of puts and gets: a dropleft queue is a suffix of
   everything put on it, and what was consumed is a selection, in order, of what
   came before that; a backoff queue, after what was consumed, holds exactly the
   accepted items, which are a selection of those offered, and all of them if
   there is no limit; neither exceeds its limit.
   */
  lemma {:induction false} QueueKeepsOrder(p: Policy, s: State, steps: seq<Step>)
    requires Kept(p, s) && Possible(p, s, steps)
    ensures Kept(p, DoAll(p, s, steps))
    decreases |steps|
  {
    if |steps| > 0 {
      StepKeeps(p, s, steps[0]);
      QueueKeepsOrder(p, Do(p, s, steps[0]), steps[1..]);
    }
  }

  /** So it is from the start, whatever happens. */
  lemma {:induction false} EveryRunKeepsOrder(p: Policy, steps: seq<Step>)
    requires Possible(p, EMPTY, steps)
    ensures Kept(p, DoAll(p, EMPTY, steps))
  {
    QueueKeepsOrder(p, EMPTY, steps);
  }

  /** As many of the latest items as the limit allows. */
  predicate HoldsTheLatest(p: Policy, s: State) {
    |s.queue| == if |s.offered| < p.limit then |s.offered| else p.limit
  }

  lemma {:induction false} PutHoldsTheLatest(p: Policy, s: State, step: Step)
    requires p.limit > 0 && p.strategy == Dropleft && !step.Get? && HoldsTheLatest(p, s)
    ensures HoldsTheLatest(p, Do(p, s, step))
  {
  }

  /** A dropleft queue is as long a suffix as the limit allows, when nothing is taken from it. */
  lemma {:induction false} DropleftHoldsTheLatest(p: Policy, s: State, steps: seq<Step>)
    requires p.limit > 0 && p.strategy == Dropleft && HoldsTheLatest(p, s) && Possible(p, s, steps)
    requires forall i | 0 <= i < |steps| :: !steps[i].Get?
    ensures HoldsTheLatest(p, DoAll(p, s, steps))
    decreases |steps|
  {
    if |steps| > 0 {
      PutHoldsTheLatest(p, s, steps[0]);
      DropleftHoldsTheLatest(p, Do(p, s, steps[0]), steps[1..]);
    }
  }

  function Puts(items: seq<Item>): (steps: seq<Step>)
    ensures |steps| == |items| && forall i | 0 <= i < |items| :: steps[i] == PutNowait(items[i])
  {
    if items == [] then [] else [PutNowait(items[0])] + Puts(items[1..])
  }

  lemma {:induction false} PutsArePossible(p: Policy, s: State, items: seq<Item>)
    ensures Possible(p, s, Puts(items))
    decreases |items|
  {
    if items != [] {
      PutsArePossible(p, Do(p, s, PutNowait(items[0])), items[1..]);
    }
  }

  lemma {:induction false} PutsAreOffered(p: Policy, s: State, items: seq<Item>)
    requires Possible(p, s, Puts(items))
    ensures DoAll(p, s, Puts(items)).offered == s.offered + items
    decreases |items|
  {
    if items != [] {
      var s1 := Do(p, s, PutNowait(items[0]));
      assert s1.offered == s.offered + [items[0]];
      PutsAreOffered(p, s1, items[1..]);
      OneMore(s.offered, items);
    }
  }

  lemma {:induction false} OneMore<T>(a: seq<T>, b: seq<T>)
    requires b != []
    ensures (a + [b[0]]) + b[1..] == a + b
  {
  }

  /** Of items put on an empty dropleft queue just the latest remain, as many as the limit allows. */
  lemma {:induction false} LatestRemain(p: Policy, items: seq<Item>)
    requires p.limit > 0 && p.strategy == Dropleft
    ensures Possible(p, EMPTY, Puts(items))
    ensures DoAll(p, EMPTY, Puts(items)).queue == items[if |items| < p.limit then 0 else |items| - p.limit..]
  {
    assert EMPTY.offered + items == items;
    PutsArePossible(p, EMPTY, items);
    PutsAreOffered(p, EMPTY, items);
    QueueKeepsOrder(p, EMPTY, Puts(items));
    DropleftHoldsTheLatest(p, EMPTY, Puts(items));
  }

  // ----- the stream -----

  /** The events ahead of the first sentinel. */
  function Stream(queue: seq<Item>): seq<Payload> {
    if queue == [] || queue[0].Sentinel? then [] else [queue[0].payload] + Stream(queue[1..])
  }

  function SentinelAt(queue: seq<Item>): (i: nat)
    requires Sentinel in queue
    ensures i < |queue| && queue[i] == Sentinel && forall j | 0 <= j < i :: queue[j].Event?
  {
    if queue[0].Sentinel? then 0 else SentinelAt(queue[1..]) + 1
  }

  lemma {:induction false} StreamIsAhead(queue: seq<Item>)
    requires Sentinel in queue
    ensures |Stream(queue)| == SentinelAt(queue)
    ensures forall i | 0 <= i < SentinelAt(queue) :: queue[i] == Event(Stream(queue)[i])
    decreases queue
  {
    if queue[0].Event? {
      StreamIsAhead(queue[1..]);
      forall i | 0 <= i < SentinelAt(queue)
        ensures queue[i] == Event(Stream(queue)[i])
      {
        if i > 0 {
          assert queue[1..][i - 1] == queue[i];
        }
      }
    }
  }

  /** The events are all of one kind: a queue of events, and the sentinel at its end. */
  function Events(payloads: seq<Payload>): seq<Item> {
    seq(|payloads|, i requires 0 <= i < |payloads| => Event(payloads[i]))
  }

  lemma {:induction false} StreamOfEvents(payloads: seq<Payload>, rest: seq<Item>)
    ensures Stream(Events(payloads) + [Sentinel] + rest) == payloads
    decreases payloads
  {
    var queue := Events(payloads) + [Sentinel] + rest;
    if payloads != [] {
      assert queue[1..] == Events(payloads[1..]) + [Sentinel] + rest;
      StreamOfEvents(payloads[1..], rest);
    }
  }

  /** A full backoff queue makes the sentinel wait, but no longer than until an event is taken. */
  lemma {:induction false} RoomAfterOneGet(p: Policy, queue: seq<Item>)
    requires queue != [] && (p.limit > 0 ==> |queue| <= p.limit)
    ensures !p.Full(queue[1..])
  {
  }

  /**
   When the sentinel is the last thing put on a queue of events, be it after some of
   them were taken to make room, the stream goes on with precisely the events still
   ahead of it. A full dropleft queue loses its first event to the sentinel.
   */
  lemma {:induction false} StreamEndsAtSentinel(p: Policy, payloads: seq<Payload>, taken: nat)
    requires taken <= |payloads| && !p.Full(Events(payloads[taken..]))
    requires p.limit > 0 ==> |payloads| <= p.limit
    ensures var queue := p.Append(Events(payloads[taken..]), Sentinel);
            && Sentinel in queue
            && (if p.strategy == Dropleft && p.limit > 0 && |payloads| - taken == p.limit then
                  Stream(queue) == payloads[taken + 1..]
                else payloads[..taken] + Stream(queue) == payloads)
  {
    var rest := payloads[taken..];
    var queue := p.Append(Events(rest), Sentinel);
    assert queue[|queue| - 1] == Sentinel;
    if p.Drops() && |rest| == p.limit {
      StreamOfEvents(rest[1..], []);
      assert queue == Events(rest[1..]) + [Sentinel] + [];
    } else {
      StreamOfEvents(rest, []);
      assert queue == Events(rest) + [Sentinel] + [];
    }
  }

  // ----- the class -----

  class Subscriber {
    const policy: Policy
    var queue: seq<Item>

    constructor (policy: Policy)
      ensures this.policy == policy && queue == []
    {
      this.policy, queue := policy, [];
    }

    ghost predicate Valid()
      reads this
    {
      policy.limit > 0 ==> |queue| <= policy.limit
    }

    /** `put_nowait`: refused when the backlog is full, under the `backoff` policy. */
    method PutNowait(item: Item) returns (ok: bool)
      requires Valid()
      modifies this
      ensures Valid()
      ensures policy.limit == 0 || |old(queue)| < policy.limit ==> ok && queue == old(queue) + [item]
      ensures policy.limit > 0 && |old(queue)| == policy.limit ==>
                match policy.strategy
                case Backoff => !ok && queue == old(queue)
                case Dropleft => ok && queue == old(queue)[1..] + [item]
    {
      if !policy.Drops() && policy.limit > 0 && |queue| >= policy.limit {
        return false;
      }
      if policy.Drops() && |queue| == policy.limit {
        queue := queue[1..];
      }
      queue := queue + [item];
      ok := true;
    }

    /** `iter_events`, as far as it goes without waiting: up to the sentinel, or to the end of the queue. */
    method IterEvents() returns (events: seq<Payload>, ended: bool)
      requires Valid()
      modifies this
      ensures Valid()
      ensures events == Stream(old(queue))
      ensures ended <==> Sentinel in old(queue)
      ensures queue == if ended then old(queue)[SentinelAt(old(queue)) + 1..] else []
    {
      events, ended := [], false;
      ghost var start := queue;
      var i := 0;
      while queue != []
        invariant 0 <= i <= |start| && queue == start[i..]
        invariant Valid()
        invariant events + Stream(queue) == Stream(start)
        invariant forall j | 0 <= j < i :: start[j].Event?
        decreases |queue|
      {
        var item := queue[0];
        queue := queue[1..];
        if item.Sentinel? {
          assert start[i] == Sentinel;
          return events, true;
        }
        assert events + ([item.payload] + Stream(queue)) == events + [item.payload] + Stream(queue);
        events := events + [item.payload];
        i := i + 1;
      }
      assert i == |start|;
    }
  }
}
