/**
 The channels plugin: which subscribers a channel has locally, and which
 channels the backend is subscribed to (litestar/channels/plugin.py). Every call
 is one step; calls do not overlap.
 */
module Channels {
  import opened Outcomes

  type SubscriberId = nat
  type Payload = seq<bv8>

  datatype State = State(
    channels: map<string, set<SubscriberId>>,
    backend: set<string>
  )
  {
    function SubscribersOf(channel: string): set<SubscriberId> {
      Members(channels, channel)
    }

    predicate HasChannel(id: SubscriberId) {
      exists c :: c in channels && id in channels[c]
    }

    /** Where there is somebody to listen the backend is subscribed, and it is subscribed to known channels only. */
    ghost predicate Consistent() {
      && (forall c | c in channels && channels[c] != {} :: c in backend)
      && backend <= channels.Keys
    }

    /** Whom the subscription worker offers an event to: the backend streams those of its channels only. */
    function Offered(channel: string): set<SubscriberId> {
      if channel in backend then SubscribersOf(channel) else {}
    }
  }

  function Members(channels: map<string, set<SubscriberId>>, channel: string): set<SubscriberId> {
    if channel in channels then channels[channel] else {}
  }

  // ----- subscribing -----

  /** The loop of `subscribe`: channels so far, those the backend still has to hear of, and whether it went through. */
  datatype Subscribing = Subscribing(channels: map<string, set<SubscriberId>>, toSubscribe: set<string>, ok: bool)

  function SubscribeLoop(
    channels: map<string, set<SubscriberId>>, arbitrary: bool, names: seq<string>, id: SubscriberId,
    toSubscribe: set<string>): Subscribing
    decreases names
  {
    if names == [] then Subscribing(channels, toSubscribe, true)
    else if names[0] !in channels && !arbitrary then Subscribing(channels, toSubscribe, false)
    else
      var before := Members(channels, names[0]);
      SubscribeLoop(channels[names[0] := before + {id}], arbitrary, names[1..], id,
                    if before == {} then toSubscribe + {names[0]} else toSubscribe)
  }

  /** On an unknown channel the call raises: what the loop did stays done, and the backend is not told. */
  function AfterSubscribe(s: State, arbitrary: bool, names: seq<string>, id: SubscriberId): State {
    var r := SubscribeLoop(s.channels, arbitrary, names, id, {});
    State(r.channels, if r.ok then s.backend + r.toSubscribe else s.backend)
  }

  /** The names that a call gets to: all, or those before the first unknown one. */
  function Accepted(channels: map<string, set<SubscriberId>>, arbitrary: bool, names: seq<string>): seq<string> {
    if names == [] || (names[0] !in channels && !arbitrary) then []
    else [names[0]] + Accepted(channels, arbitrary, names[1..])
  }

  /** The call raises on an unknown channel that may not be made up, and gets to every channel otherwise. */
  lemma {:induction false} SubscribeLoopOk(
    channels: map<string, set<SubscriberId>>, arbitrary: bool, names: seq<string>, id: SubscriberId,
    toSubscribe: set<string>)
    ensures SubscribeLoop(channels, arbitrary, names, id, toSubscribe).ok
       <==> arbitrary || forall n | n in names :: n in channels
    ensures SubscribeLoop(channels, arbitrary, names, id, toSubscribe).ok
        ==> Accepted(channels, arbitrary, names) == names
    decreases names
  {
    if names != [] && (names[0] in channels || arbitrary) {
      var n := names[0];
      var before := Members(channels, n);
      var channels1 := channels[n := before + {id}];
      SubscribeLoopOk(channels1, arbitrary, names[1..], id, if before == {} then toSubscribe + {n} else toSubscribe);
      AcceptedMore(channels, channels1, arbitrary, names[1..], n);
      assert forall c :: c in names <==> c == n || c in names[1..];
    }
  }

  lemma {:induction false} SubscribeLoopAdds(
    channels: map<string, set<SubscriberId>>, arbitrary: bool, names: seq<string>, id: SubscriberId,
    toSubscribe: set<string>, c: string)
    ensures var r := SubscribeLoop(channels, arbitrary, names, id, toSubscribe);
            var accepted := c in Accepted(channels, arbitrary, names);
            && (c in r.channels <==> c in channels || accepted)
            && Members(r.channels, c) == Members(channels, c) + (if accepted then {id} else {})
            && (c in r.toSubscribe <==> c in toSubscribe || (accepted && Members(channels, c) == {}))
    decreases names
  {
    if names != [] && (names[0] in channels || arbitrary) {
      var n := names[0];
      var before := Members(channels, n);
      var channels1 := channels[n := before + {id}];
      SubscribeLoopAdds(channels1, arbitrary, names[1..], id,
                        if before == {} then toSubscribe + {n} else toSubscribe, c);
      AcceptedMore(channels, channels1, arbitrary, names[1..], n);
    }
  }

  /** A channel that has just been accepted is known from then on. */
  lemma {:induction false} AcceptedMore(
    channels: map<string, set<SubscriberId>>, channels1: map<string, set<SubscriberId>>, arbitrary: bool,
    names: seq<string>, n: string)
    requires channels1.Keys == channels.Keys + {n} && (n in channels || arbitrary)
    ensures Accepted(channels1, arbitrary, names) == Accepted(channels, arbitrary, names)
    decreases names
  {
    if names != [] && (names[0] in channels || arbitrary) {
      AcceptedMore(channels, channels1, arbitrary, names[1..], n);
    }
  }

  /** A call that goes through makes the subscriber listen to the channels it names, and tells the backend. */
  lemma {:induction false} SubscribeKeepsConsistent(s: State, arbitrary: bool, names: seq<string>, id: SubscriberId)
    requires s.Consistent() && (arbitrary || forall n | n in names :: n in s.channels)
    ensures AfterSubscribe(s, arbitrary, names, id).Consistent()
    ensures forall c :: AfterSubscribe(s, arbitrary, names, id).SubscribersOf(c)
                     == s.SubscribersOf(c) + if c in names then {id} else {}
  {
    SubscribeLoopOk(s.channels, arbitrary, names, id, {});
    forall c
      ensures var r := AfterSubscribe(s, arbitrary, names, id);
              && r.SubscribersOf(c) == s.SubscribersOf(c) + (if c in names then {id} else {})
              && (c in r.backend ==> c in r.channels)
              && (r.SubscribersOf(c) != {} ==> c in r.backend)
    {
      SubscribeLoopAdds(s.channels, arbitrary, names, id, {}, c);
    }
  }

  /**
   A call that raises keeps the invariant exactly when the backend was subscribed
   to every channel that it had got to.
   */
  lemma {:induction false} FailedSubscribe(s: State, names: seq<string>, id: SubscriberId)
    requires s.Consistent() && exists n :: n in names && n !in s.channels
    ensures AfterSubscribe(s, false, names, id).Consistent() <==>
            forall c | c in Accepted(s.channels, false, names) :: c in s.backend
  {
    SubscribeLoopOk(s.channels, false, names, id, {});
    AcceptedAreKnown(s.channels, names);
    forall c
      ensures var r := AfterSubscribe(s, false, names, id);
              && (c in r.channels <==> c in s.channels)
              && r.SubscribersOf(c) == s.SubscribersOf(c)
                                     + (if c in Accepted(s.channels, false, names) then {id} else {})
    {
      SubscribeLoopAdds(s.channels, false, names, id, {}, c);
    }
    var r := AfterSubscribe(s, false, names, id);
    if r.Consistent() {
      forall c | c in Accepted(s.channels, false, names)
        ensures c in s.backend
      {
        assert id in r.SubscribersOf(c);
      }
    }
  }

  lemma {:induction false} AcceptedAreKnown(channels: map<string, set<SubscriberId>>, names: seq<string>)
    ensures forall c | c in Accepted(channels, false, names) :: c in channels
    decreases names
  {
    if names != [] && names[0] in channels {
      AcceptedAreKnown(channels, names[1..]);
    }
  }

  /** A declared channel is left by its only subscriber; a later call names it, and then one that nobody declared. */
  lemma {:induction false} FailedSubscribeLosesEvents()
    ensures var s := State(map["a" := {}], {});
            var r := AfterSubscribe(s, false, ["a", "b"], 1);
            s.Consistent() && !r.Consistent() && r.SubscribersOf("a") == {1} && r.Offered("a") == {}
  {
    var s := State(map["a" := {}], {});
    var names := ["a", "b"];
    assert names[1..] == ["b"] && "b" != "a";
    assert Accepted(s.channels, false, names[1..]) == [];
    SubscribeLoopOk(s.channels, false, names, 1, {});
    assert "b" in names;
    SubscribeLoopAdds(s.channels, false, names, 1, {}, "a");
    var r := AfterSubscribe(s, false, names, 1);
    assert r.channels["a"] != {};
  }

  // ----- unsubscribing -----

  datatype Unsubscribing = Unsubscribing(channels: map<string, set<SubscriberId>>, toUnsubscribe: set<string>, ok: bool)

  function UnsubscribeLoop(
    channels: map<string, set<SubscriberId>>, names: seq<string>, id: SubscriberId, toUnsubscribe: set<string>)
    : Unsubscribing
    decreases names
  {
    if names == [] then Unsubscribing(channels, toUnsubscribe, true)
    else if names[0] !in channels then Unsubscribing(channels, toUnsubscribe, false)
    else if id !in channels[names[0]] then UnsubscribeLoop(channels, names[1..], id, toUnsubscribe)
    else
      var after := channels[names[0]] - {id};
      UnsubscribeLoop(channels[names[0] := after], names[1..], id,
                      if after == {} then toUnsubscribe + {names[0]} else toUnsubscribe)
  }

  function AfterUnsubscribe(s: State, names: seq<string>, id: SubscriberId): State {
    var r := UnsubscribeLoop(s.channels, names, id, {});
    State(r.channels, if r.ok then s.backend - r.toUnsubscribe else s.backend)
  }

  lemma {:induction false} UnsubscribeLoopRemoves(
    channels: map<string, set<SubscriberId>>, names: seq<string>, id: SubscriberId, toUnsubscribe: set<string>)
    ensures var r := UnsubscribeLoop(channels, names, id, toUnsubscribe);
            && r.channels.Keys == channels.Keys
            && (forall c | c in channels :: r.channels[c] == channels[c] || r.channels[c] == channels[c] - {id})
            && (r.ok <==> forall n | n in names :: n in channels)
            && (r.ok ==> forall c | c in channels :: r.channels[c] == channels[c] - if c in names then {id} else {})
            && (forall c :: c in r.toUnsubscribe <==>
                  c in toUnsubscribe || (c in channels && id in channels[c] && r.channels[c] == {}))
    decreases names
  {
    if names != [] && names[0] in channels {
      var n := names[0];
      if id !in channels[n] {
        UnsubscribeLoopRemoves(channels, names[1..], id, toUnsubscribe);
      } else {
        var after := channels[n] - {id};
        UnsubscribeLoopRemoves(channels[n := after], names[1..], id,
                               if after == {} then toUnsubscribe + {n} else toUnsubscribe);
      }
      assert forall c :: c in names <==> c == n || c in names[1..];
    }
  }

  /** Unsubscribing keeps the invariant, even when the call raises on an unknown channel. */
  lemma {:induction false} UnsubscribeKeepsConsistent(s: State, names: seq<string>, id: SubscriberId)
    requires s.Consistent()
    ensures AfterUnsubscribe(s, names, id).Consistent()
    ensures (forall n | n in names :: n in s.channels) ==>
              forall c :: AfterUnsubscribe(s, names, id).SubscribersOf(c)
                       == s.SubscribersOf(c) - if c in names then {id} else {}
  {
    UnsubscribeLoopRemoves(s.channels, names, id, {});
  }

  /** Unsubscribing from all channels (`channels=None`) takes the subscriber out of every one. */
  lemma {:induction false} UnsubscribeFromAll(s: State, names: seq<string>, id: SubscriberId)
    requires forall c :: c in s.channels <==> c in names
    ensures !AfterUnsubscribe(s, names, id).HasChannel(id)
    ensures forall c :: id !in AfterUnsubscribe(s, names, id).Offered(c)
  {
    UnsubscribeLoopRemoves(s.channels, names, id, {});
  }

  // ----- what the backend is told -----

  /** Subscribing tells the backend of the channels that nobody listened to, and of nothing else. */
  lemma {:induction false} SubscribeTellsBackend(s: State, arbitrary: bool, names: seq<string>, id: SubscriberId)
    requires arbitrary || forall n | n in names :: n in s.channels
    ensures forall c :: c in AfterSubscribe(s, arbitrary, names, id).backend <==>
              c in s.backend || (c in names && s.SubscribersOf(c) == {})
  {
    SubscribeLoopOk(s.channels, arbitrary, names, id, {});
    forall c {
      SubscribeLoopAdds(s.channels, arbitrary, names, id, {}, c);
    }
  }

  /** Unsubscribing takes from the backend the channels that the subscriber was the last to listen to, and no others. */
  lemma {:induction false} UnsubscribeTellsBackend(s: State, names: seq<string>, id: SubscriberId)
    requires forall n | n in names :: n in s.channels
    ensures forall c :: c in AfterUnsubscribe(s, names, id).backend <==>
              c in s.backend && !(c in names && s.SubscribersOf(c) == {id})
  {
    UnsubscribeLoopRemoves(s.channels, names, id, {});
    var r := AfterUnsubscribe(s, names, id);
    forall c
      ensures c in r.backend <==> c in s.backend && !(c in names && s.SubscribersOf(c) == {id})
    {
      if c in s.channels && id in s.channels[c] && r.channels[c] == {} {
        assert s.channels[c] - {id} == {};
        assert s.channels[c] == {id};
      }
    }
  }

  // ----- runs -----

  datatype Call =
    | SubscribeCall(names: seq<string>, id: SubscriberId)
    | UnsubscribeCall(names: seq<string>, id: SubscriberId)

  /** The call names channels that are declared, or that may be made up. */
  predicate Proper(s: State, arbitrary: bool, c: Call) {
    match c
    case SubscribeCall(names, _) => arbitrary || forall n | n in names :: n in s.channels
    case UnsubscribeCall(names, _) => forall n | n in names :: n in s.channels
  }

  /** The proper calls are those that do not raise. */
  lemma {:induction false} ProperIff(s: State, arbitrary: bool, names: seq<string>, id: SubscriberId)
    ensures Proper(s, arbitrary, SubscribeCall(names, id)) <==> SubscribeLoop(s.channels, arbitrary, names, id, {}).ok
    ensures Proper(s, arbitrary, UnsubscribeCall(names, id)) <==> UnsubscribeLoop(s.channels, names, id, {}).ok
  {
    SubscribeLoopOk(s.channels, arbitrary, names, id, {});
    UnsubscribeLoopRemoves(s.channels, names, id, {});
  }

  function DoCall(s: State, arbitrary: bool, c: Call): State {
    match c
    case SubscribeCall(names, id) => AfterSubscribe(s, arbitrary, names, id)
    case UnsubscribeCall(names, id) => AfterUnsubscribe(s, names, id)
  }

  predicate AllProper(s: State, arbitrary: bool, calls: seq<Call>)
    decreases calls
  {
    calls != [] ==> Proper(s, arbitrary, calls[0]) && AllProper(DoCall(s, arbitrary, calls[0]), arbitrary, calls[1..])
  }

  function DoCalls(s: State, arbitrary: bool, calls: seq<Call>): State
    decreases calls
  {
    if calls == [] then s else DoCalls(DoCall(s, arbitrary, calls[0]), arbitrary, calls[1..])
  }

  /** Who listens to a channel after one more call, going by the call alone. */
  function Heard(before: set<SubscriberId>, channel: string, call: Call): set<SubscriberId> {
    match call
    case SubscribeCall(names, id) => before + if channel in names then {id} else {}
    case UnsubscribeCall(names, id) => before - if channel in names then {id} else {}
  }

  /** Who has subscribed to a channel and not unsubscribed since. */
  function Listening(before: set<SubscriberId>, channel: string, calls: seq<Call>): set<SubscriberId>
    decreases calls
  {
    if calls == [] then before else Listening(Heard(before, channel, calls[0]), channel, calls[1..])
  }

  /**
   After any run of proper calls the plugin and the backend fit together, and an
   event is offered to exactly those who have subscribed to its channel since.
   */
  lemma {:induction false} EventsReachListeners(s: State, arbitrary: bool, calls: seq<Call>)
    requires s.Consistent() && AllProper(s, arbitrary, calls)
    ensures var r := DoCalls(s, arbitrary, calls);
            && r.Consistent()
            && forall c :: r.Offered(c) == r.SubscribersOf(c) == Listening(s.SubscribersOf(c), c, calls)
    decreases calls
  {
    if calls != [] {
      match calls[0] {
        case SubscribeCall(names, id) => SubscribeKeepsConsistent(s, arbitrary, names, id);
        case UnsubscribeCall(names, id) => UnsubscribeKeepsConsistent(s, names, id);
      }
      var s1 := DoCall(s, arbitrary, calls[0]);
      EventsReachListeners(s1, arbitrary, calls[1..]);
      forall c
        ensures DoCalls(s1, arbitrary, calls[1..]).SubscribersOf(c) == Listening(s.SubscribersOf(c), c, calls)
      {
        assert s1.SubscribersOf(c) == Heard(s.SubscribersOf(c), c, calls[0]);
      }
    }
  }

  /** `_on_startup` subscribes the backend to all declared channels. */
  function Started(declared: set<string>): State {
    State(map c | c in declared :: {}, declared)
  }

  // ----- the class -----

  class ChannelsPlugin {
    const arbitraryChannelsAllowed: bool
    var channels: map<string, set<SubscriberId>>
    /** The channels the backend is subscribed to. */
    var backend: set<string>
    /** What was put on the streams of subscribers, `None` being the sentinel that ends a stream. */
    var puts: seq<(SubscriberId, Option<Payload>)>

    constructor (declared: set<string>, arbitraryChannelsAllowed: bool)
      ensures Abstract() == Started(declared) && Abstract().Consistent() && puts == []
      ensures backend == declared == channels.Keys && forall c | c in channels :: channels[c] == {}
      ensures this.arbitraryChannelsAllowed == arbitraryChannelsAllowed
    {
      this.arbitraryChannelsAllowed := arbitraryChannelsAllowed;
      channels := map c | c in declared :: {};
      backend := declared;
      puts := [];
    }

    function Abstract(): State
      reads this
    {
      State(channels, backend)
    }

    method Subscribe(names: seq<string>, subscriber: SubscriberId) returns (ok: bool)
      modifies this`channels, this`backend
      ensures Abstract() == AfterSubscribe(old(Abstract()), arbitraryChannelsAllowed, names, subscriber)
      ensures ok <==> arbitraryChannelsAllowed || forall n | n in names :: n in old(channels)
      ensures ok && old(Abstract()).Consistent() ==> Abstract().Consistent()
    {
      SubscribeLoopOk(channels, arbitraryChannelsAllowed, names, subscriber, {});
      if old(Abstract()).Consistent() && (arbitraryChannelsAllowed || forall n | n in names :: n in channels) {
        SubscribeKeepsConsistent(Abstract(), arbitraryChannelsAllowed, names, subscriber);
      }
      var channelsToSubscribe: set<string> := {};
      var i := 0;
      while i < |names|
        invariant 0 <= i <= |names|
        invariant SubscribeLoop(old(channels), arbitraryChannelsAllowed, names, subscriber, {})
               == SubscribeLoop(channels, arbitraryChannelsAllowed, names[i..], subscriber, channelsToSubscribe)
        invariant backend == old(backend)
      {
        var channel := names[i];
        assert names[i..][0] == channel && names[i..][1..] == names[i + 1..];
        ghost var before := channels;
        if channel !in channels {
          if !arbitraryChannelsAllowed {
            return false;
          }
          channels := channels[channel := {}];
        }
        if channels[channel] == {} {
          channelsToSubscribe := channelsToSubscribe + {channel};
        }
        channels := channels[channel := channels[channel] + {subscriber}];
        assert channels == before[channel := Members(before, channel) + {subscriber}];
        i := i + 1;
      }
      if channelsToSubscribe != {} {
        backend := backend + channelsToSubscribe;
      }
      ok := true;
    }

    /** A subscriber that is left without channels finds the sentinel on its stream. */
    method Unsubscribe(subscriber: SubscriberId, names: seq<string>) returns (ok: bool)
      modifies this`channels, this`backend, this`puts
      ensures Abstract() == AfterUnsubscribe(old(Abstract()), names, subscriber)
      ensures ok <==> forall n | n in names :: n in old(channels)
      ensures puts == old(puts) + if ok && !Abstract().HasChannel(subscriber) then [(subscriber, None)] else []
      ensures old(Abstract()).Consistent() ==> Abstract().Consistent()
    {
      UnsubscribeLoopRemoves(channels, names, subscriber, {});
      if old(Abstract()).Consistent() {
        UnsubscribeKeepsConsistent(Abstract(), names, subscriber);
      }
      var channelsToUnsubscribe: set<string> := {};
      var i := 0;
      while i < |names|
        invariant 0 <= i <= |names|
        invariant UnsubscribeLoop(old(channels), names, subscriber, {})
               == UnsubscribeLoop(channels, names[i..], subscriber, channelsToUnsubscribe)
        invariant backend == old(backend) && puts == old(puts)
      {
        var channel := names[i];
        assert names[i..][0] == channel && names[i..][1..] == names[i + 1..];
        i := i + 1;
        if channel !in channels {
          return false;
        }
        if subscriber !in channels[channel] {
          continue;
        }
        channels := channels[channel := channels[channel] - {subscriber}];
        if channels[channel] == {} {
          channelsToUnsubscribe := channelsToUnsubscribe + {channel};
        }
      }
      if forall c | c in channels :: subscriber !in channels[c] {
        puts := puts + [(subscriber, None)];
      }
      if channelsToUnsubscribe != {} {
        backend := backend - channelsToUnsubscribe;
      }
      ok := true;
    }

    /** One turn of `_sub_worker`, for an event the backend streams: once to every subscriber of the channel. */
    method Deliver(channel: string, payload: Payload)
      requires channel in backend && Abstract().Consistent()
      modifies this`puts
      ensures old(puts) <= puts
      ensures forall p | p in puts[|old(puts)|..] :: p.1 == Some(payload) && p.0 in Abstract().Offered(channel)
      ensures forall id | id in Abstract().Offered(channel) :: (id, Some(payload)) in puts[|old(puts)|..]
      ensures |puts| - |old(puts)| == |Abstract().Offered(channel)|
    {
      var rest := if channel in channels then channels[channel] else {};
      ghost var all := rest;
      ghost var made: seq<(SubscriberId, Option<Payload>)> := [];
      while rest != {}
        invariant rest <= all && puts == old(puts) + made
        invariant forall p | p in made :: p.1 == Some(payload) && p.0 in all
        invariant forall id | id in all - rest :: (id, Some(payload)) in made
        invariant |made| + |rest| == |all|
        decreases rest
      {
        var subscriber :| subscriber in rest;
        puts := puts + [(subscriber, Some(payload))];
        made := made + [(subscriber, Some(payload))];
        rest := rest - {subscriber};
      }
      assert puts[|old(puts)|..] == made;
    }
  }
}
