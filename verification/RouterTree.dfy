/** Flattening nested routers (litestar/app.py): every handler once, with the routers above it. */
module RouterTree {
  import opened Outcomes
  import opened Layers

  /** What may be registered, controllers having been turned into routers. */
  datatype Item = Leaf(handler: Handler) | Nested(router: Router, items: seq<Item>)

  /** A handler and its preceding layers, the innermost first. */
  datatype Entry = Entry(handler: Handler, bases: seq<Router>)

  // ----- the program -----

  function IterHandlers(items: seq<Item>, bases: seq<Router>): seq<Entry>
    decreases items
  {
    if items == [] then []
    else
      var first := match items[0]
        case Leaf(h) => [Entry(h, bases)]
        case Nested(r, sub) => IterHandlers(sub, [r] + bases);
      first + IterHandlers(items[1..], bases)
  }

  function Merged(entries: seq<Entry>): seq<Handler> {
    if entries == [] then [] else [Merge(entries[0].handler, entries[0].bases)] + Merged(entries[1..])
  }

  method MergeEntries(entries: seq<Entry>) returns (handlers: seq<Handler>)
    ensures handlers == Merged(entries)
  {
    handlers := [];
    for i := 0 to |entries|
      invariant handlers + Merged(entries[i..]) == Merged(entries)
    {
      assert entries[i..][0] == entries[i] && entries[i..][1..] == entries[i + 1..];
      var merged := GetMergeOpts(entries[i].handler, entries[i].bases);
      Associative(handlers, [merged], Merged(entries[i + 1..]));
      handlers := handlers + [merged];
    }
  }

  lemma {:induction false} Associative(a: seq<Handler>, b: seq<Handler>, c: seq<Handler>)
    ensures (a + b) + c == a + (b + c)
  {
  }

  /** `_reduce_handlers`, the application being the outermost layer of all. */
  method ReduceHandlers(app: Router, items: seq<Item>) returns (handlers: seq<Handler>)
    requires AllValid(items)
    ensures handlers == EachMerged(Absorbed(items), app)
  {
    handlers := MergeEntries(IterHandlers(items, [app]));
    FlatteningIsAbsorbing(items, [app]);
    EachMergedByOne(Absorbed(items), app);
  }

  // ----- layer by layer -----

  /** Handlers as their constructors leave them. */
  ghost predicate AllValid(items: seq<Item>)
    decreases items
  {
    items != [] ==>
      && (match items[0] case Leaf(h) => h.Valid() case Nested(_, sub) => AllValid(sub))
      && AllValid(items[1..])
  }

  function EachMerged(handlers: seq<Handler>, r: Router): (merged: seq<Handler>)
    ensures |merged| == |handlers| && forall i | 0 <= i < |merged| :: merged[i] == Merge(handlers[i], [r])
  {
    if handlers == [] then [] else [Merge(handlers[0], [r])] + EachMerged(handlers[1..], r)
  }

  function EachMergedAll(handlers: seq<Handler>, bases: seq<Router>): (merged: seq<Handler>)
    ensures |merged| == |handlers| && forall i | 0 <= i < |merged| :: merged[i] == Merge(handlers[i], bases)
  {
    if handlers == [] then [] else [Merge(handlers[0], bases)] + EachMergedAll(handlers[1..], bases)
  }

  /** Eliminating routers from the inside out: each hands its own options to all the handlers below it. */
  function Absorbed(items: seq<Item>): seq<Handler>
    decreases items
  {
    if items == [] then []
    else
      var first := match items[0]
        case Leaf(h) => [h]
        case Nested(r, sub) => EachMerged(Absorbed(sub), r);
      first + Absorbed(items[1..])
  }

  lemma {:induction false} EachMergedByOne(handlers: seq<Handler>, r: Router)
    ensures EachMergedAll(handlers, [r]) == EachMerged(handlers, r)
  {
  }

  lemma {:induction false} AbsorbedIsValid(items: seq<Item>)
    requires AllValid(items)
    ensures forall i | 0 <= i < |Absorbed(items)| :: Absorbed(items)[i].Valid()
    decreases items
  {
    if items != [] {
      AbsorbedIsValid(items[1..]);
      match items[0]
      case Leaf(h) =>
      case Nested(r, sub) =>
        AbsorbedIsValid(sub);
        forall i | 0 <= i < |Absorbed(sub)|
          ensures EachMerged(Absorbed(sub), r)[i].Valid()
        {
          MergeKeepsValid(Absorbed(sub)[i], [r]);
        }
    }
  }

  lemma {:induction false} MergedOfBoth(a: seq<Entry>, b: seq<Entry>)
    ensures Merged(a + b) == Merged(a) + Merged(b)
  {
    if a == [] {
      assert a + b == b;
    } else {
      assert (a + b)[1..] == a[1..] + b;
      MergedOfBoth(a[1..], b);
    }
  }

  lemma {:induction false} EachMergedOfBoth(a: seq<Handler>, b: seq<Handler>, bases: seq<Router>)
    ensures EachMergedAll(a + b, bases) == EachMergedAll(a, bases) + EachMergedAll(b, bases)
  {
  }

  lemma {:induction false} EachMergedTwice(handlers: seq<Handler>, r: Router, bases: seq<Router>)
    requires forall i | 0 <= i < |handlers| :: handlers[i].Valid()
    ensures EachMergedAll(EachMerged(handlers, r), bases) == EachMergedAll(handlers, [r] + bases)
  {
    forall i | 0 <= i < |handlers|
      ensures Merge(EachMerged(handlers, r)[i], bases) == Merge(handlers[i], [r] + bases)
    {
      MergeTwice(handlers[i], [r] + bases);
      assert ([r] + bases)[1..] == bases;
    }
  }

  /** Merging every handler with all its layers at once is eliminating the routers from the inside out. */
  lemma {:induction false} FlatteningIsAbsorbing(items: seq<Item>, bases: seq<Router>)
    requires AllValid(items)
    ensures Merged(IterHandlers(items, bases)) == EachMergedAll(Absorbed(items), bases)
    decreases items
  {
    if items != [] {
      var rest := items[1..];
      FlatteningIsAbsorbing(rest, bases);
      match items[0] {
        case Leaf(h) =>
          MergedOfBoth([Entry(h, bases)], IterHandlers(rest, bases));
          EachMergedOfBoth([h], Absorbed(rest), bases);
        case Nested(r, sub) =>
          FlatteningIsAbsorbing(sub, [r] + bases);
          AbsorbedIsValid(sub);
          EachMergedTwice(Absorbed(sub), r, bases);
          MergedOfBoth(IterHandlers(sub, [r] + bases), IterHandlers(rest, bases));
          EachMergedOfBoth(EachMerged(Absorbed(sub), r), Absorbed(rest), bases);
      }
    }
  }

  // ----- where the handlers come from -----

  /** The position to take at every level. */
  datatype Address = Here(position: nat) | Down(position: nat, rest: Address)

  /** The handler at an address and the routers on the way to it. */
  function At(items: seq<Item>, address: Address, bases: seq<Router>): Option<Entry> {
    if address.position >= |items| then None
    else
      match (address, items[address.position])
      case (Here(_), Leaf(h)) => Some(Entry(h, bases))
      case (Down(_, rest), Nested(r, sub)) => At(sub, rest, [r] + bases)
      case (_, _) => None
  }

  /** Depth-first order. */
  predicate Before(a: Address, b: Address) {
    || a.position < b.position
    || (a.position == b.position && a.Down? && b.Down? && Before(a.rest, b.rest))
  }

  lemma {:induction false} BeforeIsStrict(a: Address)
    ensures !Before(a, a)
  {
    if a.Down? {
      BeforeIsStrict(a.rest);
    }
  }

  function Below(k: nat, addresses: seq<Address>): (r: seq<Address>)
    ensures |r| == |addresses| && forall i | 0 <= i < |r| :: r[i] == Down(k, addresses[i])
  {
    if addresses == [] then [] else [Down(k, addresses[0])] + Below(k, addresses[1..])
  }

  function First(item: Item, k: nat): seq<Address>
    decreases item, 1
  {
    match item
    case Leaf(h) => [Here(k)]
    case Nested(r, sub) => Below(k, Addresses(sub, 0))
  }

  /** The addresses of all handlers, the items standing at positions from k on. */
  function Addresses(items: seq<Item>, k: nat): seq<Address>
    decreases items, 0
  {
    if items == [] then [] else First(items[0], k) + Addresses(items[1..], k + 1)
  }

  lemma {:induction false} PositionsFrom(items: seq<Item>, k: nat, i: nat)
    requires i < |Addresses(items, k)|
    ensures k <= Addresses(items, k)[i].position < k + |items|
    decreases items
  {
    var n := |First(items[0], k)|;
    if i >= n {
      PositionsFrom(items[1..], k + 1, i - n);
    }
  }

  function MovedBack(a: Address, k: nat): Address
    requires a.position >= k
  {
    match a
    case Here(p) => Here(p - k)
    case Down(p, rest) => Down(p - k, rest)
  }

  function MovedOn(a: Address, k: nat): Address {
    match a
    case Here(p) => Here(p + k)
    case Down(p, rest) => Down(p + k, rest)
  }

  lemma {:induction false} AsManyAddresses(items: seq<Item>, k: nat, bases: seq<Router>)
    ensures |Addresses(items, k)| == |IterHandlers(items, bases)|
    decreases items
  {
    if items != [] {
      AsManyAddresses(items[1..], k + 1, bases);
      match items[0]
      case Leaf(_) =>
      case Nested(r, sub) => AsManyAddresses(sub, 0, [r] + bases);
    }
  }

  lemma {:induction false} EntryIsAtAddress(items: seq<Item>, k: nat, bases: seq<Router>, i: nat)
    requires i < |Addresses(items, k)| == |IterHandlers(items, bases)|
    ensures Addresses(items, k)[i].position >= k
    ensures At(items, MovedBack(Addresses(items, k)[i], k), bases) == Some(IterHandlers(items, bases)[i])
    decreases items
  {
    var n, address, rest := |First(items[0], k)|, Addresses(items, k)[i], items[1..];
    AsManyAddresses(rest, k + 1, bases);
    PositionsFrom(items, k, i);
    if i >= n {
      EntryIsAtAddress(rest, k + 1, bases, i - n);
    } else {
      match items[0]
      case Leaf(_) =>
      case Nested(r, sub) => EntryIsAtAddress(sub, 0, [r] + bases, i);
    }
  }

  lemma {:induction false} AddressesIncrease(items: seq<Item>, k: nat, i: nat, j: nat)
    requires i < j < |Addresses(items, k)|
    ensures Before(Addresses(items, k)[i], Addresses(items, k)[j])
    decreases items
  {
    var n := |First(items[0], k)|;
    if n <= i {
      AddressesIncrease(items[1..], k + 1, i - n, j - n);
    } else if j < n {
      match items[0]
      case Leaf(_) =>
      case Nested(_, sub) => AddressesIncrease(sub, 0, i, j);
    } else {
      PositionsFrom(items[1..], k + 1, j - n);
    }
  }

  lemma {:induction false} EveryHandlerHasItsAddress(items: seq<Item>, k: nat, address: Address, bases: seq<Router>)
    requires At(items, address, bases).Some?
    ensures MovedOn(address, k) in Addresses(items, k)
    decreases items
  {
    if address.position == 0 {
      match items[0]
      case Leaf(_) =>
      case Nested(r, sub) =>
        EveryHandlerHasItsAddress(sub, 0, address.rest, [r] + bases);
        assert MovedOn(address.rest, 0) == address.rest;
        var i :| 0 <= i < |Addresses(sub, 0)| && Addresses(sub, 0)[i] == address.rest;
        assert First(items[0], k)[i] == Down(k, address.rest);
    } else {
      EveryHandlerHasItsAddress(items[1..], k + 1, MovedBack(address, 1), bases);
    }
  }

  /**
   Flattening yields, in depth-first order, the handler at every address that has
   one, exactly once, together with the routers on the way there.
   */
  lemma {:induction false} FlatteningIsDepthFirst(items: seq<Item>, bases: seq<Router>)
    ensures var a, e := Addresses(items, 0), IterHandlers(items, bases);
            && |a| == |e|
            && (forall i | 0 <= i < |a| :: At(items, a[i], bases) == Some(e[i]))
            && (forall i, j | 0 <= i < j < |a| :: Before(a[i], a[j]) && a[i] != a[j])
            && (forall address :: At(items, address, bases).Some? ==> address in a)
  {
    var a, e := Addresses(items, 0), IterHandlers(items, bases);
    AsManyAddresses(items, 0, bases);
    forall i | 0 <= i < |a|
      ensures At(items, a[i], bases) == Some(e[i])
    {
      EntryIsAtAddress(items, 0, bases, i);
      assert MovedBack(a[i], 0) == a[i];
    }
    forall i, j | 0 <= i < j < |a|
      ensures Before(a[i], a[j]) && a[i] != a[j]
    {
      AddressesIncrease(items, 0, i, j);
      BeforeIsStrict(a[i]);
    }
    forall address | At(items, address, bases).Some?
      ensures address in a
    {
      EveryHandlerHasItsAddress(items, 0, address, bases);
      assert MovedOn(address, 0) == address;
    }
  }
}
