/** Content negotiation by the Accept header (litestar/datastructures/headers.py). */
module AcceptHeader {
  import opened Outcomes

  /**
   A parsed media type: its parameters (among them perhaps "q"), the quality that
   parameter gives (none if it is absent or no number), and its parameters as written.
   */
  datatype MediaType = MediaType(
    maintype: string, subtype: string, params: map<string, string>, quality: Option<int>, paramsText: string)
  {
    function Quality(): int {
      if "q" in params && quality.Some? then quality.value else 100
    }

    function Specificity(): nat {
      if maintype == "*" then 0
      else if subtype == "*" then 1
      else if params.Keys == {} || params.Keys == {"q"} then 2
      else 3
    }

    /** `provided.match(accepted)`: parameters other than q must be the same in the accepted type. */
    predicate Match(accepted: MediaType) {
      && (forall k | k in params && k != "q" :: k in accepted.params && accepted.params[k] == params[k])
      && (subtype == "*" || accepted.subtype == "*" || subtype == accepted.subtype)
      && (maintype == "*" || accepted.maintype == "*" || maintype == accepted.maintype)
    }

    function Text(): string {
      maintype + "/" + subtype + paramsText
    }

    /** Wildcards of a provided type are filled in from the accepted one. */
    function FilledFrom(accepted: MediaType): MediaType {
      this.(subtype := if subtype == "*" then accepted.subtype else subtype,
            maintype := if maintype == "*" then accepted.maintype else maintype)
    }
  }

  /** `a.priority < b.priority`, tuples being compared lexicographically. */
  predicate Below(a: MediaType, b: MediaType) {
    a.Quality() < b.Quality() || (a.Quality() == b.Quality() && a.Specificity() < b.Specificity())
  }

  predicate SamePriority(a: MediaType, b: MediaType) {
    a.Quality() == b.Quality() && a.Specificity() == b.Specificity()
  }

  // ----- what a media type says -----

  /** The concrete type lies in the range that the media type stands for, parameters aside. */
  predicate Covers(t: MediaType, maintype: string, subtype: string) {
    && (t.maintype == "*" || t.maintype == maintype)
    && (t.subtype == "*" || t.subtype == subtype)
  }

  /** Two types match if and only if some concrete type lies in both ranges, and the provided parameters are accepted. */
  lemma {:induction false} MatchMeansOverlap(provided: MediaType, accepted: MediaType)
    ensures provided.Match(accepted) <==>
            && (exists maintype, subtype ::
                  maintype != "*" && subtype != "*"
                  && Covers(provided, maintype, subtype) && Covers(accepted, maintype, subtype))
            && forall k | k in provided.params && k != "q" ::
                 k in accepted.params && accepted.params[k] == provided.params[k]
  {
    var maintype := if provided.maintype != "*" then provided.maintype
                    else if accepted.maintype != "*" then accepted.maintype else "text";
    var subtype := if provided.subtype != "*" then provided.subtype
                   else if accepted.subtype != "*" then accepted.subtype else "plain";
    if provided.Match(accepted) {
      assert Covers(provided, maintype, subtype) && Covers(accepted, maintype, subtype);
    }
  }

  /** Where one of two matching types is concrete the result is too, and says the same. */
  lemma {:induction false} FilledLiesInBoth(provided: MediaType, accepted: MediaType)
    requires provided.Match(accepted)
    ensures var r := provided.FilledFrom(accepted);
            && (provided.maintype != "*" ==> r.maintype == provided.maintype)
            && (provided.subtype != "*" ==> r.subtype == provided.subtype)
            && (accepted.maintype != "*" ==> r.maintype == accepted.maintype)
            && (accepted.subtype != "*" ==> r.subtype == accepted.subtype)
            && (provided.maintype == accepted.maintype ==> r.maintype == accepted.maintype)
            && (provided.subtype == accepted.subtype ==> r.subtype == accepted.subtype)
            && r.params == provided.params && r.quality == provided.quality
            && r.Text() == r.maintype + "/" + r.subtype + provided.paramsText
  {
  }

  /** In percent: what q says, and 100 without it. */
  ghost predicate HasQuality(t: MediaType, n: int) {
    if "q" in t.params then (t.quality == None && n == 100) || t.quality == Some(n) else n == 100
  }

  /** The quality counts first, and then how much the type leaves open. */
  lemma {:induction false} PriorityByQuality(a: MediaType, b: MediaType, m: int, n: int)
    requires HasQuality(a, m) && HasQuality(b, n)
    ensures m < n ==> Below(a, b)
    ensures m == n ==>
              && (a.maintype == "*" && b.maintype != "*" ==> Below(a, b))
              && (a.maintype != "*" && b.maintype != "*" && a.subtype == "*" && b.subtype != "*" ==> Below(a, b))
              && (a.params.Keys <= {"q"} && !(b.params.Keys <= {"q"}) && b.maintype != "*" && b.subtype != "*"
                  ==> Below(a, b))
    ensures SamePriority(a, b) ==> m == n && (a.maintype == "*" <==> b.maintype == "*")
  {
    forall t: MediaType | t.params.Keys <= {"q"}
      ensures t.params.Keys == {} || t.params.Keys == {"q"}
    {
      if "q" in t.params {
        assert t.params.Keys == {"q"};
      } else {
        assert t.params.Keys == {};
      }
    }
  }

  // ----- sorting -----

  predicate Descending(s: seq<MediaType>) {
    forall i, j | 0 <= i < j < |s| :: !Below(s[i], s[j])
  }

  /** The elements of the same priority as t, in order. */
  function Peers(s: seq<MediaType>, t: MediaType): seq<MediaType> {
    if s == [] then [] else (if SamePriority(s[0], t) then [s[0]] else []) + Peers(s[1..], t)
  }

  /** What `list.sort(reverse=True)` promises: descending, equals staying in order. */
  ghost predicate StablySorted(original: seq<MediaType>, sorted: seq<MediaType>) {
    Descending(sorted) && forall t :: Peers(sorted, t) == Peers(original, t)
  }

  lemma {:induction false} PeersOfNone(s: seq<MediaType>, t: MediaType)
    ensures Peers(s, t) == [] <==> forall i | 0 <= i < |s| :: !SamePriority(s[i], t)
    ensures forall p | p in Peers(s, t) :: p in s && SamePriority(p, t)
  {
    if s != [] {
      PeersOfNone(s[1..], t);
      assert forall i | 1 <= i < |s| :: s[i] == s[1..][i - 1];
    }
  }

  /** So the order is settled: no two lists are both a stable sort of the same. */
  lemma {:induction false} StableSortIsUnique(a: seq<MediaType>, b: seq<MediaType>)
    requires Descending(a) && Descending(b) && forall t :: Peers(a, t) == Peers(b, t)
    ensures a == b
  {
    if a == [] {
      if b != [] {
        PeersOfNone(a, b[0]);
        PeersOfNone(b, b[0]);
      }
    } else if b == [] {
      PeersOfNone(a, a[0]);
      PeersOfNone(b, a[0]);
    } else {
      HeadsAgree(a, b);
      forall t
        ensures Peers(a[1..], t) == Peers(b[1..], t)
      {
        var head := if SamePriority(a[0], t) then [a[0]] else [];
        assert Peers(a, t) == head + Peers(a[1..], t) && Peers(b, t) == head + Peers(b[1..], t);
        assert Peers(a[1..], t) == Peers(a, t)[|head|..] && Peers(b[1..], t) == Peers(b, t)[|head|..];
      }
      StableSortIsUnique(a[1..], b[1..]);
    }
  }

  lemma {:induction false} HeadsAgree(a: seq<MediaType>, b: seq<MediaType>)
    requires a != [] && b != [] && Descending(a) && Descending(b) && forall t :: Peers(a, t) == Peers(b, t)
    ensures a[0] == b[0]
  {
    PeersOfNone(a, b[0]);
    PeersOfNone(b, b[0]);
    PeersOfNone(a, a[0]);
    PeersOfNone(b, a[0]);
    assert Peers(a, a[0])[0] == a[0] && Peers(b, b[0])[0] == b[0];
    var i :| 0 <= i < |a| && SamePriority(a[i], b[0]);
    var j :| 0 <= j < |b| && SamePriority(b[j], a[0]);
    assert !Below(a[0], a[i]) && !Below(b[0], b[j]);
    assert SamePriority(a[0], b[0]);
    assert Peers(a, a[0]) == Peers(b, a[0]);
  }

  function Insert(x: MediaType, s: seq<MediaType>): seq<MediaType> {
    if s == [] then [x] else if Below(x, s[0]) then [s[0]] + Insert(x, s[1..]) else [x] + s
  }

  function Sort(s: seq<MediaType>): seq<MediaType> {
    if s == [] then [] else Insert(s[0], Sort(s[1..]))
  }

  lemma {:induction false} InsertKeepsOrder(x: MediaType, s: seq<MediaType>)
    requires Descending(s)
    ensures Descending(Insert(x, s))
    ensures forall i | 0 <= i < |Insert(x, s)| :: Insert(x, s)[i] == x || Insert(x, s)[i] in s
  {
    if s != [] && Below(x, s[0]) {
      InsertKeepsOrder(x, s[1..]);
      var rest, r := Insert(x, s[1..]), Insert(x, s);
      forall i | 0 <= i < |rest|
        ensures !Below(s[0], rest[i])
      {
        if rest[i] != x {
          var j :| 0 <= j < |s[1..]| && s[1..][j] == rest[i];
          assert s[j + 1] == rest[i];
        }
      }
      assert r == [s[0]] + rest;
    }
  }

  lemma {:induction false} InsertedPeers(x: MediaType, s: seq<MediaType>, t: MediaType)
    requires Descending(s)
    ensures Peers(Insert(x, s), t) == (if SamePriority(x, t) then [x] else []) + Peers(s, t)
  {
    if s != [] && Below(x, s[0]) {
      InsertedPeers(x, s[1..], t);
      assert Descending(s[1..]);
    }
  }

  lemma {:induction false} SortIsStable(s: seq<MediaType>)
    ensures StablySorted(s, Sort(s))
  {
    if s != [] {
      SortIsStable(s[1..]);
      InsertKeepsOrder(s[0], Sort(s[1..]));
      forall t
        ensures Peers(Sort(s), t) == Peers(s, t)
      {
        InsertedPeers(s[0], Sort(s[1..]), t);
      }
    }
  }

  // ----- the best match -----

  predicate Matched(accepted: MediaType, provided: seq<MediaType>) {
    exists j :: 0 <= j < |provided| && provided[j].Match(accepted)
  }

  /** The first accepted type, in the order given, that some provided type matches. */
  function FirstMatched(accepted: seq<MediaType>, provided: seq<MediaType>): (r: Option<MediaType>)
    ensures r.Some? ==> Matched(r.value, provided)
  {
    if accepted == [] then None
    else if Matched(accepted[0], provided) then Some(accepted[0])
    else FirstMatched(accepted[1..], provided)
  }

  /** The place in the header of the accepted type that counts: matched, of greatest priority, earliest among equals. */
  ghost predicate Preferred(header: seq<MediaType>, provided: seq<MediaType>, i: int) {
    && 0 <= i < |header|
    && Matched(header[i], provided)
    && (forall j | 0 <= j < |header| && Matched(header[j], provided) ::
          Below(header[j], header[i]) || (SamePriority(header[j], header[i]) && i <= j))
  }

  lemma {:induction false} FirstOfInserted(x: MediaType, s: seq<MediaType>, provided: seq<MediaType>)
    requires Descending(s)
    ensures FirstMatched(Insert(x, s), provided) ==
            var r := FirstMatched(s, provided);
            if Matched(x, provided) && (r.None? || !Below(x, r.value)) then Some(x) else r
  {
    if s != [] {
      if Below(x, s[0]) {
        FirstOfInserted(x, s[1..], provided);
      } else {
        FirstIsIn(s, provided);
        assert ([x] + s)[1..] == s;
      }
    }
  }

  lemma {:induction false} FirstIsIn(s: seq<MediaType>, provided: seq<MediaType>)
    ensures FirstMatched(s, provided).None? <==> forall i | 0 <= i < |s| :: !Matched(s[i], provided)
    ensures FirstMatched(s, provided).Some? ==> FirstMatched(s, provided).value in s
  {
    if s != [] {
      FirstIsIn(s[1..], provided);
      assert forall i | 1 <= i < |s| :: s[i] == s[1..][i - 1];
    }
  }

  lemma {:induction false} PreferredMoves(header: seq<MediaType>, provided: seq<MediaType>, i: int)
    requires header != [] && Preferred(header[1..], provided, i)
    requires Matched(header[0], provided) ==> Below(header[0], header[1..][i])
    ensures Preferred(header, provided, i + 1)
  {
    forall j | 0 <= j < |header| && Matched(header[j], provided)
      ensures Below(header[j], header[i + 1]) || (SamePriority(header[j], header[i + 1]) && i + 1 <= j)
    {
      if j > 0 {
        assert header[j] == header[1..][j - 1];
      }
    }
  }

  lemma {:induction false} FirstIsPreferred(header: seq<MediaType>, provided: seq<MediaType>)
    requires header != [] && Matched(header[0], provided)
    requires forall i | Preferred(header[1..], provided, i) :: !Below(header[0], header[1..][i])
    requires (forall i :: !Preferred(header[1..], provided, i)) ==> !exists t :: t in header[1..] && Matched(t, provided)
    ensures Preferred(header, provided, 0)
  {
    forall j | 0 <= j < |header| && Matched(header[j], provided)
      ensures Below(header[j], header[0]) || (SamePriority(header[j], header[0]) && 0 <= j)
    {
      if j > 0 {
        assert header[j] == header[1..][j - 1] && header[j] in header[1..];
        var i :| Preferred(header[1..], provided, i);
      }
    }
  }

  /** Going through the sorted list finds the preferred type of the header. */
  lemma {:induction false} SortedFindsPreferred(header: seq<MediaType>, provided: seq<MediaType>)
    returns (i: int)
    ensures var r := FirstMatched(Sort(header), provided);
            if r.Some? then Preferred(header, provided, i) && header[i] == r.value
            else forall t | t in header :: !Matched(t, provided)
  {
    i := 0;
    if header != [] {
      var x, rest := header[0], header[1..];
      i := SortedFindsPreferred(rest, provided);
      SortIsStable(rest);
      FirstOfInserted(x, Sort(rest), provided);
      var r := FirstMatched(Sort(rest), provided);
      if Matched(x, provided) && (r.None? || !Below(x, r.value)) {
        forall k | Preferred(rest, provided, k)
          ensures !Below(x, rest[k])
        {
          if r.Some? {
            PreferredIsUnique(rest, provided, i, k);
          }
        }
        FirstIsPreferred(header, provided);
        i := 0;
      } else if r.Some? {
        PreferredMoves(header, provided, i);
        i := i + 1;
      }
    }
  }

  /** Some accepted type is preferred as soon as one is matched. */
  lemma {:induction false} SomeIsPreferred(header: seq<MediaType>, provided: seq<MediaType>)
    ensures (exists t :: t in header && Matched(t, provided)) <==> exists i :: Preferred(header, provided, i)
  {
    var i := SortedFindsPreferred(header, provided);
  }

  lemma {:induction false} PreferredIsUnique(header: seq<MediaType>, provided: seq<MediaType>, i: int, j: int)
    requires Preferred(header, provided, i) && Preferred(header, provided, j)
    ensures i == j
  {
  }

  /** The first provided type that matches. */
  ghost predicate FirstToMatch(provided: seq<MediaType>, j: int, accepted: MediaType) {
    && 0 <= j < |provided|
    && provided[j].Match(accepted)
    && forall k | 0 <= k < j :: !provided[k].Match(accepted)
  }

  /** So there is always a result to be had. */
  lemma {:induction false} MatchedHasFirst(provided: seq<MediaType>, accepted: MediaType)
    ensures Matched(accepted, provided) <==> exists j :: FirstToMatch(provided, j, accepted)
  {
    if Matched(accepted, provided) {
      var j := 0;
      while !provided[j].Match(accepted)
        invariant 0 <= j < |provided|
        invariant forall k | 0 <= k < j :: !provided[k].Match(accepted)
        invariant exists k :: j <= k < |provided| && provided[k].Match(accepted)
        decreases |provided| - j
      {
        j := j + 1;
      }
      assert FirstToMatch(provided, j, accepted);
    }
  }

  class Accept {
    ghost const header: seq<MediaType>
    var acceptedTypes: seq<MediaType>

    ghost predicate Valid()
      reads this
    {
      acceptedTypes == Sort(header)
    }

    /** The types of the header, sorted in place. */
    constructor (header: seq<MediaType>)
      ensures Valid() && this.header == header && StablySorted(header, acceptedTypes)
    {
      this.header, acceptedTypes := header, header;
      new;
      SortInPlace();
      SortIsStable(header);
    }

    method SortInPlace()
      requires acceptedTypes == header
      modifies this
      ensures Valid()
    {
      var types := acceptedTypes;
      acceptedTypes := [];
      var i := |types|;
      while i > 0
        invariant 0 <= i <= |types| && acceptedTypes == Sort(types[i..])
      {
        i := i - 1;
        assert types[i..][1..] == types[i + 1..];
        acceptedTypes := Insert(types[i], acceptedTypes);
      }
      assert types[0..] == types;
    }

    /** The default if nothing matches, else the first provided type that matches the preferred accepted one. */
    method BestMatch(provided: seq<MediaType>, default: Option<string>) returns (best: Option<string>)
      requires Valid()
      ensures (forall t | t in header :: !Matched(t, provided)) ==> best == default
      ensures forall i, j | Preferred(header, provided, i) && FirstToMatch(provided, j, header[i]) ::
                best == Some(provided[j].FilledFrom(header[i]).Text())
    {
      ghost var p := SortedFindsPreferred(header, provided);
      ghost var first := FirstMatched(acceptedTypes, provided);
      var i := 0;
      while i < |acceptedTypes|
        invariant 0 <= i <= |acceptedTypes|
        invariant first == FirstMatched(acceptedTypes[i..], provided)
      {
        var accepted := acceptedTypes[i];
        assert acceptedTypes[i..][0] == accepted && acceptedTypes[i..][1..] == acceptedTypes[i + 1..];
        var j := 0;
        while j < |provided|
          invariant 0 <= j <= |provided|
          invariant forall k | 0 <= k < j :: !provided[k].Match(accepted)
        {
          if provided[j].Match(accepted) {
            assert first == Some(accepted);
            forall q | Preferred(header, provided, q)
              ensures q == p
            {
              PreferredIsUnique(header, provided, p, q);
            }
            return Some(provided[j].FilledFrom(accepted).Text());
          }
          j := j + 1;
        }
        i := i + 1;
      }
      best := default;
    }
  }
}
