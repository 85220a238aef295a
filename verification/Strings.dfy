/** `str.split` and `str.join`, and how they undo each other. */
module Strings {

  /** Where a character first occurs, or the length of the string. */
  function Find(s: string, c: char): (i: nat)
    ensures i <= |s| && (i < |s| ==> s[i] == c)
  {
    if s == "" || s[0] == c then 0 else 1 + Find(s[1..], c)
  }

  /** `s.split(c)`. */
  function Split(s: string, c: char): (pieces: seq<string>)
    ensures pieces != []
    decreases |s|
  {
    var i := Find(s, c);
    if i == |s| then [s] else [s[..i]] + Split(s[i + 1..], c)
  }

  /** `delimiter.join(parts)`. */
  function Joined(delimiter: string, parts: seq<string>): string {
    if parts == [] then ""
    else if |parts| == 1 then parts[0]
    else parts[0] + (delimiter + Joined(delimiter, parts[1..]))
  }

  lemma {:induction false} FindInBoth(a: string, b: string, c: char)
    ensures Find(a + b, c) == if Find(a, c) < |a| then Find(a, c) else |a| + Find(b, c)
  {
    if a == "" {
      assert a + b == b;
    } else if a[0] != c {
      assert (a + b)[1..] == a[1..] + b;
      FindInBoth(a[1..], b, c);
    }
  }

  lemma {:induction false} SplitOfBoth(a: string, tail: string, c: char)
    requires tail != "" && tail[0] == c
    ensures Split(a + tail, c) == Split(a, c) + Split(tail[1..], c)
    decreases |a|
  {
    var i := Find(a, c);
    FindInBoth(a, tail, c);
    SlicesOfBoth(a, tail, i);
    if i < |a| {
      var rest := a[i + 1..];
      SplitOfBoth(rest, tail, c);
      SplitsAt(a + tail, c, i, rest + tail);
      SplitsAt(a, c, i, rest);
      Associative([a[..i]], Split(rest, c), Split(tail[1..], c));
    } else {
      SplitsAt(a + tail, c, i, tail[1..]);
    }
  }

  lemma {:induction false} SplitsAt(s: string, c: char, i: nat, rest: string)
    requires i == Find(s, c) < |s| && rest == s[i + 1..]
    ensures Split(s, c) == [s[..i]] + Split(rest, c)
  {
  }

  lemma {:induction false} SlicesOfBoth(a: string, b: string, i: nat)
    requires i <= |a|
    ensures (a + b)[..i] == a[..i]
    ensures i == |a| ==> a[..i] == a && (b != "" ==> (a + b)[i + 1..] == b[1..])
    ensures i < |a| ==> (a + b)[i + 1..] == a[i + 1..] + b
  {
  }

  lemma {:induction false} Associative<T>(a: seq<T>, b: seq<T>, c: seq<T>)
    ensures (a + b) + c == a + (b + c)
  {
  }

  /** Joining what a string was split into gives the string. */
  lemma {:induction false} JoinOfSplit(s: string, c: char)
    ensures Joined([c], Split(s, c)) == s
    decreases |s|
  {
    var i := Find(s, c);
    if i < |s| {
      var pieces := Split(s, c);
      JoinOfSplit(s[i + 1..], c);
      assert pieces[1..] == Split(s[i + 1..], c) && pieces[0] == s[..i];
      assert s == s[..i] + ([c] + s[i + 1..]);
    }
  }

  /** Every part split for itself; joining no parts gives what joining one empty part does. */
  function Pieces(parts: seq<string>, c: char): seq<string> {
    if parts == [] then [""]
    else if |parts| == 1 then Split(parts[0], c)
    else Split(parts[0], c) + Pieces(parts[1..], c)
  }

  lemma {:induction false} SplitOfJoin(parts: seq<string>, c: char)
    ensures Split(Joined([c], parts), c) == Pieces(parts, c)
    decreases |parts|
  {
    if |parts| > 1 {
      var rest := Joined([c], parts[1..]);
      SplitOfJoin(parts[1..], c);
      SplitOfBoth(parts[0], [c] + rest, c);
      assert ([c] + rest)[1..] == rest;
    }
  }

  /** When two lists of parts are joined to the same string. */
  lemma {:induction false} JoinedEqualIff(a: seq<string>, b: seq<string>, c: char)
    ensures Joined([c], a) == Joined([c], b) <==> Pieces(a, c) == Pieces(b, c)
  {
    SplitOfJoin(a, c);
    SplitOfJoin(b, c);
    JoinOfSplit(Joined([c], a), c);
    JoinOfSplit(Joined([c], b), c);
  }
}
