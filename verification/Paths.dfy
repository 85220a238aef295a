/** Joining path fragments (litestar/utils/path.py). */
module Paths {

  // ----- the program -----

  /** `str.strip("/")`. */
  function Strip(p: string): (r: string)
    ensures r != "" ==> r[0] != '/' && r[|r| - 1] != '/'
    decreases |p|
  {
    if p == "" then ""
    else if p[0] == '/' then Strip(p[1..])
    else if p[|p| - 1] == '/' then Strip(p[..|p| - 1])
    else p
  }

  /** Every run of slashes becomes one. */
  function Collapse(p: string): string {
    if p == "" then ""
    else if |p| > 1 && p[0] == '/' && p[1] == '/' then Collapse(p[1..])
    else [p[0]] + Collapse(p[1..])
  }

  function NormalizePath(p: string): string {
    Collapse("/" + Strip(p))
  }

  /** `"/".join`. */
  function Joined(paths: seq<string>): string {
    if paths == [] then "" else if |paths| == 1 then paths[0] else paths[0] + ("/" + Joined(paths[1..]))
  }

  function JoinPaths(paths: seq<string>): string {
    NormalizePath(Joined(paths))
  }

  // ----- what a path means: its segments -----

  /** The characters up to the first slash. */
  function Word(p: string): (w: string)
    ensures |w| <= |p| && w == p[..|w|] && '/' !in w
    ensures |w| < |p| ==> p[|w|] == '/'
  {
    if p == "" || p[0] == '/' then "" else [p[0]] + Word(p[1..])
  }

  function Segments(p: string): (r: seq<string>)
    ensures Proper(r)
    decreases |p|
  {
    if p == "" then []
    else if p[0] == '/' then Segments(p[1..])
    else [Word(p)] + Segments(p[|Word(p)|..])
  }

  predicate Proper(segments: seq<string>) {
    forall i | 0 <= i < |segments| :: segments[i] != "" && '/' !in segments[i]
  }

  function RenderAll(segments: seq<string>): string {
    if segments == [] then "" else "/" + (segments[0] + RenderAll(segments[1..]))
  }

  function Render(segments: seq<string>): string {
    if segments == [] then "/" else RenderAll(segments)
  }

  // ----- the two agree -----

  /** A slash separates. */
  lemma {:induction false} SegmentsOfBoth(a: string, b: string)
    ensures Segments(a + ("/" + b)) == Segments(a) + Segments(b)
    decreases |a|
  {
    var s := a + ("/" + b);
    if a == "" {
      assert s == "/" + b && s[1..] == b;
    } else if a[0] == '/' {
      assert s[1..] == a[1..] + ("/" + b);
      SegmentsOfBoth(a[1..], b);
    } else {
      var w := Word(a);
      WordOfBoth(a, "/" + b);
      SegmentsOfBoth(a[|w|..], b);
      assert s[|w|..] == a[|w|..] + ("/" + b);
      assert ([w] + Segments(a[|w|..])) + Segments(b) == [w] + (Segments(a[|w|..]) + Segments(b));
    }
  }

  lemma {:induction false} WordOfBoth(a: string, b: string)
    requires b != "" && b[0] == '/'
    ensures Word(a + b) == Word(a)
  {
    if a == "" {
      assert a + b == b;
    } else {
      assert (a + b)[1..] == a[1..] + b;
      WordOfBoth(a[1..], b);
    }
  }

  lemma {:induction false} SegmentsOfWord(w: string)
    requires '/' !in w
    ensures Word(w) == w
  {
    if w != "" {
      assert '/' !in w[1..];
      SegmentsOfWord(w[1..]);
    }
  }

  /** Reading back what was rendered. */
  lemma {:induction false} SegmentsOfRendered(segments: seq<string>)
    requires Proper(segments)
    ensures Segments(Render(segments)) == Segments(RenderAll(segments)) == segments
  {
    if segments != [] {
      var w, rest := segments[0], segments[1..];
      var tail := RenderAll(rest);
      assert Proper(rest);
      SegmentsOfRendered(rest);
      var s := RenderAll(segments);
      assert s == "/" + (w + tail) && s[1..] == w + tail;
      SegmentsOfWord(w);
      if tail == "" {
        assert w + tail == w;
      } else {
        WordOfBoth(w, tail);
      }
      assert (w + tail)[|w|..] == tail;
    } else {
      assert "/"[1..] == "";
    }
  }

  lemma {:induction false} StripKeepsSegments(p: string)
    ensures Segments(Strip(p)) == Segments(p)
    decreases |p|
  {
    if p == "" {
    } else if p[0] == '/' {
      StripKeepsSegments(p[1..]);
    } else if p[|p| - 1] == '/' {
      var front := p[..|p| - 1];
      StripKeepsSegments(front);
      assert p == front + ("/" + "");
      SegmentsOfBoth(front, "");
    }
  }

  lemma {:induction false} CollapseWord(w: string, rest: string)
    requires '/' !in w
    ensures Collapse(w + rest) == w + Collapse(rest)
  {
    if w == "" {
      assert w + rest == rest;
    } else {
      assert '/' !in w[1..];
      assert (w + rest)[1..] == w[1..] + rest;
      CollapseWord(w[1..], rest);
    }
  }

  lemma {:induction false} CollapseRenders(p: string)
    requires p == "" || p[|p| - 1] != '/'
    ensures Collapse("/" + p) == Render(Segments(p))
    ensures p != "" ==> Segments(p) != []
    decreases |p|
  {
    var s := "/" + p;
    assert s[1..] == p;
    if p == "" {
    } else if p[0] == '/' {
      assert p == "/" + p[1..];
      CollapseRenders(p[1..]);
    } else {
      var w := Word(p);
      var rest := p[|w|..];
      assert p == w + rest;
      CollapseWord(w, rest);
      assert Collapse(s) == "/" + (w + Collapse(rest));
      var segments := Segments(rest);
      assert Segments(p) == [w] + segments && ([w] + segments)[1..] == segments;
      assert RenderAll(Segments(p)) == "/" + (w + RenderAll(segments));
      if rest != "" {
        assert rest == "/" + rest[1..];
        CollapseRenders(rest[1..]);
      }
    }
  }

  /** A path is normalised by writing a slash before each of its segments. */
  lemma {:induction false} NormalizeRenders(p: string)
    ensures NormalizePath(p) == Render(Segments(p))
    ensures Segments(NormalizePath(p)) == Segments(p)
    ensures NormalizePath(NormalizePath(p)) == NormalizePath(p)
  {
    StripKeepsSegments(p);
    CollapseRenders(Strip(p));
    SegmentsOfRendered(Segments(p));
    var n := NormalizePath(p);
    StripKeepsSegments(n);
    CollapseRenders(Strip(n));
  }

  /** Two at a time, as `functools.reduce` joins them. */
  function Join(a: string, b: string): string {
    JoinPaths([a, b])
  }

  /** Joining two paths is putting their segments together. */
  lemma {:induction false} JoinRenders(a: string, b: string)
    ensures Join(a, b) == Render(Segments(a) + Segments(b))
    ensures Segments(Join(a, b)) == Segments(a) + Segments(b)
    ensures NormalizePath(Join(a, b)) == Join(a, b)
  {
    var both := [a, b];
    assert both[1..] == [b] && Joined([b]) == b;
    assert Joined(both) == a + ("/" + b);
    SegmentsOfBoth(a, b);
    NormalizeRenders(a + ("/" + b));
  }

  /** Joining is associative. */
  lemma {:induction false} JoinIsAssociative(a: string, b: string, c: string)
    ensures Join(Join(a, b), c) == Join(a, Join(b, c))
  {
    var x, y, z := Segments(a), Segments(b), Segments(c);
    assert (x + y) + z == x + (y + z);
    JoinRendersTwice(a, b, c, x, y, z);
  }

  lemma {:induction false} JoinRendersTwice(
    a: string, b: string, c: string, x: seq<string>, y: seq<string>, z: seq<string>)
    requires x == Segments(a) && y == Segments(b) && z == Segments(c)
    ensures Join(Join(a, b), c) == Render((x + y) + z)
    ensures Join(a, Join(b, c)) == Render(x + (y + z))
  {
    JoinRenders(a, b);
    JoinRenders(b, c);
    JoinRenders(Join(a, b), c);
    JoinRenders(a, Join(b, c));
  }

  /** Joining to the empty path normalises. */
  lemma {:induction false} JoinToEmpty(a: string)
    ensures Join("", a) == NormalizePath(a)
  {
    JoinRenders("", a);
    NormalizeRenders(a);
    assert Segments("") + Segments(a) == Segments(a);
  }
}
