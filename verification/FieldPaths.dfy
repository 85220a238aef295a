/**
 Dotted paths to fields, as given to include, exclude and rename_fields. A path
 is the sequence of its segments; a set of paths loses one segment at every level
 of nesting (litestar/dto/_backend.py).
 */
module FieldPaths {
  type Segment = string
  type Path = seq<Segment>

  /** What is left of exclude, include and rename_fields at some place in the model. */
  datatype Paths = Paths(exclude: set<Path>, includes: set<Path>, rename: map<Path, string>)

  // ----- path sets -----

  /** `_filter_nested_field` */
  function FilterNestedField(s: set<Path>, name: Segment): set<Path> {
    set p | p in s && |p| > 1 && p[0] == name :: p[1..]
  }

  /** `_filter_nested_field_mapping` */
  function FilterNestedFieldMapping(m: map<Path, string>, name: Segment): map<Path, string> {
    map p | p in FilterNestedField(m.Keys, name) :: FilterMember(m.Keys, name, p); m[[name] + p]
  }

  lemma {:induction false} FilterMember(s: set<Path>, name: Segment, p: Path)
    requires p in FilterNestedField(s, name)
    ensures [name] + p in s
  {
    var q :| q in s && |q| > 1 && q[0] == name && q[1..] == p;
    assert q == [name] + p;
  }

  function FilterPaths(paths: Paths, name: Segment): Paths {
    Paths(FilterNestedField(paths.exclude, name), FilterNestedField(paths.includes, name),
          FilterNestedFieldMapping(paths.rename, name))
  }

  function Decimal(i: nat): string {
    if i < 10 then [DIGITS[i]] else Decimal(i / 10) + [DIGITS[i % 10]]
  }

  const DIGITS := "0123456789"

  /** The number that a numeral stands for. */
  function Numeral(s: string): int {
    if s == "" then 0 else 10 * Numeral(s[..|s| - 1]) + (s[|s| - 1] as int - '0' as int)
  }

  /** Positions are written as numerals, so that different ones make different segments. */
  lemma {:induction false} DecimalIsNumeral(i: nat)
    ensures Numeral(Decimal(i)) == i
  {
    assert DIGITS[i % 10] as int - '0' as int == i % 10;
    if i < 10 {
      assert Decimal(i)[..|Decimal(i)| - 1] == "";
    } else {
      DecimalIsNumeral(i / 10);
      assert Decimal(i)[..|Decimal(i)| - 1] == Decimal(i / 10);
    }
  }

  /** `_should_exclude_field` without its marks */
  predicate ExcludedByName(paths: Paths, name: string) {
    [name] in paths.exclude ||
    (paths.includes != {} && [name] !in paths.includes
     && !exists p | p in paths.includes :: |p| > 1 && p[0] == name)
  }

  // ----- peeling, in closed form -----

  /** The proper continuations of `p` in a set of paths. */
  function Peel(s: set<Path>, p: Path): set<Path> {
    set q | q in s && |q| > |p| && q[..|p|] == p :: q[|p|..]
  }

  lemma {:induction false} PeelMember(s: set<Path>, p: Path, q: Path)
    ensures q in Peel(s, p) <==> q != [] && p + q in s
  {
    assert (p + q)[..|p|] == p && (p + q)[|p|..] == q;
    if q in Peel(s, p) {
      var r :| r in s && |r| > |p| && r[..|p|] == p && r[|p|..] == q;
      assert r == p + q;
    }
  }

  lemma {:induction false} FilterIsPeel(s: set<Path>, name: Segment)
    ensures FilterNestedField(s, name) == Peel(s, [name])
  {
    forall q
      ensures q in FilterNestedField(s, name) <==> q in Peel(s, [name])
    {
      PeelMember(s, [name], q);
      if q in FilterNestedField(s, name) {
        var r :| r in s && |r| > 1 && r[0] == name && r[1..] == q;
        assert r == [name] + q;
      }
      if q != [] && [name] + q in s {
        assert ([name] + q)[1..] == q;
      }
    }
  }

  lemma {:induction false} PeelPeel(s: set<Path>, p: Path, q: Path)
    ensures Peel(Peel(s, p), q) == Peel(s, p + q)
  {
    forall r
      ensures r in Peel(Peel(s, p), q) <==> r in Peel(s, p + q)
    {
      PeelMember(Peel(s, p), q, r);
      PeelMember(s, p, q + r);
      PeelMember(s, p + q, r);
      assert p + (q + r) == (p + q) + r;
    }
  }

  function PeelMapping(m: map<Path, string>, p: Path): map<Path, string> {
    map q | q in Peel(m.Keys, p) :: PeelMember(m.Keys, p, q); m[p + q]
  }

  function PeelPaths(paths: Paths, p: Path): Paths {
    Paths(Peel(paths.exclude, p), Peel(paths.includes, p), PeelMapping(paths.rename, p))
  }

  lemma {:induction false} FilterMappingIsPeel(m: map<Path, string>, name: Segment)
    ensures FilterNestedFieldMapping(m, name) == PeelMapping(m, [name])
  {
    FilterIsPeel(m.Keys, name);
    assert FilterNestedFieldMapping(m, name).Keys == FilterNestedField(m.Keys, name);
  }

  lemma {:induction false} PeelMappingTwice(m: map<Path, string>, p: Path, q: Path)
    ensures PeelMapping(PeelMapping(m, p), q) == PeelMapping(m, p + q)
  {
    assert PeelMapping(m, p).Keys == Peel(m.Keys, p);
    PeelPeel(m.Keys, p, q);
    forall r | r in Peel(m.Keys, p + q)
      ensures PeelMapping(PeelMapping(m, p), q)[r] == PeelMapping(m, p + q)[r]
    {
      PeelMember(Peel(m.Keys, p), q, r);
      assert p + (q + r) == p + q + r;
    }
  }

  lemma {:induction false} FilterPeeled(paths: Paths, p: Path, name: Segment)
    ensures FilterPaths(PeelPaths(paths, p), name) == PeelPaths(paths, p + [name])
  {
    FilterIsPeel(Peel(paths.exclude, p), name);
    FilterIsPeel(Peel(paths.includes, p), name);
    FilterMappingIsPeel(PeelMapping(paths.rename, p), name);
    PeelPeel(paths.exclude, p, [name]);
    PeelPeel(paths.includes, p, [name]);
    PeelMappingTwice(paths.rename, p, [name]);
  }

  lemma {:induction false} PeelNothing(paths: Paths)
    requires [] !in paths.exclude && [] !in paths.includes && [] !in paths.rename
    ensures PeelPaths(paths, []) == paths
  {
    PeelNothingFrom(paths.exclude);
    PeelNothingFrom(paths.includes);
    PeelNothingFrom(paths.rename.Keys);
    forall q | q in paths.rename
      ensures PeelMapping(paths.rename, [])[q] == paths.rename[q]
    {
      assert [] + q == q;
    }
  }

  lemma {:induction false} PeelNothingFrom(s: set<Path>)
    requires [] !in s
    ensures Peel(s, []) == s
  {
    forall q: Path
      ensures q in Peel(s, []) <==> q in s
    {
      PeelMember(s, [], q);
      assert [] + q == q;
    }
  }

  // ----- exclusion by the whole path -----

  /**
   Exclusion by global rule: the path itself is excluded; or some include entry
   leads on from the parent place, and none equals or continues the path.
   */
  ghost predicate ExcludedByPath(paths: Paths, parent: Path, name: string) {
    var p := parent + [name];
    p in paths.exclude ||
    ((exists e | e in paths.includes :: parent < e) && !exists e | e in paths.includes :: p <= e)
  }

  lemma {:induction false} ExcludedByPathMeans(paths: Paths, parent: Path, name: string)
    ensures ExcludedByName(PeelPaths(paths, parent), name) <==> ExcludedByPath(paths, parent, name)
  {
    var p := parent + [name];
    var includes := Peel(paths.includes, parent);
    PeelMember(paths.exclude, parent, [name]);
    PeelMember(paths.includes, parent, [name]);
    if includes != {} {
      var q :| q in includes;
      PeelMember(paths.includes, parent, q);
      assert parent < parent + q;
    }
    forall e | e in paths.includes && parent < e
      ensures e[|parent|..] in includes
    {
      PeelMember(paths.includes, parent, e[|parent|..]);
      assert parent + e[|parent|..] == e;
    }
    forall q | q in includes && |q| > 1 && q[0] == name
      ensures parent + q in paths.includes && p <= parent + q
    {
      PeelMember(paths.includes, parent, q);
    }
    forall e | e in paths.includes && p <= e
      ensures e[|parent|..] in includes && (e == p || (|e[|parent|..]| > 1 && e[|parent|..][0] == name))
    {
      assert e[..|parent|] == parent;
    }
  }
}
