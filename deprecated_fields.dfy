/** `get_json_data_deprecated_fields` (cove/lib/common.py:530-552): the
    deprecated schema paths that occur in the data, grouped by field name,
    with the concrete places they occur. */
module DeprecatedFields {
  import opened JsonValues
  import opened Text
  import opened SchemaTree
  import opened Deprecation
  import opened GenericPaths

  // ---------------------------------------------------------------------
  // Python's ordering of concrete paths (tuples of str and int)
  // ---------------------------------------------------------------------

  /** Integers before strings: Python raises TypeError instead, but the
      paths sorted here share their generic path, so an integer is never
      compared with a string at their first difference. */
  predicate SegLt(a: PathSeg, b: PathSeg)
  {
    match a
    case Index(i) => (match b case Index(j) => i < j case Key(_) => true)
    case Key(x) => (match b case Index(_) => false case Key(y) => StrLt(x, y))
  }

  /** Tuple comparison: lexicographic, a proper prefix first. */
  predicate PathLt(p: Path, q: Path)
    decreases |p|
  {
    if p == [] then q != []
    else if q == [] then false
    else if p[0] != q[0] then SegLt(p[0], q[0])
    else PathLt(p[1..], q[1..])
  }

  lemma {:induction false} PathLtIrreflexive(p: Path)
    ensures !PathLt(p, p)
    decreases |p|
  {
    if p != [] {
      PathLtIrreflexive(p[1..]);
    }
  }

  lemma SegLtTransitive(a: PathSeg, b: PathSeg, c: PathSeg)
    requires SegLt(a, b) && SegLt(b, c)
    ensures SegLt(a, c)
  {
    if a.Key? {
      StrLtTransitive(a.name, b.name, c.name);
    }
  }

  lemma SegLtAsymmetric(a: PathSeg, b: PathSeg)
    requires SegLt(a, b)
    ensures !SegLt(b, a) && a != b
  {
    if a.Key? {
      StrLtAsymmetric(a.name, b.name);
      StrLtIrreflexive(a.name);
    }
  }

  lemma {:induction false} PathLtTransitive(p: Path, q: Path, r: Path)
    requires PathLt(p, q) && PathLt(q, r)
    ensures PathLt(p, r)
    decreases |p|
  {
    if p != [] && r != [] {
      if p[0] == q[0] && q[0] == r[0] {
        PathLtTransitive(p[1..], q[1..], r[1..]);
      } else if p[0] == q[0] {
        assert SegLt(q[0], r[0]);
      } else if q[0] == r[0] {
        assert SegLt(p[0], q[0]);
      } else {
        SegLtTransitive(p[0], q[0], r[0]);
        SegLtAsymmetric(p[0], r[0]);
      }
    }
  }

  lemma {:induction false} PathLtTotal(p: Path, q: Path)
    requires p != q
    ensures PathLt(p, q) || PathLt(q, p)
    decreases |p|
  {
    if p != [] && q != [] {
      if p[0] == q[0] {
        assert p == [p[0]] + p[1..] && q == [q[0]] + q[1..];
        PathLtTotal(p[1..], q[1..]);
      } else if p[0].Key? && q[0].Key? {
        StrLtTotal(p[0].name, q[0].name);
      } else if p[0].Index? && q[0].Index? {
        assert p[0].i != q[0].i;
      }
    }
  }

  lemma PathLtAsymmetric()
    ensures forall p, q :: PathLt(p, q) ==> !PathLt(q, p)
  {
    forall p, q | PathLt(p, q)
      ensures !PathLt(q, p)
    {
      if PathLt(q, p) {
        PathLtTransitive(p, q, p);
        PathLtIrreflexive(p);
      }
    }
  }

  /** `m` is the least path of `ps`. */
  predicate IsLeast(m: Path, ps: set<Path>)
  {
    m in ps && forall q :: q in ps ==> q == m || PathLt(m, q)
  }

  /** A finite set of paths has exactly one least element. */
  lemma {:induction false} LeastExists(ps: set<Path>)
    requires ps != {}
    ensures exists m :: IsLeast(m, ps)
    ensures forall m, m' :: IsLeast(m, ps) && IsLeast(m', ps) ==> m == m'
    decreases |ps|
  {
    var x :| x in ps;
    var rest := ps - {x};
    if rest == {} {
      assert ps == {x};
      assert IsLeast(x, ps);
    } else {
      LeastExists(rest);
      var m :| IsLeast(m, rest);
      PathLtTotal(x, m);
      if PathLt(x, m) {
        forall q | q in ps
          ensures q == x || PathLt(x, q)
        {
          if q != x && q != m {
            PathLtTransitive(x, m, q);
          }
        }
        assert IsLeast(x, ps);
      } else {
        assert IsLeast(m, ps);
      }
    }
    forall m, m' | IsLeast(m, ps) && IsLeast(m', ps)
      ensures m == m'
    {
      if m != m' {
        assert PathLt(m, m') && PathLt(m', m);
        PathLtTransitive(m, m', m);
        PathLtIrreflexive(m);
      }
    }
  }

  /** Ascending order without repeats. */
  predicate Ascending(r: seq<Path>)
  {
    forall i, j :: 0 <= i < j < |r| ==> PathLt(r[i], r[j])
  }

  lemma LeastFirst(ps: set<Path>, m: Path, rest: seq<Path>)
    requires IsLeast(m, ps) && Ascending(rest)
    requires forall p :: p in rest <==> p in ps - {m}
    ensures Ascending([m] + rest)
  {
    var r := [m] + rest;
    forall i, j | 0 <= i < j < |r|
      ensures PathLt(r[i], r[j])
    {
      if i == 0 {
        assert r[j] in rest;
      } else {
        assert r[i] == rest[i - 1] && r[j] == rest[j - 1];
      }
    }
  }

  /** `sorted(paths)` */
  function SortedPaths(ps: set<Path>): (r: seq<Path>)
    ensures |r| == |ps| && forall p :: p in r <==> p in ps
    ensures Ascending(r)
    decreases |ps|
  {
    if ps == {} then []
    else
      LeastExists(ps);
      var m :| IsLeast(m, ps);
      var rest := SortedPaths(ps - {m});
      LeastFirst(ps, m, rest);
      [m] + rest
  }

  // ---------------------------------------------------------------------
  // The slash-joined form of a path
  // ---------------------------------------------------------------------

  /** `"/".join(map(str, p[:-1]))`: the path of the object holding the field. */
  function Slashed(p: Path): string
  {
    if p == [] then "" else Join("/", SegTexts(p[..|p| - 1]))
  }

  function SlashedAll(ps: seq<Path>): (r: seq<string>)
    ensures |r| == |ps| && forall i :: 0 <= i < |ps| ==> r[i] == Slashed(ps[i])
  {
    if ps == [] then [] else SlashedAll(ps[..|ps| - 1]) + [Slashed(ps[|ps| - 1])]
  }

  // ---------------------------------------------------------------------
  // The deprecated paths found in the data, sorted by field name
  // ---------------------------------------------------------------------

  /** `tup[0][-1]`: the field name of a deprecated path (the walk never
      yields an empty path). */
  function FieldName(dp: DeprecatedPath): string
  {
    if dp.path == [] then "" else dp.path[|dp.path| - 1]
  }

  /** Line 533: the deprecated paths whose generic path occurs in the data,
      in schema order. */
  function InData(dps: seq<DeprecatedPath>, gp: GenericPathMap): (r: seq<DeprecatedPath>)
    ensures forall x :: x in r <==> x in dps && KeyPath(x.path) in gp
  {
    if dps == [] then []
    else
      var x := dps[|dps| - 1];
      InData(dps[..|dps| - 1], gp) + (if KeyPath(x.path) in gp then [x] else [])
  }

  /** Inserts `x` after every entry whose field name is not greater. */
  function InsertByName(s: seq<DeprecatedPath>, x: DeprecatedPath): (r: seq<DeprecatedPath>)
    ensures multiset(r) == multiset(s) + multiset{x}
    ensures r != [] && (r[|r| - 1] == x || (s != [] && r[|r| - 1] == s[|s| - 1]))
  {
    if s == [] then [x]
    else if StrLt(FieldName(x), FieldName(s[|s| - 1])) then
      assert s == s[..|s| - 1] + [s[|s| - 1]];
      InsertByName(s[..|s| - 1], x) + [s[|s| - 1]]
    else s + [x]
  }

  /** `sorted(s, key=field name)`: a stable sort. */
  function SortByName(s: seq<DeprecatedPath>): (r: seq<DeprecatedPath>)
    ensures multiset(r) == multiset(s)
  {
    if s == [] then []
    else
      assert s == s[..|s| - 1] + [s[|s| - 1]];
      InsertByName(SortByName(s[..|s| - 1]), s[|s| - 1])
  }

  predicate SortedByName(s: seq<DeprecatedPath>)
  {
    forall i :: 0 < i < |s| ==> StrLe(FieldName(s[i - 1]), FieldName(s[i]))
  }

  lemma SortedSnoc(s: seq<DeprecatedPath>, x: DeprecatedPath)
    requires SortedByName(s)
    requires s != [] ==> StrLe(FieldName(s[|s| - 1]), FieldName(x))
    ensures SortedByName(s + [x])
  {
    var r := s + [x];
    forall i | 0 < i < |r|
      ensures StrLe(FieldName(r[i - 1]), FieldName(r[i]))
    {
      if i < |s| {
        assert r[i - 1] == s[i - 1] && r[i] == s[i];
      }
    }
  }

  lemma {:induction false} InsertByNameSorted(s: seq<DeprecatedPath>, x: DeprecatedPath)
    requires SortedByName(s)
    ensures SortedByName(InsertByName(s, x))
    decreases |s|
  {
    if s == [] {
      assert InsertByName(s, x) == [x];
    } else {
      var init := s[..|s| - 1];
      var last := s[|s| - 1];
      if StrLt(FieldName(x), FieldName(last)) {
        assert SortedByName(init) by {
          forall i | 0 < i < |init|
            ensures StrLe(FieldName(init[i - 1]), FieldName(init[i]))
          {
            assert init[i - 1] == s[i - 1] && init[i] == s[i];
          }
        }
        InsertByNameSorted(init, x);
        var r := InsertByName(init, x);
        assert InsertByName(s, x) == r + [last];
        if r[|r| - 1] != x {
          assert r[|r| - 1] == s[|s| - 2];
          assert StrLe(FieldName(s[|s| - 2]), FieldName(last));
        }
        SortedSnoc(r, last);
      } else {
        if FieldName(x) != FieldName(last) {
          StrLtTotal(FieldName(x), FieldName(last));
        }
        SortedSnoc(s, x);
      }
    }
  }

  lemma {:induction false} SortByNameSorted(s: seq<DeprecatedPath>)
    ensures SortedByName(SortByName(s))
    decreases |s|
  {
    if s != [] {
      SortByNameSorted(s[..|s| - 1]);
      InsertByNameSorted(SortByName(s[..|s| - 1]), s[|s| - 1]);
    }
  }

  /** The last entry with field name `n`. */
  function LastNamed(s: seq<DeprecatedPath>, n: string): (r: Option<DeprecatedPath>)
    ensures r.Some? ==> r.value in s && FieldName(r.value) == n
    ensures r.None? <==> forall x :: x in s ==> FieldName(x) != n
  {
    if s == [] then None
    else if FieldName(s[|s| - 1]) == n then Some(s[|s| - 1])
    else
      assert s == s[..|s| - 1] + [s[|s| - 1]];
      LastNamed(s[..|s| - 1], n)
  }

  lemma {:induction false} InsertLastNamed(s: seq<DeprecatedPath>, x: DeprecatedPath, n: string)
    ensures LastNamed(InsertByName(s, x), n) == if FieldName(x) == n then Some(x) else LastNamed(s, n)
    decreases |s|
  {
    if s != [] {
      var init := s[..|s| - 1];
      var last := s[|s| - 1];
      if StrLt(FieldName(x), FieldName(last)) {
        InsertLastNamed(init, x, n);
        StrLtIrreflexive(FieldName(x));
      } else {
        var r := s + [x];
        assert r[..|r| - 1] == s;
      }
    }
  }

  /** The sort is stable: for each field name, the entry that comes last
      with that name is the same before and after sorting. */
  lemma {:induction false} SortLastNamed(s: seq<DeprecatedPath>, n: string)
    ensures LastNamed(SortByName(s), n) == LastNamed(s, n)
    decreases |s|
  {
    if s != [] {
      SortLastNamed(s[..|s| - 1], n);
      InsertLastNamed(SortByName(s[..|s| - 1]), s[|s| - 1], n);
    }
  }

  // ---------------------------------------------------------------------
  // The OrderedDict of lines 538-542
  // ---------------------------------------------------------------------

  /** A value of the OrderedDict: the concrete paths and the explanation. */
  datatype Entry = Entry(paths: set<Path>, explanation: Explanation)

  /** The entry a deprecated path contributes (its data dict's keys, `()`
      when the generic-path entry is not a dict of scalars). */
  function EntryOf(dp: DeprecatedPath, gp: GenericPathMap): Entry
  {
    var k := KeyPath(dp.path);
    Entry(if k in gp && gp[k].Leaves? then gp[k].at.Keys else {}, dp.explanation)
  }

  /** The OrderedDict after assigning the entries of `s` in order. */
  function Grouped(s: seq<DeprecatedPath>, gp: GenericPathMap): seq<(string, Entry)>
  {
    if s == [] then []
    else SetKey(Grouped(s[..|s| - 1], gp), FieldName(s[|s| - 1]), EntryOf(s[|s| - 1], gp))
  }

  predicate StrictlyIncreasing<V>(d: seq<(string, V)>)
  {
    forall a, b :: 0 <= a < b < |d| ==> StrLt(d[a].0, d[b].0)
  }

  /** Assigning a key no smaller than the last one either replaces the last
      entry or appends after every entry. */
  lemma AppendOrReplace<V>(g: seq<(string, V)>, m: string, e: V)
    requires StrictlyIncreasing(g)
    requires g != [] ==> StrLe(g[|g| - 1].0, m)
    ensures g != [] && g[|g| - 1].0 == m ==> SetKey(g, m, e) == g[|g| - 1 := (m, e)]
    ensures !(g != [] && g[|g| - 1].0 == m) ==>
              SetKey(g, m, e) == g + [(m, e)] && forall a :: 0 <= a < |g| ==> StrLt(g[a].0, m)
  {
    KeyIndexFirst(g, m);
    StrLtIrreflexive(m);
    if g != [] && g[|g| - 1].0 == m {
      assert forall a :: 0 <= a < |g| - 1 ==> StrLt(g[a].0, g[|g| - 1].0);
    } else {
      forall a | 0 <= a < |g|
        ensures StrLt(g[a].0, m)
      {
        if a < |g| - 1 {
          StrLtTransitive(g[a].0, g[|g| - 1].0, m);
        }
      }
    }
  }

  lemma SortedInit(s: seq<DeprecatedPath>)
    requires s != [] && SortedByName(s)
    ensures SortedByName(s[..|s| - 1])
    ensures |s| > 1 ==> StrLe(FieldName(s[|s| - 2]), FieldName(s[|s| - 1]))
  {
    var init := s[..|s| - 1];
    forall i | 0 < i < |init|
      ensures StrLe(FieldName(init[i - 1]), FieldName(init[i]))
    {
      assert init[i - 1] == s[i - 1] && init[i] == s[i];
    }
  }

  /** Assigning names in sorted order keeps the keys strictly increasing,
      the last key being the last name assigned. */
  lemma {:induction false} GroupedShape(s: seq<DeprecatedPath>, gp: GenericPathMap)
    requires SortedByName(s)
    ensures StrictlyIncreasing(Grouped(s, gp))
    ensures s != [] ==> Grouped(s, gp) != [] && Grouped(s, gp)[|Grouped(s, gp)| - 1].0 == FieldName(s[|s| - 1])
    decreases |s|
  {
    if s != [] {
      var init := s[..|s| - 1];
      var x := s[|s| - 1];
      SortedInit(s);
      GroupedShape(init, gp);
      var g := Grouped(init, gp);
      if init != [] {
        assert init[|init| - 1] == s[|s| - 2];
      }
      AppendOrReplace(g, FieldName(x), EntryOf(x, gp));
    }
  }

  /** Every key of the dict holds the entry of the last deprecated path with
      that field name. */
  lemma {:induction false} GroupedValues(s: seq<DeprecatedPath>, gp: GenericPathMap)
    requires SortedByName(s)
    ensures forall a :: 0 <= a < |Grouped(s, gp)| ==>
              LastNamed(s, Grouped(s, gp)[a].0).Some? &&
              Grouped(s, gp)[a].1 == EntryOf(LastNamed(s, Grouped(s, gp)[a].0).value, gp)
    decreases |s|
  {
    if s != [] {
      var init := s[..|s| - 1];
      var x := s[|s| - 1];
      var m := FieldName(x);
      SortedInit(s);
      GroupedShape(init, gp);
      GroupedValues(init, gp);
      var g := Grouped(init, gp);
      if init != [] {
        assert init[|init| - 1] == s[|s| - 2];
      }
      AppendOrReplace(g, m, EntryOf(x, gp));
      StrLtIrreflexive(m);
      var r := Grouped(s, gp);
      forall a | 0 <= a < |r|
        ensures LastNamed(s, r[a].0).Some? && r[a].1 == EntryOf(LastNamed(s, r[a].0).value, gp)
      {
        if a < |g| && r[a] == g[a] {
          if g != [] && g[|g| - 1].0 == m && a < |g| - 1 {
            assert StrLt(g[a].0, g[|g| - 1].0);
          }
        }
      }
    }
  }

  /** Assigning a key keeps every existing key in place and makes the
      assigned one present. */
  lemma SetKeyKeys<V>(g: seq<(string, V)>, m: string, e: V)
    ensures |SetKey(g, m, e)| >= |g|
    ensures forall a :: 0 <= a < |g| ==> SetKey(g, m, e)[a].0 == g[a].0
    ensures exists a :: 0 <= a < |SetKey(g, m, e)| && SetKey(g, m, e)[a].0 == m
  {
    var r := SetKey(g, m, e);
    match KeyIndex(g, m)
    case None => assert r[|g|].0 == m;
    case Some(i) => assert r[i].0 == m;
  }

  /** `k` is a key of the dict `d`. */
  predicate HasName<V>(d: seq<(string, V)>, k: string)
  {
    exists a :: 0 <= a < |d| && d[a].0 == k
  }

  /** Every field name of a deprecated path is a key of the dict. */
  lemma {:induction false} GroupedKeys(s: seq<DeprecatedPath>, gp: GenericPathMap)
    ensures forall x :: x in s ==> HasName(Grouped(s, gp), FieldName(x))
    decreases |s|
  {
    if s != [] {
      var init := s[..|s| - 1];
      var last := s[|s| - 1];
      GroupedKeys(init, gp);
      var g := Grouped(init, gp);
      SetKeyKeys(g, FieldName(last), EntryOf(last, gp));
      var r := Grouped(s, gp);
      assert s == init + [last];
      forall y | y in s
        ensures HasName(r, FieldName(y))
      {
        if y in init {
          var a :| 0 <= a < |g| && g[a].0 == FieldName(y);
          assert r[a].0 == FieldName(y);
        }
      }
    }
  }

  /** The concrete paths recorded for a deprecated field are exactly the
      places in the data holding a scalar under that field's generic path. */
  lemma EntryPathsInData(data: Json, dp: DeprecatedPath, p0: Path, v0: Json)
    requires IsContainer(data) && DistinctKeys(data)
    requires At(data, p0, v0) && !IsContainer(v0) && StripIndices(p0) == KeyPath(dp.path)
    ensures forall p :: p in EntryOf(dp, GenericPathsOf(data)).paths <==>
                          StripIndices(p) == KeyPath(dp.path) && exists v :: At(data, p, v) && !IsContainer(v)
  {
    GenericPathsLeaves(data, KeyPath(dp.path), p0, v0);
  }

  // ---------------------------------------------------------------------
  // get_json_data_deprecated_fields
  // ---------------------------------------------------------------------

  /** One value of the returned OrderedDict. */
  datatype FieldReport = FieldReport(paths: seq<string>, explanation: Explanation)

  /** Lines 546-549: the sorted concrete paths, each as the slash-joined path
      of the object that holds the field. */
  function ReportOf(e: Entry): FieldReport
  {
    FieldReport(SlashedAll(SortedPaths(e.paths)), e.explanation)
  }

  /** Line 533: the deprecated schema paths whose generic path is in the data. */
  function Hits(data: Json, schema: Json, refs: References): seq<DeprecatedPath>
  {
    InData(DeprecatedOf(Walked(schema, []), refs), GenericPathsOf(data))
  }

  /** Lines 537-542: assigns each deprecated path's entry under its field
      name, in the order given; `None` where Python raises AttributeError,
      an entry recorded for an empty array having no `.keys()`. */
  method GroupFields(sorted: seq<DeprecatedPath>, gp: GenericPathMap) returns (r: Option<seq<(string, Entry)>>)
    requires forall x :: x in sorted ==> KeyPath(x.path) in gp
    ensures r.None? <==> exists x :: x in sorted && gp[KeyPath(x.path)].EmptyList?
    ensures r.Some? ==> r.value == Grouped(sorted, gp)
  {
    var fields := [];
    var i := 0;
    while i < |sorted|
      invariant 0 <= i <= |sorted|
      invariant fields == Grouped(sorted[..i], gp)
      invariant LeavesUpTo(sorted, gp, i)
    {
      var x := sorted[i];
      var k := KeyPath(x.path);
      if gp[k].EmptyList? {
        assert x in sorted;
        return None;
      }
      LeavesStep(sorted, gp, i);
      GroupedStep(sorted, gp, i);
      fields := SetKey(fields, FieldName(x), Entry(gp[k].at.Keys, x.explanation));
      i := i + 1;
    }
    LeavesAll(sorted, gp);
    assert sorted[..i] == sorted;
    r := Some(fields);
  }

  /** Grouping one more path assigns that path's entry. */
  lemma GroupedStep(sorted: seq<DeprecatedPath>, gp: GenericPathMap, n: nat)
    requires n < |sorted| && forall x :: x in sorted ==> KeyPath(x.path) in gp
    requires gp[KeyPath(sorted[n].path)].Leaves?
    ensures Grouped(sorted[..n + 1], gp)
         == SetKey(Grouped(sorted[..n], gp), FieldName(sorted[n]),
                   Entry(gp[KeyPath(sorted[n].path)].at.Keys, sorted[n].explanation))
  {
    assert sorted[..n + 1][..n] == sorted[..n];
  }

  /** When every path has a dict of concrete paths, none has an empty list. */
  lemma LeavesAll(sorted: seq<DeprecatedPath>, gp: GenericPathMap)
    requires forall x :: x in sorted ==> KeyPath(x.path) in gp
    requires LeavesUpTo(sorted, gp, |sorted|)
    ensures !exists x :: x in sorted && gp[KeyPath(x.path)].EmptyList?
  {
    forall x | x in sorted
      ensures !gp[KeyPath(x.path)].EmptyList?
    {
      var j :| 0 <= j < |sorted| && sorted[j] == x;
    }
  }

  /** The first `n` paths have a dict of concrete paths in `gp`. */
  predicate LeavesUpTo(sorted: seq<DeprecatedPath>, gp: GenericPathMap, n: nat)
    requires n <= |sorted| && forall x :: x in sorted ==> KeyPath(x.path) in gp
  {
    forall j :: 0 <= j < n ==> gp[KeyPath(sorted[j].path)].Leaves?
  }

  lemma LeavesStep(sorted: seq<DeprecatedPath>, gp: GenericPathMap, n: nat)
    requires n < |sorted| && forall x :: x in sorted ==> KeyPath(x.path) in gp
    requires LeavesUpTo(sorted, gp, n) && gp[KeyPath(sorted[n].path)].Leaves?
    ensures LeavesUpTo(sorted, gp, n + 1)
  {
  }

  /** Lines 545-549: the report of every entry, keys unchanged. */
  method ReportAll(fields: seq<(string, Entry)>) returns (out: seq<(string, FieldReport)>)
    ensures |out| == |fields|
    ensures forall a :: 0 <= a < |out| ==> out[a] == (fields[a].0, ReportOf(fields[a].1))
  {
    out := [];
    var i := 0;
    while i < |fields|
      invariant 0 <= i <= |fields|
      invariant |out| == i
      invariant forall a :: 0 <= a < i ==> out[a] == (fields[a].0, ReportOf(fields[a].1))
    {
      out := out + [(fields[i].0, ReportOf(fields[i].1))];
      i := i + 1;
    }
  }

  /** The deprecated fields of `data`, or `None` where Python raises
      AttributeError: a deprecated path found in the data whose generic
      path was recorded for an empty array has no `.keys()`. */
  method DeprecatedFieldsOf(data: Json, schema: Json, refs: References) returns (r: Option<seq<(string, FieldReport)>>)
    requires IsContainer(data) && SchemaShape(schema) && ReferencesShape(refs)
    ensures r.None? <==> exists x :: x in Hits(data, schema, refs) && GenericPathsOf(data)[KeyPath(x.path)].EmptyList?
    ensures r.Some? ==> StrictlyIncreasing(r.value)
    ensures r.Some? ==> forall n :: HasName(r.value, n) <==> exists x :: x in Hits(data, schema, refs) && FieldName(x) == n
    ensures r.Some? ==> forall a :: 0 <= a < |r.value| ==>
              LastNamed(Hits(data, schema, refs), r.value[a].0).Some? &&
              r.value[a].1 == ReportOf(EntryOf(LastNamed(Hits(data, schema, refs), r.value[a].0).value, GenericPathsOf(data)))
  {
    var dps := SchemaDeprecatedPaths(schema, refs);
    var gp := CollectGenericPaths(data, [], map[]);
    var hits := InData(dps, gp);
    var sorted := SortByName(hits);
    SortedSameMembers(hits, sorted);
    var fields := GroupFields(sorted, gp);
    match fields {
      case None =>
        r := None;
      case Some(g) =>
        var out := ReportAll(g);
        r := Some(out);
        OutputMeaning(hits, sorted, gp, out);
    }
  }

  lemma SortedSameMembers(hits: seq<DeprecatedPath>, sorted: seq<DeprecatedPath>)
    requires sorted == SortByName(hits)
    ensures forall x :: x in sorted <==> x in hits
  {
    assert forall x :: x in sorted <==> x in multiset(sorted);
    assert forall x :: x in hits <==> x in multiset(hits);
  }

  /** What the grouped dict says about the unsorted hits, carried over to
      the output dict. */
  lemma OutputMeaning(hits: seq<DeprecatedPath>, sorted: seq<DeprecatedPath>, gp: GenericPathMap,
                      out: seq<(string, FieldReport)>)
    requires sorted == SortByName(hits)
    requires |out| == |Grouped(sorted, gp)|
    requires forall a :: 0 <= a < |out| ==> out[a] == (Grouped(sorted, gp)[a].0, ReportOf(Grouped(sorted, gp)[a].1))
    ensures StrictlyIncreasing(out)
    ensures forall n :: HasName(out, n) <==> exists x :: x in hits && FieldName(x) == n
    ensures forall a :: 0 <= a < |out| ==>
              LastNamed(hits, out[a].0).Some? && out[a].1 == ReportOf(EntryOf(LastNamed(hits, out[a].0).value, gp))
  {
    SortByNameSorted(hits);
    GroupedShape(sorted, gp);
    OutputNames(hits, sorted, gp, out);
    OutputValues(hits, sorted, gp, out);
  }

  lemma OutputNames(hits: seq<DeprecatedPath>, sorted: seq<DeprecatedPath>, gp: GenericPathMap,
                    out: seq<(string, FieldReport)>)
    requires sorted == SortByName(hits) && SortedByName(sorted)
    requires |out| == |Grouped(sorted, gp)|
    requires forall a :: 0 <= a < |out| ==> out[a].0 == Grouped(sorted, gp)[a].0
    ensures forall n :: HasName(out, n) <==> exists x :: x in hits && FieldName(x) == n
  {
    var g := Grouped(sorted, gp);
    GroupedValues(sorted, gp);
    GroupedKeys(sorted, gp);
    SortedSameMembers(hits, sorted);
    forall n
      ensures HasName(out, n) <==> exists x :: x in hits && FieldName(x) == n
    {
      if HasName(out, n) {
        var a :| 0 <= a < |out| && out[a].0 == n;
        assert LastNamed(sorted, g[a].0).Some?;
      }
      if x :| x in hits && FieldName(x) == n {
        assert HasName(g, n);
        var a :| 0 <= a < |g| && g[a].0 == n;
        assert out[a].0 == n;
      }
    }
  }

  lemma OutputValues(hits: seq<DeprecatedPath>, sorted: seq<DeprecatedPath>, gp: GenericPathMap,
                     out: seq<(string, FieldReport)>)
    requires sorted == SortByName(hits) && SortedByName(sorted)
    requires |out| == |Grouped(sorted, gp)|
    requires forall a :: 0 <= a < |out| ==> out[a] == (Grouped(sorted, gp)[a].0, ReportOf(Grouped(sorted, gp)[a].1))
    ensures forall a :: 0 <= a < |out| ==>
              LastNamed(hits, out[a].0).Some? && out[a].1 == ReportOf(EntryOf(LastNamed(hits, out[a].0).value, gp))
  {
    GroupedValues(sorted, gp);
    forall a | 0 <= a < |out|
      ensures LastNamed(hits, out[a].0).Some? && out[a].1 == ReportOf(EntryOf(LastNamed(hits, out[a].0).value, gp))
    {
      SortLastNamed(hits, out[a].0);
    }
  }
}
