/** `_get_json_data_generic_paths` (cove/lib/common.py:490-527): the data's
    scalar values filed under their "generic" path (the member names of
    their path, array indices left out), and the empty objects and arrays
    recorded at their own path. */
module GenericPaths {
  import opened JsonValues

  /** A value of the generic-path dict: a dict from concrete paths to the
      scalar values found there (`{}` when recorded for an empty object), or
      the `[]` recorded for an empty array. */
  datatype Occurrences = Leaves(at: map<Path, Json>) | EmptyList

  type GenericPathMap = map<Path, Occurrences>

  /** What the walk meets, in order: a scalar value at a concrete path, or an
      empty object or array at a concrete path. */
  datatype Event = Leaf(path: Path, value: Json) | Empty(path: Path, isObject: bool)

  /** The key of the generic-path dict an event is filed under. */
  function KeyOf(e: Event): Path
  {
    match e
    case Leaf(p, _) => StripIndices(p)
    case Empty(p, _) => p
  }

  /** Python's truth value of an `Occurrences`. */
  predicate Filled(o: Occurrences)
  {
    o.Leaves? && o.at != map[]
  }

  /** Lines 508-511 and 518-524: how one event changes the dict.  A scalar
      joins the dict of its generic path when that dict is non-empty, and
      otherwise replaces whatever was there. */
  function File(g: GenericPathMap, e: Event): (r: GenericPathMap)
    ensures r.Keys == g.Keys + {KeyOf(e)}
  {
    match e
    case Empty(p, isObject) => g[p := if isObject then Leaves(map[]) else EmptyList]
    case Leaf(p, v) =>
      var k := StripIndices(p);
      if k in g && Filled(g[k]) then g[k := Leaves(g[k].at[p := v])] else g[k := Leaves(map[p := v])]
  }

  /** The dict after the events `evs`, starting from `g`. */
  function FileAll(g: GenericPathMap, evs: seq<Event>): GenericPathMap
  {
    if evs == [] then g else File(FileAll(g, evs[..|evs| - 1]), evs[|evs| - 1])
  }

  lemma {:induction false} FileAllAppend(g: GenericPathMap, a: seq<Event>, b: seq<Event>)
    ensures FileAll(g, a + b) == FileAll(FileAll(g, a), b)
    decreases |b|
  {
    if b == [] {
      assert a + b == a;
    } else {
      assert (a + b)[..|a + b| - 1] == a + b[..|b| - 1];
      FileAllAppend(g, a, b[..|b| - 1]);
    }
  }

  /** The events the walk of the container `j` at `path` meets, in order. */
  function Events(j: Json, path: Path): seq<Event>
    decreases j, 2
  {
    match j
    case Obj(ms) => if ms == [] then [Empty(path, true)] else MemberEvents(ms, |ms|, path)
    case Arr(items) => if items == [] then [Empty(path, false)] else ItemEvents(items, |items|, path)
    case _ => []
  }

  /** ... for the first `n` members of an object. */
  function MemberEvents(ms: seq<(string, Json)>, n: nat, path: Path): seq<Event>
    requires n <= |ms|
    decreases Obj(ms), 1, n
  {
    if n == 0 then [] else MemberEvents(ms, n - 1, path) + ValueEvents(ms[n - 1].1, path + [Key(ms[n - 1].0)])
  }

  /** ... for the first `n` items of an array. */
  function ItemEvents(items: seq<Json>, n: nat, path: Path): seq<Event>
    requires n <= |items|
    decreases Arr(items), 1, n
  {
    if n == 0 then [] else ItemEvents(items, n - 1, path) + ValueEvents(items[n - 1], path + [Index(n - 1)])
  }

  /** ... for one member value or item at `p`: a container is walked, a
      scalar is met. */
  function ValueEvents(v: Json, p: Path): seq<Event>
    decreases v, 3
  {
    if IsContainer(v) then Events(v, p) else [Leaf(p, v)]
  }

  /** `_get_json_data_generic_paths(j, path, acc)` for a dict or list `j`. */
  method CollectGenericPaths(j: Json, path: Path, acc: GenericPathMap) returns (out: GenericPathMap)
    requires IsContainer(j)
    ensures out == FileAll(acc, Events(j, path))
    decreases j, 2
  {
    match j {
      case Obj(ms) =>
        if ms == [] {
          out := acc[path := Leaves(map[])];
          assert Events(j, path) == [Empty(path, true)];
          assert FileAll(acc, [Empty(path, true)]) == File(FileAll(acc, []), Empty(path, true));
        } else {
          assert Events(j, path) == MemberEvents(ms, |ms|, path);
          out := CollectMembers(ms, path, acc);
        }
      case Arr(items) =>
        if items == [] {
          out := acc[path := EmptyList];
          assert Events(j, path) == [Empty(path, false)];
          assert FileAll(acc, [Empty(path, false)]) == File(FileAll(acc, []), Empty(path, false));
        } else {
          assert Events(j, path) == ItemEvents(items, |items|, path);
          out := CollectItems(items, path, acc);
        }
    }
  }

  /** The loop over a non-empty dict's members. */
  method CollectMembers(ms: seq<(string, Json)>, path: Path, acc: GenericPathMap) returns (out: GenericPathMap)
    ensures out == FileAll(acc, MemberEvents(ms, |ms|, path))
    decreases Obj(ms), 1
  {
    out := acc;
    var i := 0;
    while i < |ms|
      invariant 0 <= i <= |ms|
      invariant out == FileAll(acc, MemberEvents(ms, i, path))
    {
      var before := out;
      out := VisitValue(ms[i].1, path + [Key(ms[i].0)], before);
      MemberStep(ms, i, path, acc, before, out);
      i := i + 1;
    }
  }

  /** The loop over a non-empty list's items. */
  method CollectItems(items: seq<Json>, path: Path, acc: GenericPathMap) returns (out: GenericPathMap)
    ensures out == FileAll(acc, ItemEvents(items, |items|, path))
    decreases Arr(items), 1
  {
    out := acc;
    var i := 0;
    while i < |items|
      invariant 0 <= i <= |items|
      invariant out == FileAll(acc, ItemEvents(items, i, path))
    {
      var before := out;
      out := VisitValue(items[i], path + [Index(i)], before);
      ItemStep(items, i, path, acc, before, out);
      i := i + 1;
    }
  }

  /** One iteration of the loop of lines 515-524. */
  method VisitValue(v: Json, p: Path, acc: GenericPathMap) returns (out: GenericPathMap)
    ensures out == FileAll(acc, ValueEvents(v, p))
    decreases v, 3
  {
    if IsContainer(v) {
      out := CollectGenericPaths(v, p, acc);
    } else {
      var k := StripIndices(p);
      if k in acc && Filled(acc[k]) {
        out := acc[k := Leaves(acc[k].at[p := v])];
      } else {
        out := acc[k := Leaves(map[p := v])];
      }
      assert [Leaf(p, v)] == [] + [Leaf(p, v)];
    }
  }

  lemma MemberStep(ms: seq<(string, Json)>, i: nat, path: Path, acc: GenericPathMap,
                   before: GenericPathMap, out: GenericPathMap)
    requires i < |ms|
    requires before == FileAll(acc, MemberEvents(ms, i, path))
    requires out == FileAll(before, ValueEvents(ms[i].1, path + [Key(ms[i].0)]))
    ensures out == FileAll(acc, MemberEvents(ms, i + 1, path))
  {
    FileAllAppend(acc, MemberEvents(ms, i, path), ValueEvents(ms[i].1, path + [Key(ms[i].0)]));
  }

  lemma ItemStep(items: seq<Json>, i: nat, path: Path, acc: GenericPathMap,
                 before: GenericPathMap, out: GenericPathMap)
    requires i < |items|
    requires before == FileAll(acc, ItemEvents(items, i, path))
    requires out == FileAll(before, ValueEvents(items[i], path + [Index(i)]))
    ensures out == FileAll(acc, ItemEvents(items, i + 1, path))
  {
    FileAllAppend(acc, ItemEvents(items, i, path), ValueEvents(items[i], path + [Index(i)]));
  }

  /** `_get_json_data_generic_paths(data)` */
  function GenericPathsOf(data: Json): GenericPathMap
  {
    FileAll(map[], Events(data, []))
  }

  // ---------------------------------------------------------------------
  // What the dict holds, for any sequence of events
  // ---------------------------------------------------------------------

  /** The dict has a key exactly for each event (and each key it started with). */
  lemma {:induction false} FileAllKeys(g: GenericPathMap, evs: seq<Event>, k: Path)
    ensures k in FileAll(g, evs) <==> k in g || exists e :: e in evs && KeyOf(e) == k
    decreases |evs|
  {
    if evs != [] {
      var init := evs[..|evs| - 1];
      FileAllKeys(g, init, k);
      assert evs == init + [evs[|evs| - 1]];
      if e :| e in evs && KeyOf(e) == k {
        if e != evs[|evs| - 1] {
          assert e in init;
        }
      }
    }
  }

  /** No empty container is recorded at a path that is also the generic
      path of a scalar. */
  ghost predicate NoClash(evs: seq<Event>)
  {
    forall i, i' :: 0 <= i < |evs| && 0 <= i' < |evs| && evs[i].Leaf? && evs[i'].Empty? ==>
      StripIndices(evs[i].path) != evs[i'].path
  }

  /** The concrete paths of the scalars filed under `k`. */
  ghost function LeafPaths(evs: seq<Event>, k: Path): set<Path>
  {
    set e | e in evs && e.Leaf? && StripIndices(e.path) == k :: e.path
  }

  /** The entry for `k` in `g` is the dict of exactly the scalars of `evs`
      filed under `k`, each with a value met there. */
  ghost predicate LeavesOf(g: GenericPathMap, evs: seq<Event>, k: Path)
  {
    && k in g && g[k].Leaves?
    && g[k].at.Keys == LeafPaths(evs, k)
    && forall p :: p in g[k].at ==> Leaf(p, g[k].at[p]) in evs
  }

  /** Without clashes, the entry for a generic path that has scalars is the
      dict of exactly those scalars' concrete paths, each with a value met
      there. */
  lemma {:induction false} FileAllLeaves(evs: seq<Event>, k: Path)
    requires NoClash(evs)
    requires LeafPaths(evs, k) != {}
    ensures LeavesOf(FileAll(map[], evs), evs, k)
    decreases |evs|
  {
    var init := evs[..|evs| - 1];
    var last := evs[|evs| - 1];
    NoClashInit(evs);
    LeafPathsLast(evs, k);
    var r := FileAll(map[], init);
    assert FileAll(map[], evs) == File(r, last);
    if last.Leaf? && StripIndices(last.path) == k {
      if LeafPaths(init, k) != {} {
        FileAllLeaves(init, k);
        FiledJoining(r, evs, k);
      } else {
        FreshLeafKey(evs, k);
        FiledFresh(r, evs, k);
      }
    } else {
      FileAllLeaves(init, k);
      if last.Empty? {
        EmptyNotLeafKey(evs, k);
      }
      FiledElsewhere(r, evs, k);
    }
  }

  /** A scalar joins the non-empty dict of its generic path. */
  lemma FiledJoining(r: GenericPathMap, evs: seq<Event>, k: Path)
    requires evs != [] && evs[|evs| - 1].Leaf? && StripIndices(evs[|evs| - 1].path) == k
    requires LeavesOf(r, evs[..|evs| - 1], k) && LeafPaths(evs[..|evs| - 1], k) != {}
    requires LeafPaths(evs, k) == LeafPaths(evs[..|evs| - 1], k) + {evs[|evs| - 1].path}
    ensures LeavesOf(File(r, evs[|evs| - 1]), evs, k)
  {
    var init := evs[..|evs| - 1];
    var last := evs[|evs| - 1];
    var p0 :| p0 in LeafPaths(init, k);
    assert p0 in r[k].at;
    var at' := r[k].at[last.path := last.value];
    assert File(r, last)[k] == Leaves(at');
    assert at'.Keys == r[k].at.Keys + {last.path};
    assert last in evs;
    forall p | p in at'
      ensures Leaf(p, at'[p]) in evs
    {
      if p != last.path {
        InInit(evs, Leaf(p, r[k].at[p]));
      } else {
        assert Leaf(p, at'[p]) == last;
      }
    }
  }

  /** The first scalar filed under `k` starts its dict. */
  lemma FiledFresh(r: GenericPathMap, evs: seq<Event>, k: Path)
    requires evs != [] && evs[|evs| - 1].Leaf? && StripIndices(evs[|evs| - 1].path) == k
    requires k !in r
    requires LeafPaths(evs, k) == {evs[|evs| - 1].path}
    ensures LeavesOf(File(r, evs[|evs| - 1]), evs, k)
  {
    var last := evs[|evs| - 1];
    assert File(r, last)[k] == Leaves(map[last.path := last.value]);
    assert last in evs;
  }

  /** An event filed under another key leaves `k`'s dict alone. */
  lemma FiledElsewhere(r: GenericPathMap, evs: seq<Event>, k: Path)
    requires evs != [] && KeyOf(evs[|evs| - 1]) != k
    requires LeavesOf(r, evs[..|evs| - 1], k)
    requires LeafPaths(evs, k) == LeafPaths(evs[..|evs| - 1], k)
    ensures LeavesOf(File(r, evs[|evs| - 1]), evs, k)
  {
    var init := evs[..|evs| - 1];
    assert File(r, evs[|evs| - 1])[k] == r[k];
    forall p | p in r[k].at
      ensures Leaf(p, r[k].at[p]) in evs
    {
      InInit(evs, Leaf(p, r[k].at[p]));
    }
  }

  lemma InInit(evs: seq<Event>, e: Event)
    requires evs != [] && e in evs[..|evs| - 1]
    ensures e in evs
  {
  }

  lemma NoClashInit(evs: seq<Event>)
    requires NoClash(evs) && evs != []
    ensures NoClash(evs[..|evs| - 1])
  {
    var init := evs[..|evs| - 1];
    forall i, i' | 0 <= i < |init| && 0 <= i' < |init| && init[i].Leaf? && init[i'].Empty?
      ensures StripIndices(init[i].path) != init[i'].path
    {
      assert init[i] == evs[i] && init[i'] == evs[i'];
    }
  }

  lemma LeafPathsLast(evs: seq<Event>, k: Path)
    requires evs != []
    ensures var last := evs[|evs| - 1];
            LeafPaths(evs, k) == LeafPaths(evs[..|evs| - 1], k) +
              (if last.Leaf? && StripIndices(last.path) == k then {last.path} else {})
  {
    assert evs == evs[..|evs| - 1] + [evs[|evs| - 1]];
  }

  /** The first scalar filed under `k` finds no entry there. */
  lemma FreshLeafKey(evs: seq<Event>, k: Path)
    requires NoClash(evs) && evs != []
    requires evs[|evs| - 1].Leaf? && StripIndices(evs[|evs| - 1].path) == k
    requires LeafPaths(evs[..|evs| - 1], k) == {}
    ensures k !in FileAll(map[], evs[..|evs| - 1])
  {
    var init := evs[..|evs| - 1];
    forall e | e in init
      ensures KeyOf(e) != k
    {
      if e.Empty? {
        var i' :| 0 <= i' < |init| && init[i'] == e;
        assert evs[i'] == e && evs[|evs| - 1].Leaf?;
      } else {
        assert e.path !in LeafPaths(init, k);
      }
    }
    FileAllKeys(map[], init, k);
  }

  /** An empty container is never recorded over scalars. */
  lemma EmptyNotLeafKey(evs: seq<Event>, k: Path)
    requires NoClash(evs) && evs != [] && evs[|evs| - 1].Empty?
    requires LeafPaths(evs[..|evs| - 1], k) != {}
    ensures evs[|evs| - 1].path != k
  {
    var init := evs[..|evs| - 1];
    var p0 :| p0 in LeafPaths(init, k);
    var e :| e in init && e.Leaf? && StripIndices(e.path) == k && e.path == p0;
    var i :| 0 <= i < |init| && init[i] == e;
    assert evs[i].Leaf?;
  }

  // ---------------------------------------------------------------------
  // What the walk meets, in terms of the data
  // ---------------------------------------------------------------------

  /** The data `j` holds `v` at the concrete path `rel`. */
  ghost predicate At(j: Json, rel: Path, v: Json)
    decreases |rel|
  {
    if rel == [] then v == j
    else match rel[0]
      case Key(n) => j.Obj? && exists i :: 0 <= i < |j.members| && j.members[i].0 == n && At(j.members[i].1, rel[1..], v)
      case Index(i) => j.Arr? && i < |j.items| && At(j.items[i], rel[1..], v)
  }

  /** A value the walk records: a scalar, an empty object or an empty array. */
  predicate Recorded(v: Json)
  {
    !IsContainer(v) || v == Obj([]) || v == Arr([])
  }

  /** The event for the recorded value `v` at `p`. */
  function EventFor(p: Path, v: Json): Event
  {
    if v == Obj([]) then Empty(p, true) else if v == Arr([]) then Empty(p, false) else Leaf(p, v)
  }

  lemma {:induction false} MemberEventsFrom(ms: seq<(string, Json)>, n: nat, path: Path, e: Event) returns (i: nat)
    requires n <= |ms| && e in MemberEvents(ms, n, path)
    ensures i < n && e in ValueEvents(ms[i].1, path + [Key(ms[i].0)])
  {
    if e in ValueEvents(ms[n - 1].1, path + [Key(ms[n - 1].0)]) {
      i := n - 1;
    } else {
      i := MemberEventsFrom(ms, n - 1, path, e);
    }
  }

  lemma {:induction false} ItemEventsFrom(items: seq<Json>, n: nat, path: Path, e: Event) returns (i: nat)
    requires n <= |items| && e in ItemEvents(items, n, path)
    ensures i < n && e in ValueEvents(items[i], path + [Index(i)])
  {
    if e in ValueEvents(items[n - 1], path + [Index(n - 1)]) {
      i := n - 1;
    } else {
      i := ItemEventsFrom(items, n - 1, path, e);
    }
  }

  lemma {:induction false} MemberEventsHas(ms: seq<(string, Json)>, n: nat, path: Path, i: nat, e: Event)
    requires i < n <= |ms| && e in ValueEvents(ms[i].1, path + [Key(ms[i].0)])
    ensures e in MemberEvents(ms, n, path)
  {
    if i < n - 1 {
      MemberEventsHas(ms, n - 1, path, i, e);
    }
  }

  lemma {:induction false} ItemEventsHas(items: seq<Json>, n: nat, path: Path, i: nat, e: Event)
    requires i < n <= |items| && e in ValueEvents(items[i], path + [Index(i)])
    ensures e in ItemEvents(items, n, path)
  {
    if i < n - 1 {
      ItemEventsHas(items, n - 1, path, i, e);
    }
  }

  /** A path below `path + [s]` is below `path`, and continues with `s`. */
  lemma PathStep(p: Path, path: Path, s: PathSeg)
    requires |p| >= |path| + 1 && p[..|path| + 1] == path + [s]
    ensures p[..|path|] == path
    ensures p[|path|..] != [] && p[|path|..][0] == s && p[|path|..][1..] == p[|path| + 1..]
  {
    assert p[..|path|] == p[..|path| + 1][..|path|];
  }

  /** Every event the walk of `j` at `path` meets is the event for a
      recorded value of `j`, at its path below `path`. */
  lemma {:induction false} ValueEventsSound(j: Json, path: Path, e: Event)
    requires e in ValueEvents(j, path)
    ensures |path| <= |e.path| && e.path[..|path|] == path
    ensures exists v :: At(j, e.path[|path|..], v) && Recorded(v) && e == EventFor(e.path, v)
    decreases j
  {
    if Recorded(j) {
      assert e == EventFor(path, j);
      assert e.path[|path|..] == [];
      assert At(j, [], j);
    } else if j.Obj? {
      var ms := j.members;
      var i := MemberEventsFrom(ms, |ms|, path, e);
      var p' := path + [Key(ms[i].0)];
      ValueEventsSound(ms[i].1, p', e);
      var v :| At(ms[i].1, e.path[|p'|..], v) && Recorded(v) && e == EventFor(e.path, v);
      PathStep(e.path, path, Key(ms[i].0));
      assert At(j, e.path[|path|..], v);
    } else {
      var items := j.items;
      var i := ItemEventsFrom(items, |items|, path, e);
      var p' := path + [Index(i)];
      ValueEventsSound(items[i], p', e);
      var v :| At(items[i], e.path[|p'|..], v) && Recorded(v) && e == EventFor(e.path, v);
      PathStep(e.path, path, Index(i));
      assert At(j, e.path[|path|..], v);
    }
  }

  /** The walk of `j` at `path` meets every recorded value of `j`. */
  lemma {:induction false} ValueEventsComplete(j: Json, path: Path, rel: Path, v: Json)
    requires At(j, rel, v) && Recorded(v)
    ensures EventFor(path + rel, v) in ValueEvents(j, path)
    decreases |rel|
  {
    if rel == [] {
      assert path + rel == path;
    } else {
      assert path + rel == (path + [rel[0]]) + rel[1..];
      match rel[0] {
        case Key(n) =>
          var ms := j.members;
          var i :| 0 <= i < |ms| && ms[i].0 == n && At(ms[i].1, rel[1..], v);
          ValueEventsComplete(ms[i].1, path + [Key(n)], rel[1..], v);
          MemberEventsHas(ms, |ms|, path, i, EventFor(path + rel, v));
        case Index(i) =>
          ValueEventsComplete(j.items[i], path + [Index(i)], rel[1..], v);
          ItemEventsHas(j.items, |j.items|, path, i, EventFor(path + rel, v));
      }
    }
  }

  /** The generic path of a non-empty path, from its first step. */
  lemma StripFirst(p: Path)
    requires p != []
    ensures StripIndices(p) == (if p[0].Key? then [p[0]] else []) + StripIndices(p[1..])
  {
    assert p == [p[0]] + p[1..];
    NamesAppend([p[0]], p[1..]);
    var a := Names([p[0]]);
    var b := Names(p[1..]);
    assert [p[0]][..0] == [];
    assert KeyPath(a + b) == KeyPath(a) + KeyPath(b);
  }

  /** In data without repeated member names, the value at the generic path
      of a scalar (when there is one) is never an empty object or array. */
  lemma {:induction false} ScalarsNotUnderEmpties(j: Json, p: Path, v: Json)
    requires DistinctKeys(j) && At(j, p, v) && !IsContainer(v)
    ensures forall w :: At(j, StripIndices(p), w) ==> w != Obj([]) && w != Arr([])
    decreases j
  {
    forall w | At(j, StripIndices(p), w)
      ensures w != Obj([]) && w != Arr([])
    {
      if p != [] && p[0].Key? {
        StripFirst(p);
        var n := p[0].name;
        var q := StripIndices(p);
        assert q[0] == Key(n) && q[1..] == StripIndices(p[1..]);
        var ms := j.members;
        var i :| 0 <= i < |ms| && ms[i].0 == n && At(ms[i].1, q[1..], w);
        var i' :| 0 <= i' < |ms| && ms[i'].0 == n && At(ms[i'].1, p[1..], v);
        assert i == i';
        ScalarsNotUnderEmpties(ms[i].1, p[1..], v);
      } else if p != [] {
        StripFirst(p);
      }
    }
  }

  /** Data without repeated member names never clashes. */
  lemma EventsNoClash(data: Json)
    requires IsContainer(data) && DistinctKeys(data)
    ensures NoClash(Events(data, []))
  {
    var evs := Events(data, []);
    assert evs == ValueEvents(data, []);
    forall i, i' | 0 <= i < |evs| && 0 <= i' < |evs| && evs[i].Leaf? && evs[i'].Empty?
      ensures StripIndices(evs[i].path) != evs[i'].path
    {
      var p := evs[i].path;
      var q := evs[i'].path;
      ValueEventsSound(data, [], evs[i]);
      ValueEventsSound(data, [], evs[i']);
      assert p[0..] == p && q[0..] == q;
      var v :| At(data, p, v) && Recorded(v) && evs[i] == EventFor(p, v);
      var w :| At(data, q, w) && Recorded(w) && evs[i'] == EventFor(q, w);
      ScalarsNotUnderEmpties(data, p, v);
    }
  }

  /** `_get_json_data_generic_paths(data)` has a key for the generic path of
      every scalar and for the path of every empty object or array, and no
      other key. */
  lemma GenericPathsKeys(data: Json, k: Path)
    requires IsContainer(data)
    ensures k in GenericPathsOf(data) <==> exists p, v :: At(data, p, v) && Recorded(v) && KeyOf(EventFor(p, v)) == k
  {
    var evs := Events(data, []);
    assert evs == ValueEvents(data, []);
    FileAllKeys(map[], evs, k);
    if k in GenericPathsOf(data) {
      var e :| e in evs && KeyOf(e) == k;
      ValueEventsSound(data, [], e);
      assert e.path[0..] == e.path;
    }
    if p, v :| At(data, p, v) && Recorded(v) && KeyOf(EventFor(p, v)) == k {
      ValueEventsComplete(data, [], p, v);
      assert [] + p == p;
    }
  }

  /** ... and, in data without repeated member names, the entry for the
      generic path of a scalar maps exactly the concrete paths of the
      scalars with that generic path to the values found there. */
  lemma GenericPathsLeaves(data: Json, k: Path, p0: Path, v0: Json)
    requires IsContainer(data) && DistinctKeys(data)
    requires At(data, p0, v0) && !IsContainer(v0) && StripIndices(p0) == k
    ensures k in GenericPathsOf(data) && GenericPathsOf(data)[k].Leaves?
    ensures forall p :: p in GenericPathsOf(data)[k].at <==>
                          StripIndices(p) == k && exists v :: At(data, p, v) && !IsContainer(v)
    ensures forall p :: p in GenericPathsOf(data)[k].at ==> At(data, p, GenericPathsOf(data)[k].at[p])
  {
    var evs := Events(data, []);
    assert evs == ValueEvents(data, []);
    EventsNoClash(data);
    ValueEventsComplete(data, [], p0, v0);
    assert [] + p0 == p0;
    assert p0 in LeafPaths(evs, k);
    FileAllLeaves(evs, k);
    var at := GenericPathsOf(data)[k].at;
    forall p | p in at
      ensures StripIndices(p) == k && At(data, p, at[p]) && !IsContainer(at[p])
    {
      LeafEventAt(data, p, at[p]);
    }
    forall p, v | StripIndices(p) == k && At(data, p, v) && !IsContainer(v)
      ensures p in at
    {
      ScalarLeafPath(data, p, v);
    }
  }

  lemma LeafEventAt(data: Json, p: Path, v: Json)
    requires IsContainer(data) && Leaf(p, v) in Events(data, [])
    ensures At(data, p, v) && !IsContainer(v)
  {
    assert Events(data, []) == ValueEvents(data, []);
    ValueEventsSound(data, [], Leaf(p, v));
    assert p[0..] == p;
  }

  lemma ScalarLeafPath(data: Json, p: Path, v: Json)
    requires IsContainer(data) && At(data, p, v) && !IsContainer(v)
    ensures p in LeafPaths(Events(data, []), StripIndices(p))
  {
    assert Events(data, []) == ValueEvents(data, []);
    ValueEventsComplete(data, [], p, v);
    assert [] + p == p;
  }
}
