/** The JSON Schema trees the analysis walks: how a node's `type` is read, the
    shape the walkers rely on, and the descent rule shared by the deprecation
    scan, the codelist scan and the codelist annotation
    (cove/lib/common.py:463-485, 560-570, 589-601). */
module SchemaTree {
  import opened JsonValues
  import opened Text

  /** flattentool's `get_property_type_set`: a list-valued `type` as a set,
      any other value as a singleton, no `type` as the empty set. */
  function TypeSet(s: Json): set<Json>
  {
    match Get(s, "type")
    case None => {}
    case Some(t) => if t.Arr? then (set x | x in t.items) else {t}
  }

  /** `s.get('type') == t` */
  predicate TypeIs(s: Json, t: string)
  {
    Get(s, "type") == Some(Str(t))
  }

  /** `'array' in s.get('type', '')`: a substring test on a string `type`,
      a membership test on a list-valued one. */
  predicate MentionsArray(s: Json)
  {
    match Get(s, "type")
    case Some(Str(t)) => Contains(t, "array")
    case Some(Arr(items)) => Str("array") in items
    case _ => false
  }

  lemma TypeIsArrayMentionsArray(s: Json)
    requires TypeIs(s, "array") || Str("array") in TypeSet(s)
    ensures MentionsArray(s)
  {
    if TypeIs(s, "array") {
      assert "array"[..|"array"|] == "array";
    }
  }

  /** The shape of a schema node that the walkers read without raising:
      every node is an object; `properties` and `definitions` map names to
      nodes; `oneOf` lists nodes; `items` is a node and is present whenever
      `type` mentions "array"; `type` is a string or a list of strings;
      `codelist` is a string; `deprecated` carries a version and a
      description. */
  predicate SchemaShape(s: Json)
    decreases s, 1
  {
    && s.Obj?
    && (MentionsArray(s) ==> HasKey(s, "items"))
    && forall i :: 0 <= i < |s.members| ==> KeywordShape(s.members[i].0, s.members[i].1)
  }

  predicate KeywordShape(k: string, v: Json)
    decreases v, 2
  {
    if k == "properties" || k == "definitions" then
      v.Obj? && forall j :: 0 <= j < |v.members| ==> SchemaShape(v.members[j].1)
    else if k == "oneOf" then
      v.Arr? && forall j :: 0 <= j < |v.items| ==> SchemaShape(v.items[j])
    else if k == "items" then
      SchemaShape(v)
    else if k == "type" then
      v.Str? || (v.Arr? && forall j :: 0 <= j < |v.items| ==> v.items[j].Str?)
    else if k == "codelist" then
      v.Str?
    else if k == "deprecated" then
      HasKey(v, "deprecatedVersion") && HasKey(v, "description")
    else
      true
  }

  /** The members of a node's `properties` or `definitions`
      (`obj.get(k, {}).items()`): none when the member is missing or not a
      dict. */
  function Members(s: Json, k: string): (r: seq<(string, Json)>)
    ensures r != [] ==> HasKey(s, k) && s.members[KeyIndex(s.members, k).value].1 == Obj(r)
  {
    match Get(s, k)
    case Some(Obj(ms)) => ms
    case _ => []
  }

  /** The `items` node of a node that has one. */
  function Items(s: Json): (r: Json)
    requires HasKey(s, "items")
    ensures s.members[KeyIndex(s.members, "items").value].1 == r
  {
    s.members[KeyIndex(s.members, "items").value].1
  }

  /** Where the walks of lines 482-485, 567-570 and 598-601 go below a
      property value: into the value itself when its type is "object", into
      its `items` when its type is "array" and those items have (truthy)
      properties, and nowhere otherwise.  (A well-shaped "array" node always
      has `items`; the walks raise KeyError on one that has not.) */
  function Child(v: Json): (r: Option<Json>)
    ensures r.Some? ==> r.value == v || (HasKey(v, "items") && r.value == v.members[KeyIndex(v.members, "items").value].1)
  {
    if TypeIs(v, "object") then Some(v)
    else if TypeIs(v, "array") && HasKey(v, "items") then
      if Truthy(GetOr(Items(v), "properties", Null)) then Some(Items(v)) else None
    else None
  }

  lemma PropertiesShaped(s: Json)
    requires SchemaShape(s)
    ensures forall i :: 0 <= i < |Members(s, "properties")| ==> SchemaShape(Members(s, "properties")[i].1)
  {
    if Members(s, "properties") != [] {
      var pi := KeyIndex(s.members, "properties").value;
      assert KeywordShape(s.members[pi].0, s.members[pi].1);
    }
  }

  lemma ItemsShaped(s: Json)
    requires SchemaShape(s) && MentionsArray(s)
    ensures HasKey(s, "items") && SchemaShape(Items(s))
  {
    var ii := KeyIndex(s.members, "items").value;
    assert KeywordShape(s.members[ii].0, s.members[ii].1);
  }

  lemma ChildShaped(v: Json)
    requires SchemaShape(v)
    ensures TypeIs(v, "array") ==> HasKey(v, "items")
    ensures Child(v).Some? ==> SchemaShape(Child(v).value)
  {
    if TypeIs(v, "array") {
      TypeIsArrayMentionsArray(v);
      ItemsShaped(v);
    }
  }

  /** The walk over the properties of `s` reaches the property value `v` at
      the path `rel` (property names, relative to `s`). */
  ghost predicate Reaches(s: Json, rel: seq<string>, v: Json)
    decreases s, 1
  {
    |rel| >= 1 && exists i :: 0 <= i < |Members(s, "properties")| && ReachesVia(Members(s, "properties")[i], rel, v)
  }

  /** ... through the property `m`, whose name is `rel[0]`. */
  ghost predicate ReachesVia(m: (string, Json), rel: seq<string>, v: Json)
    requires |rel| >= 1
    decreases m.1, 2
  {
    && m.0 == rel[0]
    && if |rel| == 1 then v == m.1
       else Child(m.1).Some? && Reaches(Child(m.1).value, rel[1..], v)
  }

  /** Every property the walk visits, as `(path, value)` in visiting
      order: each property of `s` in turn, then whatever the walk visits
      below its child.  `cur` is the path of `s`. */
  function Walked(s: Json, cur: seq<string>): seq<(seq<string>, Json)>
    decreases s, 1
  {
    var ps := Members(s, "properties");
    if ps == [] then [] else WalkedAmong(ps, |ps|, cur)
  }

  /** What the walk visits for the first `n` properties. */
  function WalkedAmong(ms: seq<(string, Json)>, n: nat, cur: seq<string>): seq<(seq<string>, Json)>
    requires n <= |ms|
    decreases Obj(ms), 0, n
  {
    if n == 0 then [] else WalkedAmong(ms, n - 1, cur) + WalkedProperty(ms[n - 1].0, ms[n - 1].1, cur)
  }

  /** What the walk visits for one property: the property, then below it. */
  function WalkedProperty(prop: string, value: Json, cur: seq<string>): seq<(seq<string>, Json)>
    decreases value, 3
  {
    [(cur + [prop], value)] + WalkedBelow(value, cur + [prop])
  }

  /** What the walk visits below the property value `value` at `path`. */
  function WalkedBelow(value: Json, path: seq<string>): seq<(seq<string>, Json)>
    decreases value, 2
  {
    match Child(value)
    case Some(c) => Walked(c, path)
    case None => []
  }

  lemma {:induction false} WalkedAmongHas(ms: seq<(string, Json)>, n: nat, cur: seq<string>, i: nat, x: (seq<string>, Json))
    requires i < n <= |ms|
    requires x in WalkedProperty(ms[i].0, ms[i].1, cur)
    ensures x in WalkedAmong(ms, n, cur)
  {
    if i < n - 1 {
      WalkedAmongHas(ms, n - 1, cur, i, x);
    }
  }

  lemma {:induction false} WalkedAmongFrom(ms: seq<(string, Json)>, n: nat, cur: seq<string>, x: (seq<string>, Json))
    requires n <= |ms|
    requires x in WalkedAmong(ms, n, cur)
    ensures exists i :: 0 <= i < n && x in WalkedProperty(ms[i].0, ms[i].1, cur)
  {
    if x !in WalkedProperty(ms[n - 1].0, ms[n - 1].1, cur) {
      WalkedAmongFrom(ms, n - 1, cur, x);
    }
  }

  /** The walk visits every property value `Reaches` describes, at its path. */
  lemma {:induction false} WalkedComplete(s: Json, cur: seq<string>, rel: seq<string>, v: Json)
    requires Reaches(s, rel, v)
    ensures (cur + rel, v) in Walked(s, cur)
    decreases s
  {
    var i := ReachesFirstStep(s, rel, v);
    var ps := Members(s, "properties");
    var (prop, value) := ps[i];
    var path := cur + [prop];
    if |rel| == 1 {
      assert cur + rel == path;
    } else {
      var c := Child(value).value;
      assert cur + rel == path + rel[1..];
      WalkedComplete(c, path, rel[1..], v);
      assert WalkedBelow(value, path) == Walked(c, path);
    }
    assert (cur + rel, v) in WalkedProperty(prop, value, cur);
    WalkedAmongHas(ps, |ps|, cur, i, (cur + rel, v));
  }

  /** The property of `s` through which `Reaches` goes. */
  lemma ReachesFirstStep(s: Json, rel: seq<string>, v: Json) returns (i: nat)
    requires Reaches(s, rel, v)
    ensures i < |Members(s, "properties")| && |rel| >= 1 && rel[0] == Members(s, "properties")[i].0
    ensures |rel| == 1 ==> v == Members(s, "properties")[i].1
    ensures |rel| > 1 ==> Child(Members(s, "properties")[i].1).Some? && Reaches(Child(Members(s, "properties")[i].1).value, rel[1..], v)
  {
    i :| 0 <= i < |Members(s, "properties")| && ReachesVia(Members(s, "properties")[i], rel, v);
  }

  /** Everything the walk visits lies below `cur` and is described by `Reaches`. */
  lemma {:induction false} WalkedSound(s: Json, cur: seq<string>, x: (seq<string>, Json))
    requires x in Walked(s, cur)
    ensures |x.0| > |cur| && x.0[..|cur|] == cur
    ensures Reaches(s, x.0[|cur|..], x.1)
    decreases s
  {
    var ps := Members(s, "properties");
    WalkedAmongFrom(ps, |ps|, cur, x);
    var i :| 0 <= i < |ps| && x in WalkedProperty(ps[i].0, ps[i].1, cur);
    var (prop, value) := ps[i];
    var path := cur + [prop];
    if x == (path, value) {
      assert x.0[|cur|..] == [prop];
      assert ReachesVia(ps[i], [prop], value);
    } else {
      assert x in WalkedBelow(value, path);
      assert Child(value).Some?;
      var c := Child(value).value;
      assert x in Walked(c, path);
      WalkedSound(c, path, x);
      PathStep(x.0, cur, prop);
      ReachesThrough(s, i, x.0[|cur|..], x.1);
    }
  }

  /** A path below `cur + [prop]` is below `cur`, and continues with `prop`. */
  lemma PathStep(p: seq<string>, cur: seq<string>, prop: string)
    requires |p| > |cur| + 1 && p[..|cur| + 1] == cur + [prop]
    ensures p[..|cur|] == cur
    ensures p[|cur|..][0] == prop && p[|cur|..][1..] == p[|cur| + 1..]
  {
    assert p[..|cur|] == p[..|cur| + 1][..|cur|];
  }

  /** `Reaches` through the `i`-th property of `s`. */
  lemma ReachesThrough(s: Json, i: nat, rel: seq<string>, v: Json)
    requires i < |Members(s, "properties")| && |rel| > 1 && rel[0] == Members(s, "properties")[i].0
    requires Child(Members(s, "properties")[i].1).Some? && Reaches(Child(Members(s, "properties")[i].1).value, rel[1..], v)
    ensures Reaches(s, rel, v)
  {
    assert ReachesVia(Members(s, "properties")[i], rel, v);
  }
}
