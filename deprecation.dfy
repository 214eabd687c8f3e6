/** The deprecation scan (cove/lib/common.py:451-552): the deprecated
    property paths of the release-package schema, the data's values filed by
    index-free ("generic") path, and the report that joins the two. */
module Deprecation {
  import opened JsonValues
  import opened Text
  import opened SchemaTree

  // ---------------------------------------------------------------------
  // _get_schema_deprecated_paths
  // ---------------------------------------------------------------------

  /** `(deprecatedVersion, description)` of a `deprecated` object. */
  datatype Explanation = Explanation(version: Json, description: Json)

  /** An entry `(path, (version, description))` of the deprecated-path list. */
  datatype DeprecatedPath = DeprecatedPath(path: seq<string>, explanation: Explanation)

  /** jsonref's `__reference__`: for the property at a path that was reached
      through a `$ref`, the `$ref` object it was resolved from. */
  type References = map<seq<string>, Json>

  /** Every `deprecated` object found on a reference carries both members
      (the walk raises KeyError otherwise). */
  predicate ReferencesShape(refs: References)
  {
    forall p :: p in refs && HasKey(refs[p], "deprecated") ==> KeywordShape("deprecated", Get(refs[p], "deprecated").value)
  }

  /** The explanation a `deprecated` object gives. */
  function ExplanationOf(d: Json): Explanation
  {
    Explanation(GetOr(d, "deprecatedVersion", Null), GetOr(d, "description", Null))
  }

  /** Lines 470-480: why the property `value` at `path` is deprecated, if it
      is: its own `deprecated` object first, then its reference's. */
  function Deprecation(value: Json, path: seq<string>, refs: References): Option<Explanation>
  {
    match Get(value, "deprecated")
    case Some(d) => Some(ExplanationOf(d))
    case None =>
      if path in refs && HasKey(refs[path], "deprecated") then Some(ExplanationOf(Get(refs[path], "deprecated").value))
      else None
  }

  /** The entries a walk visiting `ws` appends, in visiting order: one for
      each visited property that is deprecated. */
  function DeprecatedOf(ws: seq<(seq<string>, Json)>, refs: References): seq<DeprecatedPath>
  {
    if ws == [] then [] else EntryFor(ws[0].0, ws[0].1, refs) + DeprecatedOf(ws[1..], refs)
  }

  /** The entry for the property `value` at `path`, if it is deprecated. */
  function EntryFor(path: seq<string>, value: Json, refs: References): seq<DeprecatedPath>
  {
    match Deprecation(value, path, refs)
    case Some(e) => [DeprecatedPath(path, e)]
    case None => []
  }

  lemma {:induction false} DeprecatedOfAppend(a: seq<(seq<string>, Json)>, b: seq<(seq<string>, Json)>, refs: References)
    ensures DeprecatedOf(a + b, refs) == DeprecatedOf(a, refs) + DeprecatedOf(b, refs)
    decreases |a|
  {
    if a == [] {
      assert a + b == b;
    } else {
      assert (a + b)[1..] == a[1..] + b;
      DeprecatedOfAppend(a[1..], b, refs);
    }
  }

  /** An entry is listed exactly when a visited property is deprecated. */
  lemma {:induction false} DeprecatedOfExactly(ws: seq<(seq<string>, Json)>, refs: References, x: DeprecatedPath)
    ensures x in DeprecatedOf(ws, refs) <==>
              exists w :: w in ws && w.0 == x.path && Deprecation(w.1, w.0, refs) == Some(x.explanation)
    decreases |ws|
  {
    if ws != [] {
      DeprecatedOfExactly(ws[1..], refs, x);
      assert ws == [ws[0]] + ws[1..];
      if w :| w in ws && w.0 == x.path && Deprecation(w.1, w.0, refs) == Some(x.explanation) {
        if w != ws[0] {
          assert w in ws[1..];
        }
      }
    }
  }


  /** `_get_schema_deprecated_paths(None, s, cur, acc)`: appends to `acc`
      the deprecated properties the walk below `s` visits.  (The guard
      `path not in deprecated_paths` of line 469 compares a path with
      `(path, explanation)` pairs and never fails.) */
  method CollectDeprecatedPaths(s: Json, cur: seq<string>, refs: References, acc: seq<DeprecatedPath>)
    returns (out: seq<DeprecatedPath>)
    requires SchemaShape(s) && ReferencesShape(refs)
    ensures out == acc + DeprecatedOf(Walked(s, cur), refs)
    decreases s, 1
  {
    out := acc;
    var ps := Members(s, "properties");
    PropertiesShaped(s);
    var i := 0;
    while i < |ps|
      invariant 0 <= i <= |ps|
      invariant out == acc + DeprecatedOf(WalkedAmong(ps, i, cur), refs)
    {
      var before := out;
      out := VisitProperty(ps[i].0, ps[i].1, cur, refs, before);
      CollectedStep(ps, i, cur, refs, acc, before, out);
      i := i + 1;
    }
    if ps == [] {
      assert Walked(s, cur) == [];
    }
  }

  lemma CollectedStep(ps: seq<(string, Json)>, i: nat, cur: seq<string>, refs: References,
                      acc: seq<DeprecatedPath>, before: seq<DeprecatedPath>, out: seq<DeprecatedPath>)
    requires i < |ps|
    requires before == acc + DeprecatedOf(WalkedAmong(ps, i, cur), refs)
    requires out == before + DeprecatedOf(WalkedProperty(ps[i].0, ps[i].1, cur), refs)
    ensures out == acc + DeprecatedOf(WalkedAmong(ps, i + 1, cur), refs)
  {
    DeprecatedOfAppend(WalkedAmong(ps, i, cur), WalkedProperty(ps[i].0, ps[i].1, cur), refs);
  }

  /** One iteration of the loop of lines 463-485: the property's own entry,
      then the walk below it. */
  method VisitProperty(prop: string, value: Json, cur: seq<string>, refs: References, acc: seq<DeprecatedPath>)
    returns (out: seq<DeprecatedPath>)
    requires SchemaShape(value) && ReferencesShape(refs)
    ensures out == acc + DeprecatedOf(WalkedProperty(prop, value, cur), refs)
    decreases value, 2
  {
    var path := cur + [prop];
    var mid := acc + EntryFor(path, value, refs);
    out := mid;
    ChildShaped(value);
    match Child(value) {
      case Some(c) =>
        out := CollectDeprecatedPaths(c, path, refs, mid);
        assert WalkedBelow(value, path) == Walked(c, path);
      case None =>
        assert mid == mid + DeprecatedOf(WalkedBelow(value, path), refs);
    }
    VisitedProperty(prop, value, cur, refs, acc, mid, out);
  }

  lemma VisitedProperty(prop: string, value: Json, cur: seq<string>, refs: References,
                        acc: seq<DeprecatedPath>, mid: seq<DeprecatedPath>, out: seq<DeprecatedPath>)
    requires mid == acc + EntryFor(cur + [prop], value, refs)
    requires out == mid + DeprecatedOf(WalkedBelow(value, cur + [prop]), refs)
    ensures out == acc + DeprecatedOf(WalkedProperty(prop, value, cur), refs)
  {
    var path := cur + [prop];
    var below := WalkedBelow(value, path);
    var w := WalkedProperty(prop, value, cur);
    assert w == [(path, value)] + below;
    assert w[0] == (path, value) && w[1..] == below;
    var e := EntryFor(path, value, refs);
    assert DeprecatedOf(w, refs) == e + DeprecatedOf(below, refs);
    assert (acc + e) + DeprecatedOf(below, refs) == acc + (e + DeprecatedOf(below, refs));
  }

  /** `_get_schema_deprecated_paths(schema_obj)` on the dereferenced
      release-package schema: every property the walk visits that is
      deprecated, on itself or on its reference, with its path from the
      root and its explanation, and nothing else. */
  method SchemaDeprecatedPaths(schema: Json, refs: References) returns (out: seq<DeprecatedPath>)
    requires SchemaShape(schema) && ReferencesShape(refs)
    ensures out == DeprecatedOf(Walked(schema, []), refs)
    ensures forall x :: x in out <==> exists v :: Reaches(schema, x.path, v) && Deprecation(v, x.path, refs) == Some(x.explanation)
  {
    out := CollectDeprecatedPaths(schema, [], refs, []);
    forall x {
      DeprecatedPathsExactly(schema, refs, x);
    }
  }

  /** The deprecated-path list holds every property the walk reaches that is
      deprecated, on itself or on its reference, with its path from the root
      and its explanation, and nothing else. */
  lemma DeprecatedPathsExactly(schema: Json, refs: References, x: DeprecatedPath)
    ensures x in DeprecatedOf(Walked(schema, []), refs) <==>
              exists v :: Reaches(schema, x.path, v) && Deprecation(v, x.path, refs) == Some(x.explanation)
  {
    DeprecatedOfExactly(Walked(schema, []), refs, x);
    if x in DeprecatedOf(Walked(schema, []), refs) {
      var w :| w in Walked(schema, []) && w.0 == x.path && Deprecation(w.1, w.0, refs) == Some(x.explanation);
      WalkedSound(schema, [], w);
      assert w.0[0..] == w.0;
    }
    if v :| Reaches(schema, x.path, v) && Deprecation(v, x.path, refs) == Some(x.explanation) {
      WalkedComplete(schema, [], x.path, v);
      assert [] + x.path == x.path;
    }
  }
}
