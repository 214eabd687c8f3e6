/** Codelist checking (cove/lib/common.py:555-683): the `isCodelist`
    annotation of the schema, the codelist-constrained schema paths, the
    walk over the data's values and the report of values missing from the
    loaded codelists. */
module Codelists {
  import opened JsonValues
  import opened Text
  import opened SchemaTree
  import opened GenericPaths

  // ---------------------------------------------------------------------
  // add_is_codelist
  // ---------------------------------------------------------------------

  /** `n['isCodelist'] = True` */
  function Mark(n: Json): Json
  {
    if n.Obj? then Obj(SetKey(n.members, "isCodelist", Bool(true))) else n
  }

  /** `v[k] = x` */
  function Replace(v: Json, k: string, x: Json): Json
  {
    if v.Obj? then Obj(SetKey(v.members, k, x)) else v
  }

  /** Lines 561-565: a property with a codelist is marked, on its `items`
      when its type mentions "array" (the enum sits on the items there) and
      on itself otherwise. */
  function MarkCodelist(v: Json): Json
  {
    if !HasKey(v, "codelist") then v
    else if MentionsArray(v) && HasKey(v, "items") then Replace(v, "items", Mark(Items(v)))
    else Mark(v)
  }

  /** `add_is_codelist(s)`, as the tree it leaves behind: every property is
      annotated, then every definition that has properties. */
  function Annotate(s: Json): Json
    decreases s, 2
  {
    var props := Members(s, "properties");
    var defs := Members(s, "definitions");
    var s1 := if props == [] then s else Replace(s, "properties", Obj(AnnotateProps(props, |props|)));
    if defs == [] then s1 else Replace(s1, "definitions", Obj(AnnotateDefs(defs, |defs|)))
  }

  /** The first `n` properties, annotated. */
  function AnnotateProps(ps: seq<(string, Json)>, n: nat): (r: seq<(string, Json)>)
    requires n <= |ps|
    ensures |r| == n && forall i :: 0 <= i < n ==> r[i] == (ps[i].0, AnnotateProperty(ps[i].1))
    decreases Obj(ps), 1, n
  {
    if n == 0 then [] else AnnotateProps(ps, n - 1) + [(ps[n - 1].0, AnnotateProperty(ps[n - 1].1))]
  }

  /** The first `n` definitions, those with properties annotated (lines 572-574). */
  function AnnotateDefs(ds: seq<(string, Json)>, n: nat): (r: seq<(string, Json)>)
    requires n <= |ds|
    ensures |r| == n && forall i :: 0 <= i < n ==> r[i] == (ds[i].0, AnnotateDefinition(ds[i].1))
    decreases Obj(ds), 1, n
  {
    if n == 0 then []
    else
      AnnotateDefs(ds, n - 1) + [(ds[n - 1].0, AnnotateDefinition(ds[n - 1].1))]
  }

  /** Lines 573-574 for one definition: annotated when it has properties. */
  function AnnotateDefinition(v: Json): Json
    decreases v, 3
  {
    if HasKey(v, "properties") then Annotate(v) else v
  }

  /** Lines 567-570: the descent below a property value. */
  function Descend(v: Json): Json
    decreases v, 3
  {
    if TypeIs(v, "object") then Annotate(v)
    else if TypeIs(v, "array") && HasKey(v, "items") && Truthy(GetOr(Items(v), "properties", Null)) then
      Replace(v, "items", Annotate(Items(v)))
    else v
  }

  /** One iteration of lines 560-570.  Python marks first and descends
      second; the two touch different members, so the order does not
      matter (`AnnotateInSourceOrder`) and this one lets the recursion
      go down the original tree. */
  function AnnotateProperty(v: Json): Json
    decreases v, 4
  {
    MarkCodelist(Descend(v))
  }

  /** `add_is_codelist(schema)` on a well-shaped schema (Python raises
      KeyError on an "array" node without `items`). */
  function AddIsCodelist(schema: Json): (r: Json)
    requires SchemaShape(schema)
    ensures forall rel, v :: Reaches(schema, rel, v) && HasKey(v, "codelist") ==>
              exists v' :: Reaches(r, rel, v') && CodelistMarked(v, v')
    ensures forall q :: MarkSite(schema, q) ==> Marked(NodeAt(r, q))
    ensures forall q :: Marked(NodeAt(r, q)) ==> MarkSite(schema, q) || Marked(NodeAt(schema, q))
    ensures forall q :: MarkFree(q) && Marked(NodeAt(schema, q)) ==> Marked(NodeAt(r, q))
    ensures Unmarked(r) == Unmarked(schema)
  {
    UnmarkedAnnotate(schema);
    forall q | MarkFree(q) && Marked(NodeAt(schema, q))
      ensures Marked(NodeAt(Annotate(schema), q))
    {
      AnnotateKeepsMarks(schema, q);
    }
    forall q | MarkSite(schema, q)
      ensures Marked(NodeAt(Annotate(schema), q))
    {
      AnnotateMarksSites(schema, q);
    }
    forall q | Marked(NodeAt(Annotate(schema), q))
      ensures MarkSite(schema, q) || Marked(NodeAt(schema, q))
    {
      AnnotateMarksOnly(schema, q);
    }
    forall rel, v | Reaches(schema, rel, v) && HasKey(v, "codelist")
      ensures exists v' :: Reaches(Annotate(schema), rel, v') && CodelistMarked(v, v')
    {
      AnnotateMarksReached(schema, rel, v);
    }
    Annotate(schema)
  }

  /** `v'` carries the mark for the codelist of `v`: on its items when the
      type of `v` mentions "array", on itself otherwise. */
  predicate CodelistMarked(v: Json, v': Json)
  {
    if MentionsArray(v) then HasKey(v', "items") && Get(Items(v'), "isCodelist") == Some(Bool(true))
    else Get(v', "isCodelist") == Some(Bool(true))
  }

  // Reading an annotated node.

  lemma NotContainsShort(s: string, sub: string)
    requires |s| < |sub|
    ensures !Contains(s, sub)
    decreases |s|
  {
    if s != [] {
      NotContainsShort(s[1..], sub);
    }
  }

  /** A node typed "object" does not mention "array". */
  lemma ObjectNotArray(v: Json)
    requires TypeIs(v, "object")
    ensures !MentionsArray(v)
  {
    var o := "object";
    assert o[..5] != "array" by { assert o[0] != "array"[0]; }
    assert o[1..][..5] != "array" by { assert o[1] != "array"[0]; }
    NotContainsShort(o[1..][1..], "array");
  }

  lemma GetReplace(v: Json, k: string, x: Json, k2: string)
    requires v.Obj?
    ensures Get(Replace(v, k, x), k2) == if k2 == k then Some(x) else Get(v, k2)
  {
    GetSetKey(v.members, k, x, k2);
  }

  lemma GetMark(n: Json, k: string)
    requires n.Obj?
    ensures Get(Mark(n), k) == if k == "isCodelist" then Some(Bool(true)) else Get(n, k)
  {
    GetSetKey(n.members, "isCodelist", Bool(true), k);
  }

  /** Annotating a node changes only its `properties` and `definitions`. */
  lemma GetAnnotate(s: Json, k: string)
    ensures Annotate(s).Obj? == s.Obj?
    ensures k != "properties" && k != "definitions" ==> Get(Annotate(s), k) == Get(s, k)
    ensures Members(Annotate(s), "properties") == AnnotateProps(Members(s, "properties"), |Members(s, "properties")|)
  {
    var props := Members(s, "properties");
    var defs := Members(s, "definitions");
    var s1 := if props == [] then s else Replace(s, "properties", Obj(AnnotateProps(props, |props|)));
    if s.Obj? {
      GetReplace(s, "properties", Obj(AnnotateProps(props, |props|)), k);
      GetReplace(s, "properties", Obj(AnnotateProps(props, |props|)), "properties");
      GetReplace(s, "properties", Obj(AnnotateProps(props, |props|)), "definitions");
      GetReplace(s1, "definitions", Obj(AnnotateDefs(defs, |defs|)), k);
      GetReplace(s1, "definitions", Obj(AnnotateDefs(defs, |defs|)), "properties");
    }
  }

  /** Marking or descending changes neither `type`, `codelist` nor
      `properties`. */
  lemma GetMarkCodelist(v: Json, k: string)
    requires v.Obj? && k != "isCodelist" && k != "items"
    ensures MarkCodelist(v).Obj?
    ensures Get(MarkCodelist(v), k) == Get(v, k)
  {
    GetMark(v, k);
    if HasKey(v, "items") {
      GetReplace(v, "items", Mark(Items(v)), k);
    }
  }

  lemma GetDescend(v: Json, k: string)
    requires v.Obj? && k != "items" && k != "properties" && k != "definitions"
    ensures Descend(v).Obj?
    ensures Get(Descend(v), k) == Get(v, k)
  {
    GetAnnotate(v, k);
    if HasKey(v, "items") {
      GetReplace(v, "items", Annotate(Items(v)), k);
    }
  }

  /** The walk sees a node only through its properties. */
  lemma ReachesSameProperties(a: Json, b: Json, rel: seq<string>, v: Json)
    requires Members(a, "properties") == Members(b, "properties") && Reaches(a, rel, v)
    ensures Reaches(b, rel, v)
  {
  }

  /** Every property of an annotated node is the annotated property. */
  lemma AnnotatedProperty(s: Json, i: nat)
    requires i < |Members(s, "properties")|
    ensures i < |Members(Annotate(s), "properties")|
    ensures Members(Annotate(s), "properties")[i] == (Members(s, "properties")[i].0, AnnotateProperty(Members(s, "properties")[i].1))
  {
    GetAnnotate(s, "properties");
  }

  /** An annotated property is marked for its codelist. */
  lemma AnnotatedPropertyMarked(v: Json)
    requires SchemaShape(v) && HasKey(v, "codelist")
    ensures CodelistMarked(v, AnnotateProperty(v))
  {
    var d := Descend(v);
    GetDescend(v, "codelist");
    GetDescend(v, "type");
    assert HasKey(d, "codelist") && MentionsArray(d) == MentionsArray(v);
    if MentionsArray(v) {
      ItemsShaped(v);
      var items := Items(v);
      assert SchemaShape(items);
      GetAnnotate(items, "type");
      if TypeIs(v, "array") && Truthy(GetOr(items, "properties", Null)) {
        GetReplace(v, "items", Annotate(items), "items");
        assert Items(d) == Annotate(items);
      } else {
        ObjectNotArrayOrPlain(v);
        assert Items(d) == items;
      }
      var marked := Replace(d, "items", Mark(Items(d)));
      GetReplace(d, "items", Mark(Items(d)), "items");
      GetMark(Items(d), "isCodelist");
      assert Items(marked) == Mark(Items(d));
    } else {
      GetMark(d, "isCodelist");
    }
  }

  /** A node whose descent does not go into its items keeps them. */
  lemma ObjectNotArrayOrPlain(v: Json)
    requires v.Obj? && MentionsArray(v) && HasKey(v, "items")
    requires !(TypeIs(v, "array") && Truthy(GetOr(Items(v), "properties", Null)))
    ensures HasKey(Descend(v), "items") && Items(Descend(v)) == Items(v)
  {
    if TypeIs(v, "object") {
      ObjectNotArray(v);
    }
  }

  /** Where the walk goes below an annotated property: below the annotated
      child, seeing the same properties. */
  lemma ChildAnnotated(v: Json)
    requires SchemaShape(v) && Child(v).Some?
    ensures Child(AnnotateProperty(v)).Some?
    ensures Members(Child(AnnotateProperty(v)).value, "properties") == Members(Annotate(Child(v).value), "properties")
  {
    if TypeIs(v, "object") {
      ChildAnnotatedObject(v);
    } else {
      ChildAnnotatedArray(v);
    }
  }

  lemma ChildAnnotatedObject(v: Json)
    requires SchemaShape(v) && TypeIs(v, "object")
    ensures Child(AnnotateProperty(v)) == Some(AnnotateProperty(v))
    ensures Members(AnnotateProperty(v), "properties") == Members(Annotate(v), "properties")
  {
    var d := Descend(v);
    GetDescend(v, "type");
    GetMarkCodelist(d, "type");
    GetMarkCodelist(d, "properties");
  }

  lemma ChildAnnotatedArray(v: Json)
    requires SchemaShape(v) && TypeIs(v, "array") && HasKey(v, "items")
    requires Truthy(GetOr(Items(v), "properties", Null))
    ensures Child(AnnotateProperty(v)).Some?
    ensures Members(Child(AnnotateProperty(v)).value, "properties") == Members(Annotate(Items(v)), "properties")
  {
    var items := Items(v);
    var d := Descend(v);
    var a := AnnotateProperty(v);
    ItemsShaped(v);
    GetAnnotate(items, "properties");
    AnnotatedItemsTruthy(items);
    GetDescend(v, "type");
    GetMarkCodelist(d, "type");
    GetReplace(v, "items", Annotate(items), "items");
    assert Items(d) == Annotate(items);
    if HasKey(d, "codelist") {
      TypeIsArrayMentionsArray(d);
      GetReplace(d, "items", Mark(Items(d)), "items");
      GetMark(Annotate(items), "properties");
      assert Items(a) == Mark(Annotate(items));
    } else {
      assert a == d;
    }
  }

  /** Items with truthy properties still have them once annotated. */
  lemma AnnotatedItemsTruthy(items: Json)
    requires SchemaShape(items) && Truthy(GetOr(items, "properties", Null))
    ensures Truthy(GetOr(Annotate(items), "properties", Null))
  {
    var pi := KeyIndex(items.members, "properties").value;
    assert KeywordShape(items.members[pi].0, items.members[pi].1);
    var ps := Members(items, "properties");
    assert ps != [];
    GetAnnotate(items, "properties");
    GetReplace(items, "properties", Obj(AnnotateProps(ps, |ps|)), "properties");
    var s1 := Replace(items, "properties", Obj(AnnotateProps(ps, |ps|)));
    var defs := Members(items, "definitions");
    if defs != [] {
      GetReplace(s1, "definitions", Obj(AnnotateDefs(defs, |defs|)), "properties");
    }
  }

  /** Every codelist property the walk reaches in `s` is reached, marked,
      at the same path in the annotated tree. */
  lemma {:induction false} AnnotateMarksReached(s: Json, rel: seq<string>, v: Json)
    requires SchemaShape(s) && Reaches(s, rel, v) && HasKey(v, "codelist")
    ensures exists v' :: Reaches(Annotate(s), rel, v') && CodelistMarked(v, v')
    decreases s
  {
    var i := ReachesFirstStep(s, rel, v);
    var ps := Members(s, "properties");
    PropertiesShaped(s);
    var value := ps[i].1;
    AnnotatedProperty(s, i);
    var m := Members(Annotate(s), "properties")[i];
    if |rel| == 1 {
      AnnotatedPropertyMarked(value);
      assert ReachesVia(m, rel, m.1);
    } else {
      var c := Child(value).value;
      ChildShaped(value);
      AnnotateMarksReached(c, rel[1..], v);
      var v' :| Reaches(Annotate(c), rel[1..], v') && CodelistMarked(v, v');
      ChildAnnotated(value);
      ReachesSameProperties(Annotate(c), Child(m.1).value, rel[1..], v');
      assert ReachesVia(m, rel, v');
    }
  }

  /** Marking a node and annotating it commute: they assign different
      members, and annotation assigns only members already present. */
  lemma AnnotateMark(v: Json)
    ensures Annotate(Mark(v)) == Mark(Annotate(v))
  {
    if v.Obj? {
      var ms := v.members;
      var props := Members(v, "properties");
      var defs := Members(v, "definitions");
      GetMark(v, "properties");
      GetMark(v, "definitions");
      assert Members(Mark(v), "properties") == props && Members(Mark(v), "definitions") == defs;
      var pp := Obj(AnnotateProps(props, |props|));
      var dd := Obj(AnnotateDefs(defs, |defs|));
      var t := Bool(true);
      var ms1 := if props == [] then ms else SetKey(ms, "properties", pp);
      if props != [] {
        SetKeyCommute(ms, "isCodelist", t, "properties", pp);
      }
      assert Annotate(v) == if defs == [] then Obj(ms1) else Obj(SetKey(ms1, "definitions", dd));
      if defs != [] {
        if props != [] {
          KeyIndexSetKeyOther(ms, "properties", pp, "definitions");
        }
        SetKeyCommute(ms1, "isCodelist", t, "definitions", dd);
      }
    }
  }

  /** Python's order, marking first and descending second, leaves the
      same tree. */
  lemma AnnotateInSourceOrder(v: Json)
    requires SchemaShape(v)
    ensures AnnotateProperty(v) == Descend(MarkCodelist(v))
  {
    GetDescend(v, "codelist");
    GetDescend(v, "type");
    if !HasKey(v, "codelist") {
    } else if !MentionsArray(v) {
      OrderPlain(v);
    } else {
      OrderArray(v);
    }
  }

  lemma OrderPlain(v: Json)
    requires SchemaShape(v) && HasKey(v, "codelist") && !MentionsArray(v)
    ensures AnnotateProperty(v) == Descend(MarkCodelist(v))
  {
    GetDescend(v, "codelist");
    GetDescend(v, "type");
    GetMark(v, "type");
    if TypeIs(v, "object") {
      AnnotateMark(v);
    } else if TypeIs(v, "array") {
      TypeIsArrayMentionsArray(v);
    }
  }

  lemma OrderArray(v: Json)
    requires SchemaShape(v) && HasKey(v, "codelist") && MentionsArray(v)
    ensures AnnotateProperty(v) == Descend(MarkCodelist(v))
  {
    ItemsShaped(v);
    var items := Items(v);
    var w := Replace(v, "items", Mark(items));
    assert MarkCodelist(v) == w;
    GetReplace(v, "items", Mark(items), "type");
    GetReplace(v, "items", Mark(items), "items");
    GetMark(items, "properties");
    assert Items(w) == Mark(items);
    if TypeIs(v, "object") {
      ObjectNotArray(v);
    } else if TypeIs(v, "array") && Truthy(GetOr(items, "properties", Null)) {
      OrderArrayDescending(v);
    }
  }

  lemma OrderArrayDescending(v: Json)
    requires SchemaShape(v) && HasKey(v, "codelist") && TypeIs(v, "array") && HasKey(v, "items")
    requires Truthy(GetOr(Items(v), "properties", Null))
    ensures AnnotateProperty(v) == Descend(MarkCodelist(v))
  {
    var items := Items(v);
    var w := Replace(v, "items", Mark(items));
    TypeIsArrayMentionsArray(v);
    assert MarkCodelist(v) == w;
    GetReplace(v, "items", Mark(items), "type");
    GetReplace(v, "items", Mark(items), "items");
    GetMark(items, "properties");
    assert Descend(w) == Replace(w, "items", Annotate(Mark(items)));
    var d := Replace(v, "items", Annotate(items));
    assert Descend(v) == d;
    GetReplace(v, "items", Annotate(items), "items");
    GetReplace(v, "items", Annotate(items), "codelist");
    GetReplace(v, "items", Annotate(items), "type");
    assert MarkCodelist(d) == Replace(d, "items", Mark(Annotate(items)));
    SetKeyTwice(v.members, "items", Annotate(items), Mark(Annotate(items)));
    AnnotateMark(items);
    SetKeyTwice(v.members, "items", Mark(items), Annotate(Mark(items)));
  }

  // Where the marks are, as paths of member names in the schema.

  /** The node at the path `q` of member names, as `s[q[0]][q[1]]...`. */
  function NodeAt(s: Json, q: seq<string>): Option<Json>
    decreases |q|
  {
    if q == [] then Some(s)
    else
      match Get(s, q[0])
      case None => None
      case Some(c) => NodeAt(c, q[1..])
  }

  /** There is a node there, and it holds `isCodelist: true`. */
  predicate Marked(n: Option<Json>)
  {
    n.Some? && Get(n.value, "isCodelist") == Some(Bool(true))
  }

  /** The paths below `s` that `add_is_codelist(s)` marks: those the
      properties loop marks below a property (lines 560-570), and those
      it marks below a definition that has properties (lines 572-574). */
  ghost predicate MarkSite(s: Json, q: seq<string>)
    decreases s, 2
  {
    if |q| < 2 then false
    else if q[0] == "properties" then
      match Get(Obj(Members(s, "properties")), q[1])
      case None => false
      case Some(v) => PropertyMarkSite(v, q[2..])
    else if q[0] == "definitions" then
      match Get(Obj(Members(s, "definitions")), q[1])
      case None => false
      case Some(v) => HasKey(v, "properties") && MarkSite(v, q[2..])
    else false
  }

  /** The paths below the property value `v` that one iteration of lines
      560-570 marks: `v` itself or its `items` when it has a codelist, and
      what the recursion marks below an "object" value or the items of an
      "array" value. */
  ghost predicate PropertyMarkSite(v: Json, t: seq<string>)
    decreases v, 4
  {
    || (t == [] && HasKey(v, "codelist") && !(MentionsArray(v) && HasKey(v, "items")))
    || (t == ["items"] && HasKey(v, "codelist") && MentionsArray(v) && HasKey(v, "items"))
    || (TypeIs(v, "object") && MarkSite(v, t))
    || (TypeIs(v, "array") && HasKey(v, "items") && Truthy(GetOr(Items(v), "properties", Null)) &&
        |t| >= 1 && t[0] == "items" && MarkSite(Items(v), t[1..]))
  }

  /** Two levels down, through a property. */
  lemma NodeAtProperty(s: Json, q: seq<string>)
    requires |q| >= 2 && q[0] == "properties"
    ensures NodeAt(s, q) == match Get(Obj(Members(s, "properties")), q[1])
      case None => None case Some(v) => NodeAt(v, q[2..])
  {
    assert q[1..][1..] == q[2..];
  }

  /** Two levels down, through a definition. */
  lemma NodeAtDefinition(s: Json, q: seq<string>)
    requires |q| >= 2 && q[0] == "definitions"
    ensures NodeAt(s, q) == match Get(Obj(Members(s, "definitions")), q[1])
      case None => None case Some(v) => NodeAt(v, q[2..])
  {
    assert q[1..][1..] == q[2..];
  }

  /** Marking a node changes nothing below it but its `isCodelist`, which
      holds no marked node. */
  lemma NodeAtMark(n: Json, t: seq<string>)
    requires t != []
    ensures t[0] != "isCodelist" ==> NodeAt(Mark(n), t) == NodeAt(n, t)
    ensures Marked(NodeAt(Mark(n), t)) ==> NodeAt(Mark(n), t) == NodeAt(n, t)
  {
    if n.Obj? {
      GetMark(n, t[0]);
      if t[0] == "isCodelist" && t[1..] != [] {
        assert Get(Bool(true), t[1..][0]).None?;
      }
    }
  }

  /** Replacing the member `k` changes nothing below another member. */
  lemma NodeAtReplace(v: Json, k: string, x: Json, t: seq<string>)
    requires v.Obj? && t != [] && t[0] != k
    ensures NodeAt(Replace(v, k, x), t) == NodeAt(v, t)
  {
    GetReplace(v, k, x, t[0]);
  }

  /** `properties` and `definitions` of an annotated node. */
  lemma GetAnnotateMembers(s: Json)
    ensures Get(Annotate(s), "properties") ==
              if Members(s, "properties") == [] then Get(s, "properties")
              else Some(Obj(AnnotateProps(Members(s, "properties"), |Members(s, "properties")|)))
    ensures Get(Annotate(s), "definitions") ==
              if Members(s, "definitions") == [] then Get(s, "definitions")
              else Some(Obj(AnnotateDefs(Members(s, "definitions"), |Members(s, "definitions")|)))
  {
    var props := Members(s, "properties");
    var defs := Members(s, "definitions");
    var pp := Obj(AnnotateProps(props, |props|));
    var s1 := if props == [] then s else Replace(s, "properties", pp);
    if s.Obj? {
      GetReplace(s, "properties", pp, "properties");
      GetReplace(s, "properties", pp, "definitions");
      GetReplace(s1, "definitions", Obj(AnnotateDefs(defs, |defs|)), "properties");
      GetReplace(s1, "definitions", Obj(AnnotateDefs(defs, |defs|)), "definitions");
    }
  }

  /** Looking a property up among the annotated properties. */
  lemma GetAnnotateProps(ps: seq<(string, Json)>, k: string)
    ensures Get(Obj(AnnotateProps(ps, |ps|)), k) ==
              match Get(Obj(ps), k) case None => None case Some(v) => Some(AnnotateProperty(v))
  {
    KeyIndexSameNames(ps, AnnotateProps(ps, |ps|), k);
  }

  /** Looking a definition up among the annotated definitions. */
  lemma GetAnnotateDefs(ds: seq<(string, Json)>, k: string)
    ensures Get(Obj(AnnotateDefs(ds, |ds|)), k) ==
              match Get(Obj(ds), k) case None => None case Some(v) => Some(AnnotateDefinition(v))
  {
    KeyIndexSameNames(ds, AnnotateDefs(ds, |ds|), k);
  }

  /** Below the annotated node, through `properties`. */
  lemma NodeAtAnnotatedProperty(s: Json, q: seq<string>)
    requires |q| >= 2 && q[0] == "properties"
    ensures NodeAt(Annotate(s), q) ==
              match Get(Obj(Members(s, "properties")), q[1])
                case None => None case Some(v) => NodeAt(AnnotateProperty(v), q[2..])
  {
    GetAnnotateMembers(s);
    NodeAtProperty(Annotate(s), q);
    var ps := Members(s, "properties");
    GetAnnotateProps(ps, q[1]);
    if ps == [] {
      assert Members(Annotate(s), "properties") == Members(s, "properties");
    } else {
      assert Members(Annotate(s), "properties") == AnnotateProps(ps, |ps|);
    }
  }

  /** Below the annotated node, through `definitions`. */
  lemma NodeAtAnnotatedDefinition(s: Json, q: seq<string>)
    requires |q| >= 2 && q[0] == "definitions"
    ensures NodeAt(Annotate(s), q) ==
              match Get(Obj(Members(s, "definitions")), q[1])
                case None => None case Some(v) => NodeAt(AnnotateDefinition(v), q[2..])
  {
    GetAnnotateMembers(s);
    NodeAtDefinition(Annotate(s), q);
    var ds := Members(s, "definitions");
    GetAnnotateDefs(ds, q[1]);
    if ds == [] {
      assert Members(Annotate(s), "definitions") == Members(s, "definitions");
    } else {
      assert Members(Annotate(s), "definitions") == AnnotateDefs(ds, |ds|);
    }
  }

  /** A member's value is smaller than the object holding it. */
  lemma GetSmaller(j: Json, k: string)
    requires Get(j, k).Some?
    ensures Get(j, k).value < j
  {
    var i := KeyIndex(j.members, k).value;
    assert j.members[i] in j.members;
  }

  /** A property or definition of `s` is smaller than `s`. */
  lemma MemberSmaller(s: Json, k: string)
    ensures Get(Obj(Members(s, "properties")), k).Some? ==> Get(Obj(Members(s, "properties")), k).value < s
    ensures Get(Obj(Members(s, "definitions")), k).Some? ==> Get(Obj(Members(s, "definitions")), k).value < s
  {
    if Get(Obj(Members(s, "properties")), k).Some? {
      GetSmaller(Obj(Members(s, "properties")), k);
      GetSmaller(s, "properties");
    }
    if Get(Obj(Members(s, "definitions")), k).Some? {
      GetSmaller(Obj(Members(s, "definitions")), k);
      GetSmaller(s, "definitions");
    }
  }

  lemma AnnotatePropertyKind(v: Json)
    ensures AnnotateProperty(v).Obj? == v.Obj?
    ensures !v.Obj? ==> AnnotateProperty(v) == v
  {
    if v.Obj? {
      GetDescend(v, "type");
      GetMarkCodelist(Descend(v), "type");
    }
  }

  lemma AnnotateDefinitionKind(v: Json)
    ensures AnnotateDefinition(v).Obj? == v.Obj?
    ensures !v.Obj? ==> AnnotateDefinition(v) == v
  {
    GetAnnotate(v, "type");
  }

  /** No mark appears in the annotated tree except at a mark site or where
      the schema already had one (line 439 drops the enum errors of
      exactly the marked nodes). */
  lemma {:induction false} AnnotateMarksOnly(s: Json, q: seq<string>)
    requires Marked(NodeAt(Annotate(s), q))
    ensures MarkSite(s, q) || Marked(NodeAt(s, q))
    decreases s, 2
  {
    if q == [] {
      GetAnnotate(s, "isCodelist");
    } else if |q| >= 2 && q[0] == "properties" {
      NodeAtAnnotatedProperty(s, q);
      NodeAtProperty(s, q);
      MemberSmaller(s, q[1]);
      PropertyMarksOnly(Get(Obj(Members(s, "properties")), q[1]).value, q[2..]);
    } else if |q| >= 2 && q[0] == "definitions" {
      NodeAtAnnotatedDefinition(s, q);
      NodeAtDefinition(s, q);
      MemberSmaller(s, q[1]);
      var w := Get(Obj(Members(s, "definitions")), q[1]).value;
      if HasKey(w, "properties") {
        AnnotateMarksOnly(w, q[2..]);
      }
    } else if q[0] == "properties" {
      PropertiesNodeMarked(s);
    } else if q[0] == "definitions" {
      DefinitionsNodeMarked(s);
    } else {
      GetAnnotate(s, q[0]);
    }
  }

  /** The annotated `properties` object itself holds a mark exactly when
      the schema's did: its `isCodelist` member, if any, is annotated as a
      property, which keeps a non-object as it is. */
  lemma PropertiesNodeMarked(s: Json)
    ensures Marked(NodeAt(Annotate(s), ["properties"])) <==> Marked(NodeAt(s, ["properties"]))
  {
    GetAnnotateMembers(s);
    var ps := Members(s, "properties");
    assert ["properties"][1..] == [];
    if ps != [] {
      GetAnnotateProps(ps, "isCodelist");
      if Get(Obj(ps), "isCodelist").Some? {
        AnnotatePropertyKind(Get(Obj(ps), "isCodelist").value);
      }
    }
  }

  /** The same for the annotated `definitions` object. */
  lemma DefinitionsNodeMarked(s: Json)
    ensures Marked(NodeAt(Annotate(s), ["definitions"])) <==> Marked(NodeAt(s, ["definitions"]))
  {
    GetAnnotateMembers(s);
    var ds := Members(s, "definitions");
    assert ["definitions"][1..] == [];
    if ds != [] {
      GetAnnotateDefs(ds, "isCodelist");
      if Get(Obj(ds), "isCodelist").Some? {
        AnnotateDefinitionKind(Get(Obj(ds), "isCodelist").value);
      }
    }
  }

  /** The same for one iteration of the properties loop: marks appear
      only at its mark sites. */
  lemma {:induction false} PropertyMarksOnly(v: Json, t: seq<string>)
    requires Marked(NodeAt(AnnotateProperty(v), t))
    ensures PropertyMarkSite(v, t) || Marked(NodeAt(v, t))
    decreases v, 4
  {
    if !v.Obj? {
      AnnotatePropertyKind(v);
    } else {
      var d := Descend(v);
      GetDescend(v, "codelist");
      GetDescend(v, "type");
      DescendItems(v);
      if HasKey(v, "codelist") && MentionsArray(v) && HasKey(v, "items") {
        PropertyMarksOnlyOnItems(v, t);
      } else if HasKey(v, "codelist") {
        if t != [] {
          NodeAtMark(d, t);
          DescendMarksOnly(v, t);
        }
      } else {
        DescendMarksOnly(v, t);
      }
    }
  }

  /** Descending keeps `items` present exactly when it was. */
  lemma DescendItems(v: Json)
    requires v.Obj?
    ensures HasKey(Descend(v), "items") == HasKey(v, "items")
  {
    GetAnnotate(v, "items");
    if HasKey(v, "items") {
      GetReplace(v, "items", Annotate(Items(v)), "items");
    }
  }

  lemma {:induction false} PropertyMarksOnlyOnItems(v: Json, t: seq<string>)
    requires v.Obj? && HasKey(v, "codelist") && MentionsArray(v) && HasKey(v, "items")
    requires Marked(NodeAt(AnnotateProperty(v), t))
    ensures PropertyMarkSite(v, t) || Marked(NodeAt(v, t))
    decreases v, 4, 0
  {
    var d := Descend(v);
    GetDescend(v, "codelist");
    GetDescend(v, "type");
    GetDescend(v, "isCodelist");
    DescendItems(v);
    var a := Replace(d, "items", Mark(Items(d)));
    assert AnnotateProperty(v) == a;
    if t == [] {
      GetReplace(d, "items", Mark(Items(d)), "isCodelist");
    } else if t[0] == "items" {
      if t != ["items"] {
        GetReplace(d, "items", Mark(Items(d)), "items");
        assert NodeAt(a, t) == NodeAt(Mark(Items(d)), t[1..]);
        NodeAtMark(Items(d), t[1..]);
        if TypeIs(v, "array") && Truthy(GetOr(Items(v), "properties", Null)) {
          GetReplace(v, "items", Annotate(Items(v)), "items");
          assert Items(d) == Annotate(Items(v));
          AnnotateMarksOnly(Items(v), t[1..]);
        } else {
          ObjectNotArrayOrPlain(v);
        }
      }
    } else {
      NodeAtReplace(d, "items", Mark(Items(d)), t);
      DescendMarksOnly(v, t);
    }
  }

  /** The same for the descent of lines 567-570. */
  lemma {:induction false} DescendMarksOnly(v: Json, t: seq<string>)
    requires v.Obj? && Marked(NodeAt(Descend(v), t))
    ensures || (TypeIs(v, "object") && MarkSite(v, t))
            || (TypeIs(v, "array") && HasKey(v, "items") && Truthy(GetOr(Items(v), "properties", Null)) &&
                |t| >= 1 && t[0] == "items" && MarkSite(Items(v), t[1..]))
            || Marked(NodeAt(v, t))
    decreases v, 3
  {
    if TypeIs(v, "object") {
      AnnotateMarksOnly(v, t);
    } else if TypeIs(v, "array") && HasKey(v, "items") && Truthy(GetOr(Items(v), "properties", Null)) {
      var x := Annotate(Items(v));
      if t == [] {
        GetReplace(v, "items", x, "isCodelist");
      } else if t[0] == "items" {
        GetReplace(v, "items", x, "items");
        assert NodeAt(Descend(v), t) == NodeAt(x, t[1..]);
        AnnotateMarksOnly(Items(v), t[1..]);
      } else {
        NodeAtReplace(v, "items", x, t);
      }
    }
  }

  /** A well-shaped schema's properties and definitions are well-shaped. */
  lemma MembersShaped(s: Json, k: string)
    requires SchemaShape(s)
    ensures Get(Obj(Members(s, "properties")), k).Some? ==> SchemaShape(Get(Obj(Members(s, "properties")), k).value)
    ensures Get(Obj(Members(s, "definitions")), k).Some? ==> SchemaShape(Get(Obj(Members(s, "definitions")), k).value)
  {
    PropertiesShaped(s);
    if Members(s, "definitions") != [] {
      var di := KeyIndex(s.members, "definitions").value;
      assert KeywordShape(s.members[di].0, s.members[di].1);
    }
  }

  /** Every mark site of a well-shaped schema is marked in the annotated
      tree (lines 560-574). */
  lemma {:induction false} AnnotateMarksSites(s: Json, q: seq<string>)
    requires SchemaShape(s) && MarkSite(s, q)
    ensures Marked(NodeAt(Annotate(s), q))
    decreases s, 2
  {
    MembersShaped(s, q[1]);
    MemberSmaller(s, q[1]);
    if q[0] == "properties" {
      NodeAtAnnotatedProperty(s, q);
      PropertyMarksSites(Get(Obj(Members(s, "properties")), q[1]).value, q[2..]);
    } else {
      NodeAtAnnotatedDefinition(s, q);
      AnnotateMarksSites(Get(Obj(Members(s, "definitions")), q[1]).value, q[2..]);
    }
  }

  /** The same for one iteration of the properties loop. */
  lemma {:induction false} PropertyMarksSites(v: Json, t: seq<string>)
    requires SchemaShape(v) && PropertyMarkSite(v, t)
    ensures Marked(NodeAt(AnnotateProperty(v), t))
    decreases v, 4
  {
    if || (t == [] && HasKey(v, "codelist") && !(MentionsArray(v) && HasKey(v, "items")))
       || (t == ["items"] && HasKey(v, "codelist") && MentionsArray(v) && HasKey(v, "items")) {
      PropertyMarksOwnSite(v, t);
    } else if TypeIs(v, "object") && MarkSite(v, t) {
      var d := Descend(v);
      GetDescend(v, "codelist");
      ObjectNotArray(v);
      GetAnnotate(v, "type");
      if HasKey(v, "codelist") {
        NodeAtMark(d, t);
      }
      AnnotateMarksSites(v, t);
    } else {
      PropertyMarksSitesOnItems(v, t);
    }
  }

  /** A property with a codelist is marked itself, or on its items. */
  lemma PropertyMarksOwnSite(v: Json, t: seq<string>)
    requires SchemaShape(v) && HasKey(v, "codelist")
    requires || (t == [] && !(MentionsArray(v) && HasKey(v, "items")))
             || (t == ["items"] && MentionsArray(v) && HasKey(v, "items"))
    ensures Marked(NodeAt(AnnotateProperty(v), t))
  {
    AnnotatedPropertyMarked(v);
    if t == ["items"] {
      assert ["items"][1..] == [];
      assert Get(AnnotateProperty(v), "items") == Some(Items(AnnotateProperty(v)));
    }
  }

  lemma {:induction false} PropertyMarksSitesOnItems(v: Json, t: seq<string>)
    requires SchemaShape(v) && TypeIs(v, "array") && HasKey(v, "items")
    requires Truthy(GetOr(Items(v), "properties", Null))
    requires |t| >= 1 && t[0] == "items" && MarkSite(Items(v), t[1..])
    ensures Marked(NodeAt(AnnotateProperty(v), t))
    decreases v, 4, 0
  {
    var x := Annotate(Items(v));
    var d := Descend(v);
    TypeIsArrayMentionsArray(v);
    ItemsShaped(v);
    GetDescend(v, "codelist");
    GetDescend(v, "type");
    GetReplace(v, "items", x, "items");
    assert Items(d) == x;
    GetAnnotate(Items(v), "type");
    assert NodeAt(d, t) == NodeAt(x, t[1..]);
    if HasKey(v, "codelist") {
      GetReplace(d, "items", Mark(x), "items");
      assert NodeAt(AnnotateProperty(v), t) == NodeAt(Mark(x), t[1..]);
      NodeAtMark(x, t[1..]);
    }
    AnnotateMarksSites(Items(v), t[1..]);
  }

  // What add_is_codelist leaves alone.

  /** A path that goes through no `isCodelist` member: line 565 overwrites
      such a member, and whatever was below it, with `True`. */
  predicate MarkFree(q: seq<string>)
  {
    forall i :: 0 <= i < |q| ==> q[i] != "isCodelist"
  }

  /** A mark the schema already had stays (lines 561-574 only ever set
      `isCodelist` to `True`). */
  lemma {:induction false} AnnotateKeepsMarks(s: Json, q: seq<string>)
    requires MarkFree(q) && Marked(NodeAt(s, q))
    ensures Marked(NodeAt(Annotate(s), q))
    decreases s, 2
  {
    if q == [] {
      GetAnnotate(s, "isCodelist");
    } else if |q| >= 2 && q[0] == "properties" {
      NodeAtAnnotatedProperty(s, q);
      NodeAtProperty(s, q);
      MemberSmaller(s, q[1]);
      PropertyKeepsMarks(Get(Obj(Members(s, "properties")), q[1]).value, q[2..]);
    } else if |q| >= 2 && q[0] == "definitions" {
      NodeAtAnnotatedDefinition(s, q);
      NodeAtDefinition(s, q);
      MemberSmaller(s, q[1]);
      var w := Get(Obj(Members(s, "definitions")), q[1]).value;
      if HasKey(w, "properties") {
        AnnotateKeepsMarks(w, q[2..]);
      }
    } else if q[0] == "properties" {
      PropertiesNodeMarked(s);
    } else if q[0] == "definitions" {
      DefinitionsNodeMarked(s);
    } else {
      GetAnnotate(s, q[0]);
    }
  }

  /** The same for one iteration of the properties loop. */
  lemma {:induction false} PropertyKeepsMarks(v: Json, t: seq<string>)
    requires MarkFree(t) && Marked(NodeAt(v, t))
    ensures Marked(NodeAt(AnnotateProperty(v), t))
    decreases v, 4
  {
    if !v.Obj? {
      AnnotatePropertyKind(v);
    } else {
      var d := Descend(v);
      DescendKeepsMarks(v, t);
      GetDescend(v, "codelist");
      if HasKey(d, "codelist") && MentionsArray(d) && HasKey(d, "items") {
        var x := Mark(Items(d));
        if t == [] {
          GetReplace(d, "items", x, "isCodelist");
        } else if t[0] == "items" {
          GetReplace(d, "items", x, "items");
          assert NodeAt(Replace(d, "items", x), t) == NodeAt(x, t[1..]);
          assert NodeAt(d, t) == NodeAt(Items(d), t[1..]);
          if t[1..] == [] {
            GetMark(Items(d), "isCodelist");
          } else {
            NodeAtMark(Items(d), t[1..]);
          }
        } else {
          NodeAtReplace(d, "items", x, t);
        }
      } else if HasKey(d, "codelist") {
        if t == [] {
          GetMark(d, "isCodelist");
        } else {
          NodeAtMark(d, t);
        }
      }
    }
  }

  /** The same for the descent of lines 567-570. */
  lemma {:induction false} DescendKeepsMarks(v: Json, t: seq<string>)
    requires v.Obj? && MarkFree(t) && Marked(NodeAt(v, t))
    ensures Marked(NodeAt(Descend(v), t))
    decreases v, 3
  {
    if TypeIs(v, "object") {
      AnnotateKeepsMarks(v, t);
    } else if TypeIs(v, "array") && HasKey(v, "items") && Truthy(GetOr(Items(v), "properties", Null)) {
      var x := Annotate(Items(v));
      if t == [] {
        GetReplace(v, "items", x, "isCodelist");
      } else if t[0] == "items" {
        GetReplace(v, "items", x, "items");
        assert NodeAt(Descend(v), t) == NodeAt(x, t[1..]);
        assert NodeAt(v, t) == NodeAt(Items(v), t[1..]);
        AnnotateKeepsMarks(Items(v), t[1..]);
      } else {
        NodeAtReplace(v, "items", x, t);
      }
    }
  }

  /** `j` with every `isCodelist` member dropped from every object in it:
      what a tree looks like once its marks are disregarded. */
  function Unmarked(j: Json): Json
    decreases j, 1
  {
    match j
    case Obj(ms) => Obj(UnmarkedMembers(ms, |ms|))
    case _ => j
  }

  function UnmarkedMembers(ms: seq<(string, Json)>, n: nat): seq<(string, Json)>
    requires n <= |ms|
    decreases Obj(ms), 0, n
  {
    if n == 0 then []
    else if ms[n - 1].0 == "isCodelist" then UnmarkedMembers(ms, n - 1)
    else UnmarkedMembers(ms, n - 1) + [(ms[n - 1].0, Unmarked(ms[n - 1].1))]
  }

  /** Two member lists with the same names, whose values agree apart from
      their marks (or are themselves `isCodelist` members), agree once
      their marks are dropped. */
  lemma {:induction false} UnmarkedMembersAgree(a: seq<(string, Json)>, b: seq<(string, Json)>, n: nat)
    requires n <= |a| && n <= |b|
    requires forall j :: 0 <= j < n ==> a[j].0 == b[j].0
    requires forall j :: 0 <= j < n && a[j].0 != "isCodelist" ==> Unmarked(a[j].1) == Unmarked(b[j].1)
    ensures UnmarkedMembers(a, n) == UnmarkedMembers(b, n)
  {
    if n > 0 {
      UnmarkedMembersAgree(a, b, n - 1);
    }
  }

  /** Setting `isCodelist` is invisible once marks are dropped. */
  lemma UnmarkedMark(n: Json)
    ensures Unmarked(Mark(n)) == Unmarked(n)
  {
    if n.Obj? {
      var ms := n.members;
      var b := SetKey(ms, "isCodelist", Bool(true));
      UnmarkedMembersAgree(ms, b, |ms|);
      if KeyIndex(ms, "isCodelist").None? {
        assert b[|ms|].0 == "isCodelist";
      }
    }
  }

  /** Replacing a member by a value equal to it apart from marks is
      invisible once marks are dropped. */
  lemma UnmarkedReplace(v: Json, k: string, x: Json)
    requires v.Obj? && k != "isCodelist" && Get(v, k).Some? && Unmarked(x) == Unmarked(Get(v, k).value)
    ensures Unmarked(Replace(v, k, x)) == Unmarked(v)
  {
    var ms := v.members;
    UnmarkedMembersAgree(ms, SetKey(ms, k, x), |ms|);
  }

  /** `add_is_codelist` changes nothing but `isCodelist` members (lines
      561-574 assign nothing else). */
  lemma {:induction false} UnmarkedAnnotate(s: Json)
    ensures Unmarked(Annotate(s)) == Unmarked(s)
    decreases s, 2
  {
    var props := Members(s, "properties");
    var defs := Members(s, "definitions");
    var pp := Obj(AnnotateProps(props, |props|));
    var s1 := if props == [] then s else Replace(s, "properties", pp);
    if props != [] {
      var pi := KeyIndex(s.members, "properties").value;
      assert s.members[pi] in s.members;
      forall j | 0 <= j < |props|
        ensures Unmarked(AnnotateProperty(props[j].1)) == Unmarked(props[j].1)
      {
        assert props[j] in props;
        UnmarkedAnnotateProperty(props[j].1);
      }
      UnmarkedMembersAgree(props, AnnotateProps(props, |props|), |props|);
      UnmarkedReplace(s, "properties", pp);
    }
    if defs != [] {
      var di := KeyIndex(s.members, "definitions").value;
      assert s.members[di] in s.members;
      forall j | 0 <= j < |defs|
        ensures Unmarked(AnnotateDefinition(defs[j].1)) == Unmarked(defs[j].1)
      {
        assert defs[j] in defs;
        if HasKey(defs[j].1, "properties") {
          UnmarkedAnnotate(defs[j].1);
        }
      }
      UnmarkedMembersAgree(defs, AnnotateDefs(defs, |defs|), |defs|);
      if props != [] {
        GetReplace(s, "properties", pp, "definitions");
      }
      UnmarkedReplace(s1, "definitions", Obj(AnnotateDefs(defs, |defs|)));
    }
  }

  /** One iteration of lines 560-570 changes nothing but `isCodelist`
      members. */
  lemma {:induction false} UnmarkedAnnotateProperty(v: Json)
    ensures Unmarked(AnnotateProperty(v)) == Unmarked(v)
    decreases v, 4
  {
    var d := Descend(v);
    UnmarkedDescend(v);
    if HasKey(d, "codelist") {
      if MentionsArray(d) && HasKey(d, "items") {
        UnmarkedMark(Items(d));
        UnmarkedReplace(d, "items", Mark(Items(d)));
      } else {
        UnmarkedMark(d);
      }
    }
  }

  lemma {:induction false} UnmarkedDescend(v: Json)
    ensures Unmarked(Descend(v)) == Unmarked(v)
    decreases v, 3
  {
    if TypeIs(v, "object") {
      UnmarkedAnnotate(v);
    } else if TypeIs(v, "array") && HasKey(v, "items") && Truthy(GetOr(Items(v), "properties", Null)) {
      UnmarkedAnnotate(Items(v));
      UnmarkedReplace(v, "items", Annotate(Items(v)));
    }
  }

  // ---------------------------------------------------------------------
  // _get_schema_codelist_paths
  // ---------------------------------------------------------------------

  /** The codelist of a schema path: its file name and whether it is open. */
  datatype CodelistRef = CodelistRef(file: string, isOpen: Json)

  type CodelistPaths = map<seq<string>, CodelistRef>

  /** `(value['codelist'], value.get('openCodelist', False))` */
  function RefOf(v: Json): CodelistRef
  {
    CodelistRef(match Get(v, "codelist") case Some(Str(f)) => f case _ => "",
                GetOr(v, "openCodelist", Bool(false)))
  }

  /** Lines 594-595: a property with a codelist is recorded unless its path
      already is. */
  function Record(m: CodelistPaths, w: (seq<string>, Json)): CodelistPaths
  {
    if HasKey(w.1, "codelist") && w.0 !in m then m[w.0 := RefOf(w.1)] else m
  }

  /** The map after recording the visited properties `ws` in order. */
  function RecordAll(m: CodelistPaths, ws: seq<(seq<string>, Json)>): CodelistPaths
    decreases |ws|
  {
    if ws == [] then m else RecordAll(Record(m, ws[0]), ws[1..])
  }

  lemma {:induction false} RecordAllAppend(m: CodelistPaths, a: seq<(seq<string>, Json)>, b: seq<(seq<string>, Json)>)
    ensures RecordAll(m, a + b) == RecordAll(RecordAll(m, a), b)
    decreases |a|
  {
    if a == [] {
      assert a + b == b;
    } else {
      assert (a + b)[1..] == a[1..] + b;
      RecordAllAppend(Record(m, a[0]), a[1..], b);
    }
  }

  /** `ws[i]` is the first visited property with a codelist at path `k`. */
  predicate FirstCodelistAt(ws: seq<(seq<string>, Json)>, k: seq<string>, i: int)
  {
    && 0 <= i < |ws| && ws[i].0 == k && HasKey(ws[i].1, "codelist")
    && forall j :: 0 <= j < i ==> !(ws[j].0 == k && HasKey(ws[j].1, "codelist"))
  }

  /** A path visited with a codelist at `i`. */
  predicate CodelistAt(ws: seq<(seq<string>, Json)>, k: seq<string>, i: int)
  {
    0 <= i < |ws| && ws[i].0 == k && HasKey(ws[i].1, "codelist")
  }

  lemma CodelistAtTail(ws: seq<(seq<string>, Json)>, k: seq<string>)
    requires ws != []
    ensures (exists i :: CodelistAt(ws, k, i)) <==> CodelistAt(ws, k, 0) || exists i :: CodelistAt(ws[1..], k, i)
  {
    if i :| CodelistAt(ws, k, i) && i > 0 {
      assert CodelistAt(ws[1..], k, i - 1);
    }
    if i :| CodelistAt(ws[1..], k, i) {
      assert CodelistAt(ws, k, i + 1);
    }
  }

  /** Recording keeps every path already there and adds exactly the paths
      visited with a codelist. */
  lemma {:induction false} RecordAllKeys(m: CodelistPaths, ws: seq<(seq<string>, Json)>, k: seq<string>)
    ensures k in RecordAll(m, ws) <==> k in m || exists i :: CodelistAt(ws, k, i)
    ensures k in m ==> RecordAll(m, ws)[k] == m[k]
    decreases |ws|
  {
    if ws != [] {
      RecordAllKeys(Record(m, ws[0]), ws[1..], k);
      CodelistAtTail(ws, k);
    }
  }

  /** A path that was not there gets the codelist of its first visit. */
  lemma {:induction false} RecordAllFirst(m: CodelistPaths, ws: seq<(seq<string>, Json)>, k: seq<string>)
    requires k !in m && k in RecordAll(m, ws)
    ensures exists i :: FirstCodelistAt(ws, k, i) && RecordAll(m, ws)[k] == RefOf(ws[i].1)
    decreases |ws|
  {
    var m1 := Record(m, ws[0]);
    if k in m1 {
      RecordAllKeys(m1, ws[1..], k);
      assert FirstCodelistAt(ws, k, 0);
    } else {
      RecordAllFirst(m1, ws[1..], k);
      var i :| FirstCodelistAt(ws[1..], k, i) && RecordAll(m1, ws[1..])[k] == RefOf(ws[1..][i].1);
      assert FirstCodelistAt(ws, k, i + 1);
    }
  }

  /** `_get_schema_codelist_paths` on the dereferenced release-package
      schema. */
  function CodelistPathsOf(schema: Json): CodelistPaths
  {
    RecordAll(map[], Walked(schema, []))
  }

  /** `_get_schema_codelist_paths(None, s, cur, acc)`: records the codelist
      properties the walk below `s` visits. */
  method CollectCodelistPaths(s: Json, cur: seq<string>, acc: CodelistPaths) returns (out: CodelistPaths)
    requires SchemaShape(s)
    ensures out == RecordAll(acc, Walked(s, cur))
    decreases s, 1
  {
    out := acc;
    var ps := Members(s, "properties");
    PropertiesShaped(s);
    var i := 0;
    while i < |ps|
      invariant 0 <= i <= |ps|
      invariant out == RecordAll(acc, WalkedAmong(ps, i, cur))
    {
      var before := out;
      out := VisitCodelistProperty(ps[i].0, ps[i].1, cur, before);
      RecordAllAppend(acc, WalkedAmong(ps, i, cur), WalkedProperty(ps[i].0, ps[i].1, cur));
      i := i + 1;
    }
    if ps == [] {
      assert Walked(s, cur) == [];
    }
  }

  /** One iteration of the loop of lines 588-601. */
  method VisitCodelistProperty(prop: string, value: Json, cur: seq<string>, acc: CodelistPaths) returns (out: CodelistPaths)
    requires SchemaShape(value)
    ensures out == RecordAll(acc, WalkedProperty(prop, value, cur))
    decreases value, 2
  {
    var path := cur + [prop];
    var mid := acc;
    if HasKey(value, "codelist") && path !in mid {
      mid := mid[path := RefOf(value)];
    }
    out := mid;
    ChildShaped(value);
    match Child(value) {
      case Some(c) =>
        out := CollectCodelistPaths(c, path, mid);
        assert WalkedBelow(value, path) == Walked(c, path);
      case None =>
    }
    VisitedCodelistProperty(prop, value, cur, acc, mid, out);
  }

  lemma VisitedCodelistProperty(prop: string, value: Json, cur: seq<string>,
                                acc: CodelistPaths, mid: CodelistPaths, out: CodelistPaths)
    requires mid == Record(acc, (cur + [prop], value))
    requires out == RecordAll(mid, WalkedBelow(value, cur + [prop]))
    ensures out == RecordAll(acc, WalkedProperty(prop, value, cur))
  {
    var path := cur + [prop];
    assert ([(path, value)] + WalkedBelow(value, path))[1..] == WalkedBelow(value, path);
  }

  /** `_get_schema_codelist_paths(schema_obj)`: every path the walk reaches
      whose property has a codelist, with the codelist of the first such
      property. */
  method SchemaCodelistPaths(schema: Json) returns (out: CodelistPaths)
    requires SchemaShape(schema)
    ensures out == CodelistPathsOf(schema)
    ensures forall k :: k in out <==> exists v :: Reaches(schema, k, v) && HasKey(v, "codelist")
    ensures forall k :: k in out ==> |k| >= 1 && exists v :: Reaches(schema, k, v) && HasKey(v, "codelist") && out[k] == RefOf(v)
  {
    out := CollectCodelistPaths(schema, [], map[]);
    forall k {
      CodelistPathsExactly(schema, k);
    }
  }

  lemma CodelistPathsExactly(schema: Json, k: seq<string>)
    ensures k in CodelistPathsOf(schema) <==> exists v :: Reaches(schema, k, v) && HasKey(v, "codelist")
    ensures k in CodelistPathsOf(schema) ==>
              |k| >= 1 && exists v :: Reaches(schema, k, v) && HasKey(v, "codelist") && CodelistPathsOf(schema)[k] == RefOf(v)
  {
    if k in CodelistPathsOf(schema) {
      CodelistPathsSound(schema, k);
    }
    if v :| Reaches(schema, k, v) && HasKey(v, "codelist") {
      CodelistPathsComplete(schema, k, v);
    }
  }

  /** Every recorded path reaches a node with a codelist, whose reference
      is the one recorded. */
  lemma CodelistPathsSound(schema: Json, k: seq<string>)
    requires k in CodelistPathsOf(schema)
    ensures |k| >= 1 && exists v :: Reaches(schema, k, v) && HasKey(v, "codelist") && CodelistPathsOf(schema)[k] == RefOf(v)
  {
    var ws := Walked(schema, []);
    RecordAllFirst(map[], ws, k);
    var i :| FirstCodelistAt(ws, k, i) && CodelistPathsOf(schema)[k] == RefOf(ws[i].1);
    ReachedAt(schema, ws[i]);
  }

  /** Every path reaching a node with a codelist is recorded. */
  lemma CodelistPathsComplete(schema: Json, k: seq<string>, v: Json)
    requires Reaches(schema, k, v) && HasKey(v, "codelist")
    ensures k in CodelistPathsOf(schema)
  {
    var ws := Walked(schema, []);
    RecordAllKeys(map[], ws, k);
    WalkedComplete(schema, [], k, v);
    assert [] + k == k;
    var i :| 0 <= i < |ws| && ws[i] == (k, v);
    assert CodelistAt(ws, k, i);
  }

  lemma ReachedAt(schema: Json, w: (seq<string>, Json))
    requires w in Walked(schema, [])
    ensures |w.0| >= 1 && Reaches(schema, w.0, w.1)
  {
    WalkedSound(schema, [], w);
    assert w.0[0..] == w.0;
  }

  // ---------------------------------------------------------------------
  // _generate_data_path
  // ---------------------------------------------------------------------

  /** Both parts, or `None` when either raises. */
  function Concat(a: Option<seq<(Path, Json)>>, b: Option<seq<(Path, Json)>>): (r: Option<seq<(Path, Json)>>)
    ensures r.Some? <==> a.Some? && b.Some?
    ensures r.Some? ==> forall x :: x in r.value <==> x in a.value || x in b.value
  {
    if a.Some? && b.Some? then Some(a.value + b.value) else None
  }

  /** `list(_generate_data_path(j, path))`: the truthy non-dict values
      below the dict `j`, descending into dicts and into lists whose first
      item is a dict; `None` where Python raises AttributeError (`.items()`
      on a value that is not a dict). */
  function DataPaths(j: Json, path: Path): Option<seq<(Path, Json)>>
    decreases j, 2
  {
    match j
    case Obj(ms) => DataMembers(ms, |ms|, path)
    case _ => None
  }

  function DataMembers(ms: seq<(string, Json)>, n: nat, path: Path): Option<seq<(Path, Json)>>
    requires n <= |ms|
    decreases Obj(ms), 1, n
  {
    if n == 0 then Some([]) else Concat(DataMembers(ms, n - 1, path), MemberPaths(ms[n - 1].0, ms[n - 1].1, path))
  }

  /** One iteration of lines 628-640. */
  function MemberPaths(key: string, value: Json, path: Path): Option<seq<(Path, Json)>>
    decreases value, 3
  {
    var p := path + [Key(key)];
    if !Truthy(value) then Some([])
    else if value.Arr? then
      if value.items[0].Obj? then DataItems(value.items, |value.items|, p) else Some([(p, value)])
    else if value.Obj? then DataPaths(value, p)
    else Some([(p, value)])
  }

  function DataItems(items: seq<Json>, n: nat, p: Path): Option<seq<(Path, Json)>>
    requires n <= |items|
    decreases Arr(items), 1, n
  {
    if n == 0 then Some([]) else Concat(DataItems(items, n - 1, p), DataPaths(items[n - 1], p + [Index(n - 1)]))
  }

  /** What the generator yields: a path ending in a member name below
      `path`, and the truthy value the data holds there, which is not a
      dict, nor a list whose first item is a dict. */
  predicate Yielded(j: Json, path: Path, x: (Path, Json))
  {
    && |x.0| > |path| && x.0[..|path|] == path && x.0[|x.0| - 1].Key?
    && Truthy(x.1) && !x.1.Obj? && (x.1.Arr? ==> !x.1.items[0].Obj?)
  }

  lemma {:induction false} DataPathsSound(j: Json, path: Path, x: (Path, Json))
    requires DataPaths(j, path).Some? && x in DataPaths(j, path).value
    ensures Yielded(j, path, x) && At(j, x.0[|path|..], x.1)
    decreases j, 2
  {
    var ms := j.members;
    var i := DataMembersFrom(ms, |ms|, path, x);
    var p := path + [Key(ms[i].0)];
    MemberPathsSound(ms[i].0, ms[i].1, path, x);
    GenericPaths.PathStep(x.0, path, Key(ms[i].0));
    assert At(j, x.0[|path|..], x.1);
  }

  lemma {:induction false} MemberPathsSound(key: string, value: Json, path: Path, x: (Path, Json))
    requires MemberPaths(key, value, path).Some? && x in MemberPaths(key, value, path).value
    ensures Yielded(value, path, x) && x.0[..|path| + 1] == path + [Key(key)]
    ensures At(value, x.0[|path| + 1..], x.1)
    decreases value, 3
  {
    var p := path + [Key(key)];
    if value.Arr? && value.items[0].Obj? {
      var items := value.items;
      var i := DataItemsFrom(items, |items|, p, x);
      var q := p + [Index(i)];
      DataPathsSound(items[i], q, x);
      assert x.0[..|q|][..|p|] == x.0[..|p|];
      GenericPaths.PathStep(x.0, p, Index(i));
      assert At(value, x.0[|p|..], x.1);
    } else if value.Obj? {
      DataPathsSound(value, p, x);
      assert x.0[..|p|][..|path|] == x.0[..|path|];
    } else {
      assert x == (p, value);
      assert x.0[|p|..] == [];
    }
  }

  lemma {:induction false} DataMembersFrom(ms: seq<(string, Json)>, n: nat, path: Path, x: (Path, Json)) returns (i: nat)
    requires n <= |ms| && DataMembers(ms, n, path).Some? && x in DataMembers(ms, n, path).value
    ensures i < n && MemberPaths(ms[i].0, ms[i].1, path).Some? && x in MemberPaths(ms[i].0, ms[i].1, path).value
  {
    if x in MemberPaths(ms[n - 1].0, ms[n - 1].1, path).value {
      i := n - 1;
    } else {
      i := DataMembersFrom(ms, n - 1, path, x);
    }
  }

  lemma {:induction false} DataItemsFrom(items: seq<Json>, n: nat, p: Path, x: (Path, Json)) returns (i: nat)
    requires n <= |items| && DataItems(items, n, p).Some? && x in DataItems(items, n, p).value
    ensures i < n && DataPaths(items[i], p + [Index(i)]).Some? && x in DataPaths(items[i], p + [Index(i)]).value
  {
    if x in DataPaths(items[n - 1], p + [Index(n - 1)]).value {
      i := n - 1;
    } else {
      i := DataItemsFrom(items, n - 1, p, x);
    }
  }

  // What the generator reaches, read off lines 628-640 path by path.

  /** The generator is called on `u` at the path `q` below `j`: `q` is
      empty, or it goes through a truthy member of the dict `j` into a dict
      (line 638) or into an item of a list whose first item is a dict
      (lines 632-633). */
  ghost predicate Visited(j: Json, q: Path, u: Json)
    decreases |q|, 0
  {
    if q == [] then u == j
    else
      && j.Obj? && q[0].Key?
      && exists i :: 0 <= i < |j.members| && j.members[i].0 == q[0].name && Truthy(j.members[i].1) &&
                     VisitedBelow(j.members[i].1, q[1..], u)
  }

  ghost predicate VisitedBelow(value: Json, t: Path, u: Json)
    decreases |t|, 1
  {
    || (value.Obj? && Visited(value, t, u))
    || (value.Arr? && |value.items| > 0 && value.items[0].Obj? && t != [] && t[0].Index? &&
        t[0].i < |value.items| && Visited(value.items[t[0].i], t[1..], u))
  }

  /** The generator yields `v` at the path `rel` below `j`: `rel` ends in
      a truthy member whose value is not walked into (lines 636 and 640). */
  ghost predicate Yields(j: Json, rel: Path, v: Json)
    decreases |rel|, 0
  {
    && j.Obj? && rel != [] && rel[0].Key?
    && exists i :: 0 <= i < |j.members| && j.members[i].0 == rel[0].name && Truthy(j.members[i].1) &&
                   YieldsBelow(j.members[i].1, rel[1..], v)
  }

  ghost predicate YieldsBelow(value: Json, t: Path, v: Json)
    decreases |t|, 1
  {
    if t == [] then v == value && !value.Obj? && !(value.Arr? && |value.items| > 0 && value.items[0].Obj?)
    else
      || (value.Obj? && Yields(value, t, v))
      || (value.Arr? && |value.items| > 0 && value.items[0].Obj? && t[0].Index? &&
          t[0].i < |value.items| && Yields(value.items[t[0].i], t[1..], v))
  }

  lemma {:induction false} DataMembersHas(ms: seq<(string, Json)>, n: nat, path: Path, i: nat)
    requires i < n <= |ms| && DataMembers(ms, n, path).Some?
    ensures MemberPaths(ms[i].0, ms[i].1, path).Some?
    ensures forall x :: x in MemberPaths(ms[i].0, ms[i].1, path).value ==> x in DataMembers(ms, n, path).value
  {
    if i < n - 1 {
      DataMembersHas(ms, n - 1, path, i);
    }
  }

  lemma {:induction false} DataItemsHas(items: seq<Json>, n: nat, p: Path, i: nat)
    requires i < n <= |items| && DataItems(items, n, p).Some?
    ensures DataPaths(items[i], p + [Index(i)]).Some?
    ensures forall x :: x in DataPaths(items[i], p + [Index(i)]).value ==> x in DataItems(items, n, p).value
  {
    if i < n - 1 {
      DataItemsHas(items, n - 1, p, i);
    }
  }

  /** Everything the generator reaches is yielded, unless it raises. */
  lemma {:induction false} DataPathsComplete(j: Json, path: Path, rel: Path, v: Json)
    requires DataPaths(j, path).Some? && Yields(j, rel, v)
    ensures (path + rel, v) in DataPaths(j, path).value
    decreases j, 2
  {
    var ms := j.members;
    var i :| 0 <= i < |ms| && ms[i].0 == rel[0].name && Truthy(ms[i].1) && YieldsBelow(ms[i].1, rel[1..], v);
    DataMembersHas(ms, |ms|, path, i);
    MemberPathsComplete(ms[i].0, ms[i].1, path, rel[1..], v);
    assert rel == [Key(ms[i].0)] + rel[1..];
    assert path + [Key(ms[i].0)] + rel[1..] == path + rel;
  }

  lemma {:induction false} MemberPathsComplete(key: string, value: Json, path: Path, t: Path, v: Json)
    requires MemberPaths(key, value, path).Some? && Truthy(value) && YieldsBelow(value, t, v)
    ensures (path + [Key(key)] + t, v) in MemberPaths(key, value, path).value
    decreases value, 3
  {
    var p := path + [Key(key)];
    if t == [] {
      assert p + t == p;
    } else if value.Arr? {
      var items := value.items;
      var k := t[0].i;
      DataItemsHas(items, |items|, p, k);
      DataPathsComplete(items[k], p + [Index(k)], t[1..], v);
      assert t == [Index(k)] + t[1..];
      assert p + [Index(k)] + t[1..] == p + t;
    } else {
      DataPathsComplete(value, p, t, v);
    }
  }

  /** Everything yielded is reached. */
  lemma {:induction false} DataPathsYields(j: Json, path: Path, x: (Path, Json))
    requires DataPaths(j, path).Some? && x in DataPaths(j, path).value
    ensures |x.0| > |path| && x.0[..|path|] == path && Yields(j, x.0[|path|..], x.1)
    decreases j, 2
  {
    var ms := j.members;
    var i := DataMembersFrom(ms, |ms|, path, x);
    MemberPathsYields(ms[i].0, ms[i].1, path, x);
    var rel := x.0[|path|..];
    assert x.0[..|path| + 1][..|path|] == x.0[..|path|];
    assert rel[0] == x.0[..|path| + 1][|path|] == Key(ms[i].0);
    assert rel[1..] == x.0[|path| + 1..];
  }

  lemma {:induction false} MemberPathsYields(key: string, value: Json, path: Path, x: (Path, Json))
    requires MemberPaths(key, value, path).Some? && x in MemberPaths(key, value, path).value
    ensures Truthy(value) && |x.0| > |path| && x.0[..|path| + 1] == path + [Key(key)]
    ensures YieldsBelow(value, x.0[|path| + 1..], x.1)
    decreases value, 3
  {
    var p := path + [Key(key)];
    if value.Arr? && |value.items| > 0 && value.items[0].Obj? {
      var items := value.items;
      var i := DataItemsFrom(items, |items|, p, x);
      var q := p + [Index(i)];
      DataPathsYields(items[i], q, x);
      assert x.0[..|q|][..|p|] == x.0[..|p|];
      var t := x.0[|p|..];
      assert t[0] == x.0[..|q|][|p|] == Index(i);
      assert t[1..] == x.0[|q|..];
    } else if value.Obj? {
      DataPathsYields(value, p, x);
      assert x.0[..|p|][..|path|] == x.0[..|path|];
    } else {
      assert x == (p, value);
      assert x.0[|p|..] == [];
    }
  }

  lemma {:induction false} DataMembersNone(ms: seq<(string, Json)>, n: nat, path: Path, i: nat)
    requires i < n <= |ms| && MemberPaths(ms[i].0, ms[i].1, path).None?
    ensures DataMembers(ms, n, path).None?
  {
    if i < n - 1 {
      DataMembersNone(ms, n - 1, path, i);
    }
  }

  lemma {:induction false} DataItemsNone(items: seq<Json>, n: nat, p: Path, i: nat)
    requires i < n <= |items| && DataPaths(items[i], p + [Index(i)]).None?
    ensures DataItems(items, n, p).None?
  {
    if i < n - 1 {
      DataItemsNone(items, n - 1, p, i);
    }
  }

  /** The generator raises when it is called on a value that is not a dict. */
  lemma {:induction false} DataPathsNoneWhen(j: Json, path: Path, q: Path, u: Json)
    requires Visited(j, q, u) && !u.Obj?
    ensures DataPaths(j, path).None?
    decreases j, 2
  {
    if q != [] {
      var ms := j.members;
      var i :| 0 <= i < |ms| && ms[i].0 == q[0].name && Truthy(ms[i].1) && VisitedBelow(ms[i].1, q[1..], u);
      MemberPathsNoneWhen(ms[i].0, ms[i].1, path, q[1..], u);
      DataMembersNone(ms, |ms|, path, i);
    }
  }

  lemma {:induction false} MemberPathsNoneWhen(key: string, value: Json, path: Path, t: Path, u: Json)
    requires Truthy(value) && VisitedBelow(value, t, u) && !u.Obj?
    ensures MemberPaths(key, value, path).None?
    decreases value, 3
  {
    var p := path + [Key(key)];
    if value.Obj? {
      DataPathsNoneWhen(value, p, t, u);
    } else {
      var k := t[0].i;
      DataPathsNoneWhen(value.items[k], p + [Index(k)], t[1..], u);
      DataItemsNone(value.items, |value.items|, p, k);
    }
  }

  lemma {:induction false} DataMembersNoneAt(ms: seq<(string, Json)>, n: nat, path: Path) returns (i: nat)
    requires n <= |ms| && DataMembers(ms, n, path).None?
    ensures i < n && MemberPaths(ms[i].0, ms[i].1, path).None?
  {
    if MemberPaths(ms[n - 1].0, ms[n - 1].1, path).None? {
      i := n - 1;
    } else {
      i := DataMembersNoneAt(ms, n - 1, path);
    }
  }

  lemma {:induction false} DataItemsNoneAt(items: seq<Json>, n: nat, p: Path) returns (i: nat)
    requires n <= |items| && DataItems(items, n, p).None?
    ensures i < n && DataPaths(items[i], p + [Index(i)]).None?
  {
    if DataPaths(items[n - 1], p + [Index(n - 1)]).None? {
      i := n - 1;
    } else {
      i := DataItemsNoneAt(items, n - 1, p);
    }
  }

  /** When the generator raises, it was called on a value that is not a
      dict. */
  lemma {:induction false} DataPathsNoneWhere(j: Json, path: Path) returns (q: Path, u: Json)
    requires DataPaths(j, path).None?
    ensures Visited(j, q, u) && !u.Obj?
    decreases j, 2
  {
    if !j.Obj? {
      q, u := [], j;
    } else {
      var ms := j.members;
      var i := DataMembersNoneAt(ms, |ms|, path);
      var t;
      t, u := MemberPathsNoneWhere(ms[i].0, ms[i].1, path);
      q := [Key(ms[i].0)] + t;
      assert q[1..] == t;
    }
  }

  lemma {:induction false} MemberPathsNoneWhere(key: string, value: Json, path: Path) returns (t: Path, u: Json)
    requires MemberPaths(key, value, path).None?
    ensures Truthy(value) && VisitedBelow(value, t, u) && !u.Obj?
    decreases value, 3
  {
    var p := path + [Key(key)];
    if value.Obj? {
      t, u := DataPathsNoneWhere(value, p);
    } else {
      var k := DataItemsNoneAt(value.items, |value.items|, p);
      var t';
      t', u := DataPathsNoneWhere(value.items[k], p + [Index(k)]);
      t := [Index(k)] + t';
      assert t[1..] == t';
    }
  }

  /** `_generate_data_path(j, path)` raises exactly when it is called on a
      value that is not a dict; otherwise it yields, below `path`, exactly
      the values it reaches. */
  lemma DataPathsMeaning(j: Json, path: Path)
    ensures DataPaths(j, path).None? <==> exists q, u :: Visited(j, q, u) && !u.Obj?
    ensures DataPaths(j, path).Some? ==>
              forall x :: x in DataPaths(j, path).value ==> |x.0| > |path| && x.0[..|path|] == path
    ensures DataPaths(j, path).Some? ==>
              forall rel, v :: (path + rel, v) in DataPaths(j, path).value <==> Yields(j, rel, v)
  {
    if DataPaths(j, path).None? {
      var q, u := DataPathsNoneWhere(j, path);
      assert Visited(j, q, u) && !u.Obj?;
    } else {
      forall q, u | Visited(j, q, u) && !u.Obj?
        ensures false
      {
        DataPathsNoneWhen(j, path, q, u);
      }
      forall x | x in DataPaths(j, path).value
        ensures |x.0| > |path| && x.0[..|path|] == path
      {
        DataPathsYields(j, path, x);
      }
      forall rel, v
        ensures (path + rel, v) in DataPaths(j, path).value <==> Yields(j, rel, v)
      {
        if (path + rel, v) in DataPaths(j, path).value {
          DataPathsYields(j, path, (path + rel, v));
          assert (path + rel)[|path|..] == rel;
        }
        if Yields(j, rel, v) {
          DataPathsComplete(j, path, rel, v);
        }
      }
    }
  }

  // ---------------------------------------------------------------------
  // get_additional_codelist_values
  // ---------------------------------------------------------------------

  /** One entry of the result: where the field is, its codelist, and the
      values found that the codelist lacks. */
  datatype Additional = Additional(path: string, field: string, codelist: string, codelistUrl: string,
                                   isOpen: Json, values: PySet)

  /** The loaded codelists: file name to its codes. */
  type Codelists = map<string, set<string>>

  /** A schema path checked against its codelist: one with a codelist whose
      file loaded with at least one code (lines 659-664). */
  predicate Checked(k: seq<string>, cps: CodelistPaths, cls: Codelists)
  {
    k in cps && cps[k].file in cls && cls[cps[k].file] != {}
  }

  /** Lines 651-652: a list is checked item by item, anything else as is. */
  function ValuesOf(v: Json): seq<Json>
  {
    if v.Arr? then v.items else [v]
  }

  /** `value in codelist_values`, for a hashable value. */
  predicate InCodes(v: Json, codes: set<string>)
  {
    v.Str? && v.s in codes
  }

  /** The entry a newly reported path starts with (lines 670-677). */
  function Start(k: seq<string>, ref: CodelistRef, url: string): Additional
  {
    Additional(if k == [] then "" else Join("/", k[..|k| - 1]), if k == [] then "" else k[|k| - 1],
               ref.file, url + ref.file, ref.isOpen, map[])
  }

  /** Some value of `vals` is missing from `codes`. */
  predicate AnyMissing(vals: seq<Json>, codes: set<string>)
  {
    exists w :: w in vals && !InCodes(w, codes)
  }

  /** Some value of `vals` missing from `codes` equals `v` for Python. */
  predicate MissingIn(vals: seq<Json>, codes: set<string>, v: Json)
  {
    exists w :: w in vals && !InCodes(w, codes) && PyKey(w) == PyKey(v)
  }

  /** Lines 666-680 for one value `v` found at path `k`: a value missing
      from `codes` starts the path's entry with `start` unless it has one,
      and joins the entry's set. */
  function AddValue(out: map<seq<string>, Additional>, k: seq<string>, v: Json, codes: set<string>,
                    start: Additional): map<seq<string>, Additional>
  {
    if InCodes(v, codes) then out
    else
      var e := if k in out then out[k] else start;
      out[k := e.(values := PyAdd(e.values, v))]
  }

  /** The report after the values `vals` found at path `k` are checked in
      order. */
  function Added(out: map<seq<string>, Additional>, k: seq<string>, vals: seq<Json>, codes: set<string>,
                 start: Additional): map<seq<string>, Additional>
    decreases |vals|
  {
    if vals == [] then out
    else AddValue(Added(out, k, vals[..|vals| - 1], codes, start), k, vals[|vals| - 1], codes, start)
  }

  /** Every entry's set is a Python set. */
  predicate ValuesValid(out: map<seq<string>, Additional>)
  {
    forall k :: k in out ==> PySetValid(out[k].values)
  }

  /** Checking values at `k` leaves every other path's entry alone. */
  lemma {:induction false} AddedOther(out: map<seq<string>, Additional>, k: seq<string>, vals: seq<Json>, codes: set<string>,
                                      start: Additional, k2: seq<string>)
    requires k2 != k
    ensures k2 in Added(out, k, vals, codes, start) <==> k2 in out
    ensures k2 in out ==> Added(out, k, vals, codes, start)[k2] == out[k2]
    decreases |vals|
  {
    if vals != [] {
      AddedOther(out, k, vals[..|vals| - 1], codes, start, k2);
    }
  }

  /** Checking values keeps every entry's set a Python set. */
  lemma {:induction false} AddedValid(out: map<seq<string>, Additional>, k: seq<string>, vals: seq<Json>, codes: set<string>,
                                      start: Additional)
    requires start.values == map[] && ValuesValid(out)
    ensures ValuesValid(Added(out, k, vals, codes, start))
    decreases |vals|
  {
    if vals != [] {
      var m := Added(out, k, vals[..|vals| - 1], codes, start);
      AddedValid(out, k, vals[..|vals| - 1], codes, start);
      var e := if k in m then m[k] else start;
      PyAddMeaning(e.values, vals[|vals| - 1]);
    }
  }

  /** After checking values at `k`, the path is reported exactly when it
      was or one of the values is missing; its entry keeps what it started
      with, and its set gains exactly the missing values. */
  lemma {:induction false} AddedAt(out: map<seq<string>, Additional>, k: seq<string>, vals: seq<Json>, codes: set<string>,
                                   start: Additional, v: Json)
    requires start.values == map[]
    ensures var r := Added(out, k, vals, codes, start);
            (k in r <==> k in out || AnyMissing(vals, codes)) &&
            (k in r ==> r[k] == (if k in out then out[k] else start).(values := r[k].values)) &&
            (k in r ==> (PyIn(v, r[k].values) <==> (k in out && PyIn(v, out[k].values)) || MissingIn(vals, codes, v)))
    decreases |vals|
  {
    if vals != [] {
      var init := vals[..|vals| - 1];
      var last := vals[|vals| - 1];
      assert vals == init + [last];
      AddedAt(out, k, init, codes, start, v);
      var m := Added(out, k, init, codes, start);
      if !InCodes(last, codes) {
        var e := if k in m then m[k] else start;
        PyAddMeaning(e.values, last);
        assert PyIn(v, PyAdd(e.values, last)) <==> PyIn(v, e.values) || PyKey(v) == PyKey(last);
      }
      assert AnyMissing(vals, codes) <==> AnyMissing(init, codes) || !InCodes(last, codes);
      assert MissingIn(vals, codes, v) <==> MissingIn(init, codes, v) || (!InCodes(last, codes) && PyKey(last) == PyKey(v));
    }
  }

  /** The report after the first `n` yielded paths and values. */
  function ReportUpTo(ys: seq<(Path, Json)>, n: nat, cps: CodelistPaths, cls: Codelists, url: string): map<seq<string>, Additional>
    requires n <= |ys|
  {
    if n == 0 then map[]
    else
      var before := ReportUpTo(ys, n - 1, cps, cls, url);
      var k := Names(ys[n - 1].0);
      if Checked(k, cps, cls) then Added(before, k, ValuesOf(ys[n - 1].1), cls[cps[k].file], Start(k, cps[k], url))
      else before
  }

  /** Among the first `n` yielded values, one at a checked path `k` that
      is missing from the codelist and equals `v` for Python. */
  predicate Flagged(ys: seq<(Path, Json)>, n: nat, cps: CodelistPaths, cls: Codelists, k: seq<string>, v: Json)
    requires n <= |ys|
  {
    exists i :: 0 <= i < n && Names(ys[i].0) == k && Checked(k, cps, cls) &&
      MissingIn(ValuesOf(ys[i].1), cls[cps[k].file], v)
  }

  /** Among the first `n` yielded values, one at a checked path is a list
      or dict, which `value in codelist_values` cannot hash. */
  predicate Unhashable(ys: seq<(Path, Json)>, n: nat, cps: CodelistPaths, cls: Codelists)
    requires n <= |ys|
  {
    exists i, v :: 0 <= i < n && Checked(Names(ys[i].0), cps, cls) && v in ValuesOf(ys[i].1) && IsContainer(v)
  }

  /** `get_additional_codelist_values(schema_obj, codelist_url, json_data)`
      with the codelists `_load_codelists` returned; `None` where Python
      raises (the walk of the data meets a list of dicts holding a
      non-dict, or a checked value is a list or dict). */
  method AdditionalCodelistValues(schema: Json, url: string, data: Json, cls: Codelists)
    returns (r: Option<map<seq<string>, Additional>>)
    requires SchemaShape(schema)
    ensures url == "" ==> r == Some(map[])
    ensures url != "" ==>
              (r.None? <==> (DataPaths(data, []).None? ||
                             Unhashable(DataPaths(data, []).value, |DataPaths(data, []).value|, CodelistPathsOf(schema), cls)))
    ensures url != "" && r.Some? ==>
              r.value == ReportUpTo(DataPaths(data, []).value, |DataPaths(data, []).value|, CodelistPathsOf(schema), cls, url)
  {
    if url == "" {
      return Some(map[]);
    }
    var cps := SchemaCodelistPaths(schema);
    var gen := DataPaths(data, []);
    if gen.None? {
      return None;
    }
    var ys := gen.value;
    var out := map[];
    var i := 0;
    while i < |ys|
      invariant 0 <= i <= |ys|
      invariant out == ReportUpTo(ys, i, cps, cls, url)
      invariant !Unhashable(ys, i, cps, cls)
    {
      var k := Names(ys[i].0);
      UnhashableStep(ys, i, cps, cls);
      if Checked(k, cps, cls) {
        var res := AddMissing(out, k, ValuesOf(ys[i].1), cls[cps[k].file], Start(k, cps[k], url));
        if res.None? {
          return None;
        }
        out := res.value;
      }
      i := i + 1;
    }
    r := Some(out);
  }

  /** Lines 666-680 for one yielded path `k` and its values. */
  method AddMissing(out: map<seq<string>, Additional>, k: seq<string>, vals: seq<Json>, codes: set<string>, start: Additional)
    returns (res: Option<map<seq<string>, Additional>>)
    ensures res.None? <==> exists v :: v in vals && IsContainer(v)
    ensures res.Some? ==> res.value == Added(out, k, vals, codes, start)
  {
    var m := out;
    var j := 0;
    while j < |vals|
      invariant 0 <= j <= |vals|
      invariant forall t :: 0 <= t < j ==> !IsContainer(vals[t])
      invariant m == Added(out, k, vals[..j], codes, start)
    {
      var v := vals[j];
      if IsContainer(v) {
        return None;
      }
      if !InCodes(v, codes) {
        if k !in m {
          m := m[k := start];
        }
        m := m[k := m[k].(values := PyAdd(m[k].values, v))];
      }
      AddedStep(out, k, vals, j, codes, start);
      j := j + 1;
    }
    assert vals[..j] == vals;
    res := Some(m);
  }

  /** Checking one more value. */
  lemma AddedStep(out: map<seq<string>, Additional>, k: seq<string>, vals: seq<Json>, j: nat, codes: set<string>, start: Additional)
    requires j < |vals|
    ensures Added(out, k, vals[..j + 1], codes, start) == AddValue(Added(out, k, vals[..j], codes, start), k, vals[j], codes, start)
  {
    assert vals[..j + 1][..j] == vals[..j];
  }

  lemma UnhashableStep(ys: seq<(Path, Json)>, i: nat, cps: CodelistPaths, cls: Codelists)
    requires i < |ys|
    ensures Unhashable(ys, i + 1, cps, cls) <==>
              Unhashable(ys, i, cps, cls) ||
              (Checked(Names(ys[i].0), cps, cls) && exists v :: v in ValuesOf(ys[i].1) && IsContainer(v))
  {
  }

  /** The values flagged among the first `i + 1` yields: those among the
      first `i`, and those of yield `i`. */
  lemma FlaggedStep(ys: seq<(Path, Json)>, i: nat, cps: CodelistPaths, cls: Codelists, k: seq<string>, v: Json)
    requires i < |ys|
    ensures Flagged(ys, i + 1, cps, cls, k, v) <==>
              Flagged(ys, i, cps, cls, k, v) ||
              (k == Names(ys[i].0) && Checked(k, cps, cls) && MissingIn(ValuesOf(ys[i].1), cls[cps[k].file], v))
  {
  }

  /** A value missing from the codelist is there exactly when some value
      missing from it is. */
  lemma FlaggedSomeStep(ys: seq<(Path, Json)>, i: nat, j: nat, cps: CodelistPaths, cls: Codelists, k: seq<string>)
    requires j == i + 1 <= |ys|
    ensures (exists v :: Flagged(ys, j, cps, cls, k, v)) <==>
              (exists v :: Flagged(ys, i, cps, cls, k, v)) ||
              (k == Names(ys[i].0) && Checked(k, cps, cls) && AnyMissing(ValuesOf(ys[i].1), cls[cps[k].file]))
  {
    if v :| Flagged(ys, j, cps, cls, k, v) {
      FlaggedStep(ys, i, cps, cls, k, v);
    }
    if k == Names(ys[i].0) && Checked(k, cps, cls) && AnyMissing(ValuesOf(ys[i].1), cls[cps[k].file]) {
      var w :| w in ValuesOf(ys[i].1) && !InCodes(w, cls[cps[k].file]);
      FlaggedStep(ys, i, cps, cls, k, w);
    }
    if v :| Flagged(ys, i, cps, cls, k, v) {
      FlaggedStep(ys, i, cps, cls, k, v);
    }
  }

  /** One more yield adds its own path exactly when one of its values is
      missing from a codelist it is checked against. */
  lemma ReportStepKeys(ys: seq<(Path, Json)>, n: nat, cps: CodelistPaths, cls: Codelists, url: string, k: seq<string>)
    requires 0 < n <= |ys|
    ensures k in ReportUpTo(ys, n, cps, cls, url) <==>
              k in ReportUpTo(ys, n - 1, cps, cls, url) ||
              (k == Names(ys[n - 1].0) && Checked(k, cps, cls) && AnyMissing(ValuesOf(ys[n - 1].1), cls[cps[k].file]))
  {
    var k' := Names(ys[n - 1].0);
    if Checked(k', cps, cls) {
      var before := ReportUpTo(ys, n - 1, cps, cls, url);
      var start := Start(k', cps[k'], url);
      if k == k' {
        AddedAt(before, k', ValuesOf(ys[n - 1].1), cls[cps[k'].file], start, Null);
      } else {
        AddedOther(before, k', ValuesOf(ys[n - 1].1), cls[cps[k'].file], start, k);
      }
    }
  }

  /** One more yield keeps every entry's fields other than its set, and
      starts a new entry from `Start`. */
  lemma ReportStepEntry(ys: seq<(Path, Json)>, n: nat, cps: CodelistPaths, cls: Codelists, url: string, k: seq<string>)
    requires 0 < n <= |ys| && k in ReportUpTo(ys, n, cps, cls, url)
    ensures var before := ReportUpTo(ys, n - 1, cps, cls, url);
            var after := ReportUpTo(ys, n, cps, cls, url);
            (k in before ==> after[k] == before[k].(values := after[k].values)) &&
            (k !in before ==> Checked(k, cps, cls) && after[k] == Start(k, cps[k], url).(values := after[k].values))
  {
    var k' := Names(ys[n - 1].0);
    if Checked(k', cps, cls) {
      var before := ReportUpTo(ys, n - 1, cps, cls, url);
      var start := Start(k', cps[k'], url);
      if k == k' {
        AddedAt(before, k', ValuesOf(ys[n - 1].1), cls[cps[k'].file], start, Null);
      } else {
        AddedOther(before, k', ValuesOf(ys[n - 1].1), cls[cps[k'].file], start, k);
      }
    }
  }

  /** One more yield adds to its path's set exactly its missing values. */
  lemma ReportStepValues(ys: seq<(Path, Json)>, n: nat, cps: CodelistPaths, cls: Codelists, url: string, k: seq<string>, v: Json)
    requires 0 < n <= |ys| && k in ReportUpTo(ys, n, cps, cls, url)
    ensures var before := ReportUpTo(ys, n - 1, cps, cls, url);
            PyIn(v, ReportUpTo(ys, n, cps, cls, url)[k].values) <==>
              (k in before && PyIn(v, before[k].values)) ||
              (k == Names(ys[n - 1].0) && Checked(k, cps, cls) && MissingIn(ValuesOf(ys[n - 1].1), cls[cps[k].file], v))
  {
    var k' := Names(ys[n - 1].0);
    if Checked(k', cps, cls) {
      var before := ReportUpTo(ys, n - 1, cps, cls, url);
      var start := Start(k', cps[k'], url);
      if k == k' {
        AddedAt(before, k', ValuesOf(ys[n - 1].1), cls[cps[k'].file], start, v);
      } else {
        AddedOther(before, k', ValuesOf(ys[n - 1].1), cls[cps[k'].file], start, k);
      }
    }
  }

  lemma {:induction false} ReportValid(ys: seq<(Path, Json)>, n: nat, cps: CodelistPaths, cls: Codelists, url: string)
    requires n <= |ys|
    ensures ValuesValid(ReportUpTo(ys, n, cps, cls, url))
  {
    if n > 0 {
      ReportValid(ys, n - 1, cps, cls, url);
      var k' := Names(ys[n - 1].0);
      if Checked(k', cps, cls) {
        AddedValid(ReportUpTo(ys, n - 1, cps, cls, url), k', ValuesOf(ys[n - 1].1), cls[cps[k'].file], Start(k', cps[k'], url));
      }
    }
  }

  /** A path is reported exactly when a value missing from its codelist
      was found there. */
  lemma {:induction false} ReportedKeys(ys: seq<(Path, Json)>, n: nat, cps: CodelistPaths, cls: Codelists, url: string, k: seq<string>)
    requires n <= |ys|
    ensures k in ReportUpTo(ys, n, cps, cls, url) <==> exists v :: Flagged(ys, n, cps, cls, k, v)
  {
    if n > 0 {
      ReportedKeys(ys, n - 1, cps, cls, url, k);
      ReportStepKeys(ys, n, cps, cls, url, k);
      FlaggedSomeStep(ys, n - 1, n, cps, cls, k);
    }
  }

  /** A reported path holds, as a Python set, exactly the values found
      there that its codelist lacks. */
  lemma {:induction false} ReportedValues(ys: seq<(Path, Json)>, n: nat, cps: CodelistPaths, cls: Codelists, url: string,
                                          k: seq<string>, v: Json)
    requires n <= |ys| && k in ReportUpTo(ys, n, cps, cls, url)
    ensures PyIn(v, ReportUpTo(ys, n, cps, cls, url)[k].values) <==> Flagged(ys, n, cps, cls, k, v)
  {
    FlaggedStep(ys, n - 1, cps, cls, k, v);
    ReportStepValues(ys, n, cps, cls, url, k, v);
    if k in ReportUpTo(ys, n - 1, cps, cls, url) {
      ReportedValues(ys, n - 1, cps, cls, url, k, v);
    } else {
      ReportedKeys(ys, n - 1, cps, cls, url, k);
    }
  }

  /** A reported path is checked, and its entry is the one it started
      with: path and field split from it, the codelist and its URL, and
      whether the codelist is open. */
  lemma {:induction false} ReportedEntry(ys: seq<(Path, Json)>, n: nat, cps: CodelistPaths, cls: Codelists, url: string,
                                         k: seq<string>)
    requires n <= |ys| && k in ReportUpTo(ys, n, cps, cls, url)
    ensures Checked(k, cps, cls)
    ensures ReportUpTo(ys, n, cps, cls, url)[k] == Start(k, cps[k], url).(values := ReportUpTo(ys, n, cps, cls, url)[k].values)
  {
    ReportStepEntry(ys, n, cps, cls, url, k);
    if k in ReportUpTo(ys, n - 1, cps, cls, url) {
      ReportedEntry(ys, n - 1, cps, cls, url, k);
    }
  }

  /** What the result says, for a codelist URL that is set: each reported
      path is a schema codelist path whose codelist loaded, named by its
      parent path and last field, with the codelist's openness, and it
      holds exactly the values found there that the codelist lacks. */
  lemma AdditionalMeaning(schema: Json, url: string, data: Json, cls: Codelists, k: seq<string>, v: Json)
    requires SchemaShape(schema) && DataPaths(data, []).Some?
    ensures var ys := DataPaths(data, []).value;
            var cps := CodelistPathsOf(schema);
            var out := ReportUpTo(ys, |ys|, cps, cls, url);
            (k in out <==> exists w :: Flagged(ys, |ys|, cps, cls, k, w)) &&
            (k in out ==>
               Checked(k, cps, cls) && |k| >= 1 &&
               out[k].path == Join("/", k[..|k| - 1]) && out[k].field == k[|k| - 1] &&
               out[k].codelist == cps[k].file && out[k].codelistUrl == url + cps[k].file &&
               out[k].isOpen == cps[k].isOpen &&
               PySetValid(out[k].values) &&
               (PyIn(v, out[k].values) <==> Flagged(ys, |ys|, cps, cls, k, v)))
  {
    var ys := DataPaths(data, []).value;
    var cps := CodelistPathsOf(schema);
    ReportedKeys(ys, |ys|, cps, cls, url, k);
    if k in ReportUpTo(ys, |ys|, cps, cls, url) {
      ReportedEntry(ys, |ys|, cps, cls, url, k);
      ReportedValues(ys, |ys|, cps, cls, url, k, v);
      ReportValid(ys, |ys|, cps, cls, url);
      CodelistPathsExactly(schema, k);
    }
  }
}
