/** Field coverage (cove/lib/common.py:316-376): the slash-separated fields a
    data document holds, the fields a schema declares, and the fields present
    in the data but unknown to the schema. */
module FieldCoverage {
  import opened JsonValues
  import opened Text
  import opened SchemaTree

  // ---------------------------------------------------------------------
  // fields_present_generator and get_fields_present
  // ---------------------------------------------------------------------

  /** `fields_present_generator(j, prefix)`, in the order it yields. */
  function FieldsPresent(j: Json, prefix: string): (r: seq<string>)
    ensures !j.Obj? ==> r == []
    decreases j, 2
  {
    if j.Obj? then MembersFields(j.members, |j.members|, prefix) else []
  }

  /** The fields yielded for the first `n` members of an object. */
  function MembersFields(ms: seq<(string, Json)>, n: nat, prefix: string): seq<string>
    requires n <= |ms|
    decreases Obj(ms), 1, n
  {
    if n == 0 then [] else MembersFields(ms, n - 1, prefix) + MemberFields(ms[n - 1].0, ms[n - 1].1, prefix)
  }

  /** The fields yielded for one member `k: v`: those below it, then its own. */
  function MemberFields(k: string, v: Json, prefix: string): seq<string>
    decreases v, 3
  {
    var here := prefix + "/" + k;
    (if v.Arr? then ItemsFields(v.items, |v.items|, here)
     else if v.Obj? then FieldsPresent(v, here)
     else []) + [here]
  }

  /** The fields yielded for the dict elements among the first `n` items of a list. */
  function ItemsFields(items: seq<Json>, n: nat, prefix: string): seq<string>
    requires n <= |items|
    decreases Arr(items), 1, n
  {
    if n == 0 then [] else ItemsFields(items, n - 1, prefix) + FieldsPresent(items[n - 1], prefix)
  }

  /** `get_fields_present(j)`: how many times each field is yielded. */
  function FieldCounts(j: Json): (r: map<string, nat>)
    ensures forall f :: f in r <==> f in FieldsPresent(j, "")
    ensures forall f :: f in r ==> r[f] == multiset(FieldsPresent(j, ""))[f] >= 1
  {
    var fs := FieldsPresent(j, "");
    map f | f in fs :: multiset(fs)[f]
  }

  /** Declarative reading of the generator: `f` is the field of a member of
      a dict reachable from `j` through dict values and through the dict
      elements of list values. */
  ghost predicate Emits(j: Json, prefix: string, f: string)
    decreases j, 1
  {
    j.Obj? && exists i :: 0 <= i < |j.members| && MemberEmits(j.members[i].0, j.members[i].1, prefix, f)
  }

  ghost predicate MemberEmits(k: string, v: Json, prefix: string, f: string)
    decreases v, 2
  {
    var here := prefix + "/" + k;
    || f == here
    || Emits(v, here, f)
    || (v.Arr? && exists t :: 0 <= t < |v.items| && Emits(v.items[t], here, f))
  }

  /** The generator yields exactly the fields of reachable dict members. */
  lemma {:induction false} FieldsPresentExactly(j: Json, prefix: string, f: string)
    ensures f in FieldsPresent(j, prefix) <==> Emits(j, prefix, f)
    decreases j, 2
  {
    if j.Obj? {
      MembersFieldsExactly(j.members, |j.members|, prefix, f);
    }
  }

  lemma {:induction false} MembersFieldsExactly(ms: seq<(string, Json)>, n: nat, prefix: string, f: string)
    requires n <= |ms|
    ensures f in MembersFields(ms, n, prefix) <==>
            exists i :: 0 <= i < n && MemberEmits(ms[i].0, ms[i].1, prefix, f)
    decreases Obj(ms), 1, n
  {
    if n > 0 {
      MembersFieldsExactly(ms, n - 1, prefix, f);
      MemberFieldsExactly(ms[n - 1].0, ms[n - 1].1, prefix, f);
      if MemberEmits(ms[n - 1].0, ms[n - 1].1, prefix, f) {
        assert f in MemberFields(ms[n - 1].0, ms[n - 1].1, prefix);
      }
    }
  }

  lemma {:induction false} MemberFieldsExactly(k: string, v: Json, prefix: string, f: string)
    ensures f in MemberFields(k, v, prefix) <==> MemberEmits(k, v, prefix, f)
    decreases v, 3
  {
    var here := prefix + "/" + k;
    FieldsPresentExactly(v, here, f);
    if v.Arr? {
      ItemsFieldsExactly(v.items, |v.items|, here, f);
    }
  }

  lemma {:induction false} ItemsFieldsExactly(items: seq<Json>, n: nat, prefix: string, f: string)
    requires n <= |items|
    ensures f in ItemsFields(items, n, prefix) <==> exists t :: 0 <= t < n && Emits(items[t], prefix, f)
    decreases Arr(items), 1, n
  {
    if n > 0 {
      ItemsFieldsExactly(items, n - 1, prefix, f);
      FieldsPresentExactly(items[n - 1], prefix, f);
    }
  }

  /** Every field yielded below `prefix` extends `prefix + "/"`. */
  lemma {:induction false} FieldsPresentBelow(j: Json, prefix: string)
    ensures forall f :: f in FieldsPresent(j, prefix) ==> |f| > |prefix| && f[..|prefix| + 1] == prefix + "/"
    decreases j, 2
  {
    if j.Obj? {
      MembersFieldsBelow(j.members, |j.members|, prefix);
    }
  }

  lemma {:induction false} MembersFieldsBelow(ms: seq<(string, Json)>, n: nat, prefix: string)
    requires n <= |ms|
    ensures forall f :: f in MembersFields(ms, n, prefix) ==> |f| > |prefix| && f[..|prefix| + 1] == prefix + "/"
    decreases Obj(ms), 1, n
  {
    if n > 0 {
      MembersFieldsBelow(ms, n - 1, prefix);
      MemberFieldsBelow(ms[n - 1].0, ms[n - 1].1, prefix);
    }
  }

  lemma {:induction false} MemberFieldsBelow(k: string, v: Json, prefix: string)
    ensures forall f :: f in MemberFields(k, v, prefix) ==> |f| > |prefix| && f[..|prefix| + 1] == prefix + "/"
    decreases v, 4
  {
    var here := prefix + "/" + k;
    var below := if v.Arr? then ItemsFields(v.items, |v.items|, here)
                 else if v.Obj? then FieldsPresent(v, here) else [];
    BelowMember(k, v, prefix);
    forall f | f in MemberFields(k, v, prefix)
      ensures |f| > |prefix| && f[..|prefix| + 1] == prefix + "/"
    {
      if f != here {
        assert f in below;
        assert f[..|prefix| + 1] == f[..|here| + 1][..|prefix| + 1];
      }
    }
  }

  /** What a member yields besides its own field lies below that field. */
  lemma {:induction false} BelowMember(k: string, v: Json, prefix: string)
    ensures var here := prefix + "/" + k;
            forall f :: f in (if v.Arr? then ItemsFields(v.items, |v.items|, here)
                              else if v.Obj? then FieldsPresent(v, here) else []) ==>
              |f| > |here| && f[..|here| + 1] == here + "/"
    decreases v, 3
  {
    var here := prefix + "/" + k;
    if v.Arr? {
      ItemsFieldsBelow(v.items, |v.items|, here);
    } else {
      FieldsPresentBelow(v, here);
    }
  }

  lemma {:induction false} ItemsFieldsBelow(items: seq<Json>, n: nat, prefix: string)
    requires n <= |items|
    ensures forall f :: f in ItemsFields(items, n, prefix) ==> |f| > |prefix| && f[..|prefix| + 1] == prefix + "/"
    decreases Arr(items), 1, n
  {
    if n > 0 {
      ItemsFieldsBelow(items, n - 1, prefix);
      FieldsPresentBelow(items[n - 1], prefix);
    }
  }

  /** A member's own field is yielded exactly once for that member, whatever
      its value: for a list of any length, even empty, as for a dict or a
      scalar. */
  lemma MemberFieldYieldedOnce(k: string, v: Json, prefix: string)
    ensures multiset(MemberFields(k, v, prefix))[prefix + "/" + k] == 1
  {
    var here := prefix + "/" + k;
    var below := if v.Arr? then ItemsFields(v.items, |v.items|, here)
                 else if v.Obj? then FieldsPresent(v, here) else [];
    BelowMember(k, v, prefix);
    assert MemberFields(k, v, prefix) == below + [here];
    assert here !in below;
    assert multiset(below)[here] == 0;
  }

  /** Every yielded field has a member name after its last slash. */
  lemma FieldsPresentHaveParent(j: Json, f: string)
    requires f in FieldsPresent(j, "")
    ensures LastSlash(f).Some?
    ensures f == BeforeLastSegment(f) + "/" + LastSegment(f)
  {
    FieldsPresentBelow(j, "");
    assert f[0] == '/';
    assert LastSlash(f).Some?;
  }

  // ---------------------------------------------------------------------
  // schema_dict_fields_generator
  // ---------------------------------------------------------------------

  /** `'/' + name + field` for every field. */
  function Prefixed(name: string, fields: seq<string>): (r: seq<string>)
    ensures |r| == |fields|
    ensures forall i :: 0 <= i < |fields| ==> r[i] == "/" + name + fields[i]
  {
    if fields == [] then [] else Prefixed(name, fields[..|fields| - 1]) + ["/" + name + fields[|fields| - 1]]
  }

  /** The branches a property's fields are read from: its `oneOf` list, or
      the property itself. */
  function Branches(value: Json): (r: seq<Json>)
    ensures r != [value] ==> HasKey(value, "oneOf") && value.members[KeyIndex(value.members, "oneOf").value].1 == Arr(r)
  {
    match Get(value, "oneOf")
    case Some(Arr(bs)) => bs
    case _ => [value]
  }

  /** `schema_dict_fields_generator(sd)`, in the order it yields. */
  function SchemaFields(sd: Json): seq<string>
    decreases sd, 3
  {
    var ps := Members(sd, "properties");
    if ps == [] then [] else PropertiesFields(ps, |ps|)
  }

  function PropertiesFields(ms: seq<(string, Json)>, n: nat): seq<string>
    requires n <= |ms|
    decreases Obj(ms), 2, n
  {
    if n == 0 then []
    else PropertiesFields(ms, n - 1) + BranchesFields(ms[n - 1].0, ms[n - 1].1, |Branches(ms[n - 1].1)|)
  }

  /** The fields yielded for the first `n` branches of the property `name: value`. */
  function BranchesFields(name: string, value: Json, n: nat): seq<string>
    requires n <= |Branches(value)|
    decreases value, 5, n
  {
    if n == 0 then [] else BranchesFields(name, value, n - 1) + BranchFields(name, Branches(value)[n - 1])
  }

  /** One branch of a property: the fields of an object branch or of an
      array branch's items, prefixed with the property name, then the
      property's own field. */
  function BranchFields(name: string, b: Json): seq<string>
    decreases b, 4
  {
    (if Str("object") in TypeSet(b) then Prefixed(name, SchemaFields(b))
     else if Str("array") in TypeSet(b) && HasKey(b, "items") then Prefixed(name, SchemaFields(Items(b)))
     else []) + ["/" + name]
  }

  /** Declarative reading of the generator: `f` is `/name` for a property
      `name` with at least one branch, or `/name` followed by a field
      declared by an object branch, or by the items of an array branch. */
  ghost predicate Declares(sd: Json, f: string)
    decreases sd, 3
  {
    exists i :: 0 <= i < |Members(sd, "properties")| && PropertyDeclares(Members(sd, "properties")[i].0, Members(sd, "properties")[i].1, f)
  }

  ghost predicate PropertyDeclares(name: string, value: Json, f: string)
    decreases value, 5
  {
    exists t :: 0 <= t < |Branches(value)| && BranchDeclares(name, Branches(value)[t], f)
  }

  ghost predicate BranchDeclares(name: string, b: Json, f: string)
    decreases b, 4
  {
    var head := "/" + name;
    || f == head
    || (|f| > |head| && f[..|head|] == head &&
        if Str("object") in TypeSet(b) then Declares(b, f[|head|..])
        else Str("array") in TypeSet(b) && HasKey(b, "items") && Declares(Items(b), f[|head|..]))
  }

  lemma PrefixedMember(name: string, fields: seq<string>, f: string)
    requires forall g :: g in fields ==> g != ""
    ensures f in Prefixed(name, fields) <==>
            (|f| > |"/" + name| && f[..|"/" + name|] == "/" + name && f[|"/" + name|..] in fields)
  {
    var head := "/" + name;
    if f in Prefixed(name, fields) {
      var i :| 0 <= i < |fields| && Prefixed(name, fields)[i] == f;
      assert f == head + fields[i];
      assert fields[i] in fields;
      assert f[..|head|] == head && f[|head|..] == fields[i];
    }
    if |f| > |head| && f[..|head|] == head && f[|head|..] in fields {
      var i :| 0 <= i < |fields| && fields[i] == f[|head|..];
      assert f == f[..|head|] + f[|head|..];
      assert f == head + fields[i];
      assert Prefixed(name, fields)[i] == f;
    }
  }

  /** A schema field is yielded exactly when the declarative reading says
      so, and it is never empty. */
  lemma {:induction false} SchemaFieldsExactly(sd: Json, f: string)
    ensures f in SchemaFields(sd) <==> Declares(sd, f)
    ensures f in SchemaFields(sd) ==> f != ""
    decreases sd, 3
  {
    var ps := Members(sd, "properties");
    if ps != [] {
      PropertiesFieldsExactly(ps, |ps|, f);
    }
  }

  lemma {:induction false} PropertiesFieldsExactly(ms: seq<(string, Json)>, n: nat, f: string)
    requires n <= |ms|
    ensures f in PropertiesFields(ms, n) <==> exists i :: 0 <= i < n && PropertyDeclares(ms[i].0, ms[i].1, f)
    ensures f in PropertiesFields(ms, n) ==> f != ""
    decreases Obj(ms), 2, n
  {
    if n > 0 {
      PropertiesFieldsExactly(ms, n - 1, f);
      LastProperty(ms, n, f);
      if f in PropertiesFields(ms, n) {
        if f in PropertiesFields(ms, n - 1) {
          var i :| 0 <= i < n - 1 && PropertyDeclares(ms[i].0, ms[i].1, f);
          assert 0 <= i < n && PropertyDeclares(ms[i].0, ms[i].1, f);
        } else {
          assert PropertyDeclares(ms[n - 1].0, ms[n - 1].1, f);
        }
      } else {
        forall i | 0 <= i < n
          ensures !PropertyDeclares(ms[i].0, ms[i].1, f)
        {
          if i < n - 1 {
            assert f !in PropertiesFields(ms, n - 1);
          }
        }
      }
    }
  }

  /** One more property adds exactly the fields that property declares. */
  lemma {:induction false} LastProperty(ms: seq<(string, Json)>, n: nat, f: string)
    requires 0 < n <= |ms|
    ensures f in PropertiesFields(ms, n) <==>
            f in PropertiesFields(ms, n - 1) || PropertyDeclares(ms[n - 1].0, ms[n - 1].1, f)
    ensures f in PropertiesFields(ms, n) && f !in PropertiesFields(ms, n - 1) ==> f != ""
    decreases Obj(ms), 2, n, 0
  {
    var (name, value) := ms[n - 1];
    BranchesFieldsExactly(name, value, |Branches(value)|, f);
    assert PropertiesFields(ms, n) == PropertiesFields(ms, n - 1) + BranchesFields(name, value, |Branches(value)|);
  }

  lemma {:induction false} BranchesFieldsExactly(name: string, value: Json, n: nat, f: string)
    requires n <= |Branches(value)|
    ensures f in BranchesFields(name, value, n) <==>
            exists t :: 0 <= t < n && BranchDeclares(name, Branches(value)[t], f)
    ensures f in BranchesFields(name, value, n) ==> f != ""
    decreases value, 6, n
  {
    if n > 0 {
      var bs := Branches(value);
      BranchesFieldsExactly(name, value, n - 1, f);
      LastBranch(name, value, n, f);
      if f in BranchesFields(name, value, n) {
        if f in BranchesFields(name, value, n - 1) {
          var t :| 0 <= t < n - 1 && BranchDeclares(name, bs[t], f);
          assert 0 <= t < n && BranchDeclares(name, bs[t], f);
        } else {
          assert BranchDeclares(name, bs[n - 1], f);
        }
      } else {
        forall t | 0 <= t < n
          ensures !BranchDeclares(name, bs[t], f)
        {
          if t < n - 1 {
            assert f !in BranchesFields(name, value, n - 1);
          }
        }
      }
    }
  }

  /** One more branch adds exactly the fields that branch declares. */
  lemma {:induction false} LastBranch(name: string, value: Json, n: nat, f: string)
    requires 0 < n <= |Branches(value)|
    ensures f in BranchesFields(name, value, n) <==>
            f in BranchesFields(name, value, n - 1) || BranchDeclares(name, Branches(value)[n - 1], f)
    ensures f in BranchesFields(name, value, n) && f !in BranchesFields(name, value, n - 1) ==> f != ""
    decreases value, 6, n, 0
  {
    var b := Branches(value)[n - 1];
    BranchFieldsExactly(name, b, f);
    assert BranchesFields(name, value, n) == BranchesFields(name, value, n - 1) + BranchFields(name, b);
  }

  lemma {:induction false} BranchFieldsExactly(name: string, b: Json, f: string)
    ensures f in BranchFields(name, b) <==> BranchDeclares(name, b, f)
    ensures f in BranchFields(name, b) ==> f != ""
    decreases b, 5
  {
    var head := "/" + name;
    if Str("object") in TypeSet(b) {
      SchemaFieldsNonEmpty(b);
      PrefixedMember(name, SchemaFields(b), f);
      if |f| > |head| {
        SchemaFieldsExactly(b, f[|head|..]);
      }
    } else if Str("array") in TypeSet(b) && HasKey(b, "items") {
      SchemaFieldsNonEmpty(Items(b));
      PrefixedMember(name, SchemaFields(Items(b)), f);
      if |f| > |head| {
        SchemaFieldsExactly(Items(b), f[|head|..]);
      }
    }
  }

  lemma {:induction false} SchemaFieldsNonEmpty(sd: Json)
    ensures forall g :: g in SchemaFields(sd) ==> g != ""
    decreases sd, 4
  {
    forall g | g in SchemaFields(sd)
      ensures g != ""
    {
      SchemaFieldsExactly(sd, g);
    }
  }

  // ---------------------------------------------------------------------
  // get_counts_additional_fields
  // ---------------------------------------------------------------------

  /** A field kept by `get_counts_additional_fields`: present in the data,
      not a schema field, its parent top-level or a schema field, and, when
      the language filter is on, its name not a language-tagged one. */
  predicate Additional(counts: map<string, nat>, schemaFields: set<string>, fieldsRegex: bool,
                       languageTagged: string -> bool, f: string)
  {
    && f in counts
    && f !in schemaFields
    && (BeforeLastSegment(f) == "" || BeforeLastSegment(f) in schemaFields)
    && !(fieldsRegex && languageTagged(LastSegment(f)))
  }

  /** The schema fields the additional fields are measured against: the
      record-package schema's when `schemaName` names it, the
      release-package schema's otherwise. */
  function SchemaFieldSet(releasePkgSchema: Json, recordPkgSchema: Json, schemaName: string): (r: set<string>)
    ensures forall f :: f in r ==> f != ""
  {
    var sd := if schemaName == "record-package-schema.json" then recordPkgSchema else releasePkgSchema;
    SchemaFieldsNonEmpty(sd);
    set f | f in SchemaFields(sd)
  }

  /** `get_counts_additional_fields`: `(parent, name, count)` for each
      additional field.  `languageTagged` stands for `LANGUAGE_RE.search`. */
  method CountsAdditionalFields(data: Json, releasePkgSchema: Json, recordPkgSchema: Json, schemaName: string,
                                fieldsRegex: bool, languageTagged: string -> bool)
    returns (r: set<(string, string, nat)>)
    requires SchemaShape(releasePkgSchema) && SchemaShape(recordPkgSchema)
    ensures forall t :: t in r ==>
              && t.0 + "/" + t.1 in FieldCounts(data)
              && t.2 == FieldCounts(data)[t.0 + "/" + t.1]
              && Additional(FieldCounts(data), SchemaFieldSet(releasePkgSchema, recordPkgSchema, schemaName),
                            fieldsRegex, languageTagged, t.0 + "/" + t.1)
              && (t.0 == "" || t.0 in SchemaFieldSet(releasePkgSchema, recordPkgSchema, schemaName))
              && !(fieldsRegex && languageTagged(t.1))
    ensures forall f :: Additional(FieldCounts(data), SchemaFieldSet(releasePkgSchema, recordPkgSchema, schemaName),
                                   fieldsRegex, languageTagged, f) ==>
              (BeforeLastSegment(f), LastSegment(f), FieldCounts(data)[f]) in r
  {
    var schemaFields := SchemaFieldSet(releasePkgSchema, recordPkgSchema, schemaName);
    var counts := FieldCounts(data);
    var dataOnlyAll := counts.Keys - schemaFields;
    var remaining := dataOnlyAll;
    var dataOnly: set<string> := {};
    while remaining != {}
      invariant remaining <= dataOnlyAll
      invariant forall f :: f in dataOnly <==>
                  f in dataOnlyAll - remaining && Additional(counts, schemaFields, fieldsRegex, languageTagged, f)
      decreases remaining
    {
      var field :| field in remaining;
      var parentField := BeforeLastSegment(field);
      if parentField == "" || parentField in schemaFields {
        if !(fieldsRegex && languageTagged(LastSegment(field))) {
          dataOnly := dataOnly + {field};
        }
      }
      remaining := remaining - {field};
    }
    r := set f | f in dataOnly :: Entry(counts, f);
    forall t | t in r
      ensures t.0 + "/" + t.1 in dataOnly && t.2 == counts[t.0 + "/" + t.1]
    {
      var f :| f in dataOnly && t == Entry(counts, f);
      FieldsPresentHaveParent(data, f);
    }
  }

  /** The report entry for a field: its parent, its name and its count. */
  function Entry(counts: map<string, nat>, f: string): (string, string, nat)
    requires f in counts
  {
    (BeforeLastSegment(f), LastSegment(f), counts[f])
  }

  /** Different additional fields give different report entries, so the
      returned list has one entry per additional field. */
  lemma ReportEntriesDistinct(data: Json, f: string, g: string)
    requires f in FieldsPresent(data, "") && g in FieldsPresent(data, "")
    requires f != g
    ensures (BeforeLastSegment(f), LastSegment(f)) != (BeforeLastSegment(g), LastSegment(g))
  {
    FieldsPresentHaveParent(data, f);
    FieldsPresentHaveParent(data, g);
  }
}
