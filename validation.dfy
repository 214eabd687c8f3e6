/** The validation side of the analysis (cove/lib/common.py:277-447): the
    `uniqueItems` and `required` checks that replace Draft 4's own, and
    the loop of `get_schema_validation_errors` that turns the validator's
    stream of errors into the report grouped by kind, message and
    generic path. */
module Validation {
  import opened JsonValues
  import opened Text

  // ---------------------------------------------------------------------
  // unique_ids
  // ---------------------------------------------------------------------

  /** `item.get('id')`: Null for a missing id, and for an item that is
      not a dict (whose `.get` raises AttributeError, caught as None). */
  function IdOf(item: Json): Json
  {
    if item.Obj? then GetOr(item, "id", Null) else Null
  }

  /** An item the id check can use: its id is truthy and not a list or
      dict. */
  predicate Identified(item: Json)
  {
    Truthy(IdOf(item)) && !IsContainer(IdOf(item))
  }

  predicate AllIdentified(items: seq<Json>)
  {
    forall i :: 0 <= i < |items| ==> Identified(items[i])
  }

  predicate IdentifiedUpTo(items: seq<Json>, n: nat)
    requires n <= |items|
  {
    forall i :: 0 <= i < n ==> Identified(items[i])
  }

  lemma IdentifiedStep(items: seq<Json>, n: nat)
    requires n < |items| && IdentifiedUpTo(items, n) && Identified(items[n])
    ensures IdentifiedUpTo(items, n + 1)
  {
  }

  /** No two items share an id, with ids compared as Python compares
      them (`1` and `True` are the same id). */
  predicate DistinctIds(items: seq<Json>)
  {
    forall i, j :: 0 <= i < j < |items| ==> PyKey(IdOf(items[i])) != PyKey(IdOf(items[j]))
  }

  /** The ids of the items, in order. */
  function Ids(items: seq<Json>): (r: seq<Json>)
    ensures |r| == |items| && forall i :: 0 <= i < |items| ==> r[i] == IdOf(items[i])
  {
    seq(|items|, i requires 0 <= i < |items| => IdOf(items[i]))
  }

  /** `all_ids` after the first `n` ids. */
  function SeenIds(ids: seq<Json>, n: nat): PySet
    requires n <= |ids|
  {
    if n == 0 then map[] else PyAdd(SeenIds(ids, n - 1), ids[n - 1])
  }

  /** `non_unique_ids` after the first `n` ids: a Python set, holding the
      first repeat of each id that repeats. */
  function RepeatedIds(ids: seq<Json>, n: nat): (r: PySet)
    requires n <= |ids|
    ensures PySetValid(r)
  {
    if n == 0 then map[]
    else
      var before := RepeatedIds(ids, n - 1);
      PyAddMeaning(before, ids[n - 1]);
      if PyIn(ids[n - 1], SeenIds(ids, n - 1)) then PyAdd(before, ids[n - 1]) else before
  }

  /** One more id. */
  lemma IdsStep(ids: seq<Json>, n: nat)
    requires n < |ids|
    ensures SeenIds(ids, n + 1) == PyAdd(SeenIds(ids, n), ids[n])
    ensures RepeatedIds(ids, n + 1) ==
              if PyIn(ids[n], SeenIds(ids, n)) then PyAdd(RepeatedIds(ids, n), ids[n]) else RepeatedIds(ids, n)
  {
  }

  lemma {:induction false} SeenIdsMeaning(ids: seq<Json>, n: nat, x: Json)
    requires n <= |ids|
    ensures PyIn(x, SeenIds(ids, n)) <==> SeenAmong(ids, n, x)
  {
    if n > 0 {
      SeenIdsMeaning(ids, n - 1, x);
      PyAddMeaning(SeenIds(ids, n - 1), ids[n - 1]);
      if SeenAmong(ids, n, x) && !SeenAmong(ids, n - 1, x) {
        assert PyKey(ids[n - 1]) == PyKey(x);
      }
    }
  }

  /** Two different places among the first `n` hold `x`, for Python. */
  predicate SharedBy(ids: seq<Json>, n: nat, x: Json)
    requires n <= |ids|
  {
    exists i, j :: 0 <= i < j < n && PyKey(ids[i]) == PyKey(x) && PyKey(ids[j]) == PyKey(x)
  }

  /** Among the first `n` ids, one equal to `x` for Python. */
  predicate SeenAmong(ids: seq<Json>, n: nat, x: Json)
    requires n <= |ids|
  {
    exists i :: 0 <= i < n && PyKey(ids[i]) == PyKey(x)
  }

  lemma SharedByStep(ids: seq<Json>, n: nat, x: Json)
    requires n < |ids|
    ensures SharedBy(ids, n + 1, x) <==> SharedBy(ids, n, x) || (PyKey(ids[n]) == PyKey(x) && SeenAmong(ids, n, x))
  {
    if SharedBy(ids, n + 1, x) && !SharedBy(ids, n, x) {
      var i, j :| 0 <= i < j < n + 1 && PyKey(ids[i]) == PyKey(x) && PyKey(ids[j]) == PyKey(x);
      assert j == n;
    }
    if PyKey(ids[n]) == PyKey(x) && SeenAmong(ids, n, x) {
      var i :| 0 <= i < n && PyKey(ids[i]) == PyKey(x);
      assert SharedBy(ids, n + 1, x);
    }
  }

  /** The repeated ids are exactly those two different items share. */
  lemma {:induction false} RepeatedIdsMeaning(ids: seq<Json>, n: nat, x: Json)
    requires n <= |ids|
    ensures PyIn(x, RepeatedIds(ids, n)) <==> SharedBy(ids, n, x)
  {
    if n > 0 {
      RepeatedIdsMeaning(ids, n - 1, x);
      SeenIdsMeaning(ids, n - 1, x);
      SharedByStep(ids, n - 1, x);
      PyAddMeaning(RepeatedIds(ids, n - 1), ids[n - 1]);
      if PyKey(ids[n - 1]) == PyKey(x) {
        assert PyIn(ids[n - 1], SeenIds(ids, n - 1)) == PyIn(x, SeenIds(ids, n - 1));
      }
    }
  }

  /** Each repeated id is held as one of the ids of the list. */
  lemma {:induction false} RepeatedIdsFrom(ids: seq<Json>, n: nat, k: Json)
    requires n <= |ids| && k in RepeatedIds(ids, n)
    ensures RepeatedIds(ids, n)[k] in ids[..n]
  {
    var before := RepeatedIds(ids, n - 1);
    PyAddMeaning(before, ids[n - 1]);
    if k in before {
      RepeatedIdsFrom(ids, n - 1, k);
      assert RepeatedIds(ids, n)[k] == before[k];
      assert ids[..n - 1] <= ids[..n];
    } else {
      assert RepeatedIds(ids, n)[k] == ids[n - 1];
    }
  }

  /** Nothing is repeated exactly when the ids are pairwise different. */
  lemma NoRepeatsIffDistinct(items: seq<Json>)
    ensures RepeatedIds(Ids(items), |items|) == map[] <==> DistinctIds(items)
  {
    if RepeatedIds(Ids(items), |items|) != map[] {
      var i, j := RepeatsNotDistinct(items);
    }
    if !DistinctIds(items) {
      SharedIdRepeats(items);
    }
  }

  /** Two items whose ids repeat. */
  lemma RepeatsNotDistinct(items: seq<Json>) returns (i: nat, j: nat)
    requires RepeatedIds(Ids(items), |items|) != map[]
    ensures i < j < |items| && PyKey(IdOf(items[i])) == PyKey(IdOf(items[j]))
  {
    var ids := Ids(items);
    var r := RepeatedIds(ids, |items|);
    var k :| k in r;
    var x := r[k];
    assert PyIn(x, r);
    RepeatedIdsMeaning(ids, |items|, x);
    i, j :| 0 <= i < j < |items| && PyKey(ids[i]) == PyKey(x) && PyKey(ids[j]) == PyKey(x);
  }

  lemma SharedIdRepeats(items: seq<Json>)
    requires !DistinctIds(items)
    ensures RepeatedIds(Ids(items), |items|) != map[]
  {
    var ids := Ids(items);
    var i, j :| 0 <= i < j < |items| && PyKey(IdOf(items[i])) == PyKey(IdOf(items[j]));
    assert SharedBy(ids, |items|, ids[i]);
    RepeatedIdsMeaning(ids, |items|, ids[i]);
  }

  /** `str(x)` for an id that passed the check: a string, a number or
      `True` (a list or dict never gets here). */
  function IdText(x: Json): string
  {
    match x
    case Str(s) => s
    case Num(n) => IntToString(n)
    case Bool(b) => if b then "True" else "False"
    case Null => "None"
    case _ => ""
  }

  function IdTexts(xs: seq<Json>): (r: seq<string>)
    ensures |r| == |xs| && forall i :: 0 <= i < |xs| ==> r[i] == IdText(xs[i])
  {
    if xs == [] then [] else IdTexts(xs[..|xs| - 1]) + [IdText(xs[|xs| - 1])]
  }

  /** The one message of the id check (lines 297-299). */
  function NonUniqueMessage(shown: seq<Json>): string
  {
    "Non-unique ID Values (first 3 shown):  " + Join(", ", IdTexts(shown))
  }

  /** `list(non_unique_ids)[:3]`: up to three different repeated ids, as
      many as there are; which three is Python's set order. */
  predicate FirstThree(shown: seq<Json>, ids: set<Json>)
  {
    && |shown| == (if |ids| < 3 then |ids| else 3)
    && (forall i :: 0 <= i < |shown| ==> shown[i] in ids)
    && (forall i, j :: 0 <= i < j < |shown| ==> shown[i] != shown[j])
  }

  /** `unique_ids(validator, ui, instance, schema)`, the messages of the
      errors it yields; `standard` is what Draft 4's own `uniqueItems`
      yields for the same array. */
  method UniqueIds(ui: Json, instance: Json, standard: seq<string>) returns (errors: seq<string>)
    ensures !(Truthy(ui) && instance.Arr?) ==> errors == []
    ensures Truthy(ui) && instance.Arr? && !AllIdentified(instance.items) ==> errors == standard
    ensures Truthy(ui) && instance.Arr? && AllIdentified(instance.items) ==>
              (errors == [] <==> DistinctIds(instance.items)) &&
              (errors != [] ==> exists shown :: errors == [NonUniqueMessage(shown)] &&
                                                FirstThree(shown, RepeatedIds(Ids(instance.items), |instance.items|).Values))
  {
    if !(Truthy(ui) && instance.Arr?) {
      return [];
    }
    var ok, nonUnique := ScanIds(instance.items);
    if !ok {
      return standard;
    }
    NoRepeatsIffDistinct(instance.items);
    if nonUnique == map[] {
      return [];
    }
    var shown := TakeThree(nonUnique.Values);
    errors := [NonUniqueMessage(shown)];
  }

  /** The loop of `unique_ids` (lines 284-293): false as soon as an item
      has no usable id, else the ids seen more than once. */
  method ScanIds(items: seq<Json>) returns (ok: bool, nonUnique: PySet)
    ensures ok <==> AllIdentified(items)
    ensures ok ==> nonUnique == RepeatedIds(Ids(items), |items|)
  {
    ghost var ids := Ids(items);
    var allIds: PySet := map[];
    nonUnique := map[];
    var i := 0;
    while i < |items|
      invariant 0 <= i <= |items|
      invariant allIds == SeenIds(ids, i) && nonUnique == RepeatedIds(ids, i)
      invariant IdentifiedUpTo(items, i)
    {
      var id := IdOf(items[i]);
      if Truthy(id) && !IsContainer(id) {
        IdentifiedStep(items, i);
        IdsStep(ids, i);
        assert id == ids[i];
        if PyIn(id, allIds) {
          nonUnique := PyAdd(nonUnique, id);
        }
        allIds := PyAdd(allIds, id);
      } else {
        return false, nonUnique;
      }
      i := i + 1;
    }
    ok := true;
  }

  /** `list(ids)[:3]`, for some order of the set. */
  method TakeThree(ids: set<Json>) returns (shown: seq<Json>)
    ensures FirstThree(shown, ids)
  {
    shown := [];
    var rest := ids;
    while |shown| < 3 && rest != {}
      invariant |shown| <= 3 && |shown| + |rest| == |ids|
      invariant forall x :: x in ids <==> x in rest || x in shown
      invariant forall x :: x in rest ==> x !in shown
      invariant forall i, j :: 0 <= i < j < |shown| ==> shown[i] != shown[j]
      decreases |rest|
    {
      var x :| x in rest;
      shown := shown + [x];
      rest := rest - {x};
    }
  }

  // ---------------------------------------------------------------------
  // required_draft4
  // ---------------------------------------------------------------------

  /** `required_draft4(validator, required, instance, schema)`: the names
      of the errors it yields, one per name in `required` that the object
      lacks, in `required` order; nothing for a value that is not an
      object. */
  function RequiredDraft4(required: seq<string>, instance: Json): (r: seq<string>)
    ensures forall x :: x in r <==> instance.Obj? && x in required && !HasKey(instance, x)
    ensures |r| <= |required|
  {
    if !instance.Obj? || required == [] then []
    else
      var last := required[|required| - 1];
      RequiredDraft4(required[..|required| - 1], instance) + (if HasKey(instance, last) then [] else [last])
  }

  /** The errors follow the order of `required`: those for a prefix come
      first. */
  lemma {:induction false} RequiredDraft4Append(a: seq<string>, b: seq<string>, instance: Json)
    ensures RequiredDraft4(a + b, instance) == RequiredDraft4(a, instance) + RequiredDraft4(b, instance)
    decreases |b|
  {
    if instance.Obj? && b != [] {
      var b' := b[..|b| - 1];
      assert (a + b)[..|a + b| - 1] == a + b';
      RequiredDraft4Append(a, b', instance);
    } else if instance.Obj? {
      assert a + b == a;
    }
  }

  // ---------------------------------------------------------------------
  // get_schema_validation_errors: one error
  // ---------------------------------------------------------------------

  /** One error of the validator's `iter_errors`: the keyword that failed
      and its value in the schema, the message, where in the data, the
      failing value, and the schema it failed against. */
  datatype RawError = RawError(validator: string, validatorValue: Json, message: string,
                               path: Path, instance: Json, schema: Json)

  /** A `cell_source_map` reference: sheet, column, row and header, or
      sheet and row (lines 415-420); other shapes add nothing. */
  datatype CellRef = Full(sheet: string, colAlpha: string, row: int, header: string)
                   | Short(sheet: string, row: int)
                   | OtherRef

  /** The dict of one reported error; `None` for a key it does not have. */
  datatype ErrorValue = ErrorValue(path: string, sheet: Option<string>, colAlpha: Option<string>,
                                   rowNumber: Option<int>, header: Option<string>, value: Option<Json>)

  /** `[validator_type, message, path_no_number]`, the grouping key. */
  datatype GroupKey = GroupKey(kind: Json, message: string, pathNoNumber: string)

  /** What the loop does with one error: Python raises, the error is
      skipped, or it is reported under a key. */
  datatype Outcome = Raises | Skipped | Reported(key: GroupKey, value: ErrorValue)

  /** `validation_error_lookup` (lines 26-32). */
  const ValidationErrorLookup: map<string, string> :=
    map["date-time" := "Date is not in the correct format",
        "uri" := "Invalid 'uri' found",
        "string" := "Value is not a string",
        "integer" := "Value is not a integer",
        "number" := "Value is not a number",
        "object" := "Value is not an object",
        "array" := "Value is not an array"]

  /** `"/".join(str(item) for item in e.path)` */
  function PathText(p: Path): string
  {
    Join("/", SegTexts(p))
  }

  /** `path_no_number`: the same, without the integer segments. */
  function PathNoNumber(p: Path): string
  {
    Join("/", Names(p))
  }

  predicate FormatOrType(e: RawError)
  {
    e.validator == "format" || e.validator == "type"
  }

  /** `validator_type` (lines 402-405); None where `validator_value[0]`
      raises on an empty list. */
  function Kind(e: RawError): Option<Json>
  {
    if !FormatOrType(e) then Some(Str(e.validator))
    else if !e.validatorValue.Arr? then Some(e.validatorValue)
    else if e.validatorValue.items == [] then None
    else Some(e.validatorValue.items[0])
  }

  /** The message before the `required` and `enum` rewrites (lines
      407-409); None where the lookup raises on an unhashable kind. */
  function BaseMessage(e: RawError, kind: Json): Option<string>
  {
    if !FormatOrType(e) then Some(e.message)
    else if IsContainer(kind) then None
    else if kind.Str? && kind.s in ValidationErrorLookup then Some(ValidationErrorLookup[kind.s])
    else Some(e.message)
  }

  /** The dict of an error before the `required` and `enum` rewrites
      (lines 411-423). */
  function BaseValue(e: RawError, cells: map<string, seq<CellRef>>): ErrorValue
  {
    var path := PathText(e.path);
    var refs := if path in cells then cells[path] else [];
    var v := ErrorValue(path, None, None, None, None, None);
    var v' :=
      if refs == [] then v
      else match refs[0]
        case Full(s, c, r, h) => v.(sheet := Some(s), colAlpha := Some(c), rowNumber := Some(r), header := Some(h))
        case Short(s, r) => v.(sheet := Some(s), rowNumber := Some(r))
        case OtherRef => v;
    if IsContainer(e.instance) then v' else v'.(value := Some(e.instance))
  }

  /** `str(parent_name)` (lines 429-434): the segment before the last,
      or the last one when the segment before it is an index. */
  function ParentName(p: Path): string
    requires |p| > 2
  {
    SegText(if p[|p| - 2].Index? then p[|p| - 1] else p[|p| - 2])
  }

  /** The heading a `required` error's field has in the spreadsheet, if
      `heading_source_map` knows it (lines 434-437). */
  function Heading(e: RawError, headings: map<string, seq<(string, string)>>): Option<string>
  {
    var hk := PathNoNumber(e.path) + "/" + e.message;
    if hk in headings && headings[hk] != [] then Some(headings[hk][0].1) else None
  }

  /** `field_name` of a `required` error (lines 427-437). */
  function RequiredField(e: RawError, headings: map<string, seq<(string, string)>>): string
  {
    match Heading(e, headings)
    case Some(h) => h
    case None => if |e.path| > 2 then ParentName(e.path) + ":" + e.message else e.message
  }

  /** The header an `enum` message names (lines 442-444); None where
      `e.path[-1]` raises on an empty path. */
  function EnumHeader(e: RawError, v: ErrorValue): Option<string>
  {
    if v.header.Some? && v.header.value != "" then Some(v.header.value)
    else if e.path == [] then None
    else Some(SegText(e.path[|e.path| - 1]))
  }

  /** The message of an error (lines 407-409, 438 and 445); None where
      Python raises. */
  function Message(e: RawError, kind: Json, cells: map<string, seq<CellRef>>, headings: map<string, seq<(string, string)>>)
    : Option<string>
  {
    if e.validator == "required" then Some("'" + RequiredField(e, headings) + "' is missing but required")
    else if e.validator == "enum" then
      match EnumHeader(e, BaseValue(e, cells))
      case None => None
      case Some(header) => Some("Invalid code found in '" + header + "'")
    else BaseMessage(e, kind)
  }

  /** The dict of a reported error: a `required` error's heading becomes
      its header (line 437). */
  function Value(e: RawError, cells: map<string, seq<CellRef>>, headings: map<string, seq<(string, string)>>): ErrorValue
  {
    var v := BaseValue(e, cells);
    var h := Heading(e, headings);
    if e.validator == "required" && h.Some? then v.(header := h) else v
  }

  /** The body of the loop of `get_schema_validation_errors` for one
      error (lines 397-446). */
  function Process(e: RawError, cells: map<string, seq<CellRef>>, headings: map<string, seq<(string, string)>>): Outcome
  {
    if e.validator == "enum" && HasKey(e.schema, "isCodelist") then Skipped
    else match Kind(e)
      case None => Raises
      case Some(kind) =>
        match Message(e, kind, cells, headings)
        case None => Raises
        case Some(message) => Reported(GroupKey(kind, message, PathNoNumber(e.path)), Value(e, cells, headings))
  }

  // ---------------------------------------------------------------------
  // What one error becomes
  // ---------------------------------------------------------------------

  /** Exactly the enum errors of codelist fields are dropped; every other
      error is reported or raises. */
  lemma ProcessSkipsCodelistEnums(e: RawError, cells: map<string, seq<CellRef>>, headings: map<string, seq<(string, string)>>)
    ensures Process(e, cells, headings).Skipped? <==> e.validator == "enum" && HasKey(e.schema, "isCodelist")
  {
  }

  /** A reported error's dict has the concrete path, and the failing
      value exactly when that value is not a list or dict. */
  lemma ProcessValue(e: RawError, cells: map<string, seq<CellRef>>, headings: map<string, seq<(string, string)>>)
    requires Process(e, cells, headings).Reported?
    ensures var v := Process(e, cells, headings).value;
            v.path == PathText(e.path) &&
            v.value == (if IsContainer(e.instance) then None else Some(e.instance))
  {
    assert Process(e, cells, headings).value == Value(e, cells, headings);
    BaseValuePathValue(e, cells);
  }

  lemma BaseValuePathValue(e: RawError, cells: map<string, seq<CellRef>>)
    ensures BaseValue(e, cells).path == PathText(e.path)
    ensures BaseValue(e, cells).value == (if IsContainer(e.instance) then None else Some(e.instance))
  {
  }

  /** A format or type error is grouped under the format or type (the
      first, for a list of types) with the fixed message for it when
      there is one. */
  lemma ProcessFormatType(e: RawError, cells: map<string, seq<CellRef>>, headings: map<string, seq<(string, string)>>, t: string)
    requires FormatOrType(e)
    requires e.validatorValue == Str(t) || (e.validatorValue.Arr? && e.validatorValue.items != [] && e.validatorValue.items[0] == Str(t))
    ensures Process(e, cells, headings).Reported?
    ensures Process(e, cells, headings).key.kind == Str(t)
    ensures Process(e, cells, headings).key.message == if t in ValidationErrorLookup then ValidationErrorLookup[t] else e.message
  {
  }

  /** A `required` error names the missing field: by its spreadsheet
      heading when there is one, which also becomes the header; else
      with its parent's name when the path is deeper than two; else as
      the validator gave it. */
  lemma ProcessRequired(e: RawError, cells: map<string, seq<CellRef>>, headings: map<string, seq<(string, string)>>)
    requires e.validator == "required"
    ensures var o := Process(e, cells, headings);
            o.Reported? && o.key.kind == Str("required") && o.key.pathNoNumber == PathNoNumber(e.path)
    ensures var o := Process(e, cells, headings);
            Heading(e, headings).Some? ==>
              o.key.message == "'" + Heading(e, headings).value + "' is missing but required" &&
              o.value.header == Heading(e, headings)
    ensures var o := Process(e, cells, headings);
            Heading(e, headings).None? && |e.path| <= 2 ==>
              o.key.message == "'" + e.message + "' is missing but required"
    ensures var o := Process(e, cells, headings);
            Heading(e, headings).None? && |e.path| > 2 ==>
              o.key.message == "'" + SegText(if e.path[|e.path| - 2].Index? then e.path[|e.path| - 1] else e.path[|e.path| - 2])
                               + ":" + e.message + "' is missing but required"
  {
    assert !FormatOrType(e) && Kind(e) == Some(Str("required"));
    var m := "'" + RequiredField(e, headings) + "' is missing but required";
    assert Message(e, Str("required"), cells, headings) == Some(m);
    assert Process(e, cells, headings) ==
             Reported(GroupKey(Str("required"), m, PathNoNumber(e.path)), Value(e, cells, headings));
  }

  /** An `enum` error outside a codelist names the cell's header, or the
      last path segment when there is no header; it raises only when it
      has neither. */
  lemma ProcessEnum(e: RawError, cells: map<string, seq<CellRef>>, headings: map<string, seq<(string, string)>>)
    requires e.validator == "enum" && !HasKey(e.schema, "isCodelist")
    ensures var v := BaseValue(e, cells);
            var o := Process(e, cells, headings);
            (o.Raises? <==> (v.header.None? || v.header.value == "") && e.path == []) &&
            (o.Reported? && v.header.Some? && v.header.value != "" ==>
               o.key.message == "Invalid code found in '" + v.header.value + "'") &&
            (o.Reported? && (v.header.None? || v.header.value == "") ==>
               o.key.message == "Invalid code found in '" + SegText(e.path[|e.path| - 1]) + "'")
  {
    var v := BaseValue(e, cells);
    assert Kind(e) == Some(Str("enum"));
    var m := Message(e, Str("enum"), cells, headings);
    assert m == if EnumHeader(e, v).None? then None else Some("Invalid code found in '" + EnumHeader(e, v).value + "'");
  }

  // ---------------------------------------------------------------------
  // Paths that differ only in their array indices
  // ---------------------------------------------------------------------

  /** Two concrete paths with the same keys and indices at the same
      places (the indices themselves may differ). */
  predicate SameShape(p: Path, q: Path)
  {
    |p| == |q| && forall i :: 0 <= i < |p| ==> (p[i].Key? <==> q[i].Key?) && (p[i].Key? ==> p[i] == q[i])
  }

  lemma {:induction false} SameShapeNames(p: Path, q: Path)
    requires SameShape(p, q)
    ensures Names(p) == Names(q)
  {
    if p != [] {
      SameShapeNames(p[..|p| - 1], q[..|q| - 1]);
    }
  }

  /** Errors at places that differ only in array indices are grouped
      together, except `enum` errors (whose message may name the cell's
      header) and `required` errors whose last two segments are both
      indices (whose message names the last index). */
  lemma GroupingIgnoresIndices(e: RawError, p: Path, cells: map<string, seq<CellRef>>, headings: map<string, seq<(string, string)>>)
    requires SameShape(e.path, p)
    requires e.validator != "enum"
    requires e.validator == "required" && |p| > 2 ==> p[|p| - 2].Key? || p[|p| - 1].Key?
    ensures Process(e, cells, headings).Reported? <==> Process(e.(path := p), cells, headings).Reported?
    ensures Process(e, cells, headings).Reported? ==>
              Process(e, cells, headings).key == Process(e.(path := p), cells, headings).key
  {
    var e' := e.(path := p);
    SameShapeNames(e.path, p);
    assert PathNoNumber(e.path) == PathNoNumber(p);
    assert Heading(e, headings) == Heading(e', headings);
    if e.validator == "required" && |p| > 2 {
      assert ParentName(e.path) == ParentName(p) by {
        assert e.path[|p| - 2].Key? <==> p[|p| - 2].Key?;
        assert e.path[|p| - 1].Key? <==> p[|p| - 1].Key?;
      }
    }
    if e.validator == "required" {
      assert RequiredField(e, headings) == RequiredField(e', headings);
    }
    assert Kind(e) == Kind(e');
    if Kind(e).Some? {
      assert Message(e, Kind(e).value, cells, headings) == Message(e', Kind(e).value, cells, headings);
    }
  }

  // ---------------------------------------------------------------------
  // get_schema_validation_errors: the grouped report
  // ---------------------------------------------------------------------

  type Groups = seq<(GroupKey, seq<ErrorValue>)>

  /** Where key `k` is in `groups`. */
  function Find(groups: Groups, k: GroupKey): (r: Option<nat>)
    ensures r.Some? ==> r.value < |groups| && groups[r.value].0 == k
    ensures r.None? ==> forall i :: 0 <= i < |groups| ==> groups[i].0 != k
  {
    if groups == [] then None
    else if groups[|groups| - 1].0 == k then Some(|groups| - 1)
    else Find(groups[..|groups| - 1], k)
  }

  /** `validation_errors[k].append(v)` on the defaultdict, whose keys
      keep their first insertion order. */
  function AppendTo(groups: Groups, k: GroupKey, v: ErrorValue): Groups
  {
    match Find(groups, k)
    case None => groups + [(k, [v])]
    case Some(i) => groups[i := (k, groups[i].1 + [v])]
  }

  /** The report after the entries `es`, in stream order. */
  function Grouping(es: seq<(GroupKey, ErrorValue)>): Groups
  {
    if es == [] then [] else AppendTo(Grouping(es[..|es| - 1]), es[|es| - 1].0, es[|es| - 1].1)
  }

  /** The values reported under key `k`, in stream order. */
  function Select(es: seq<(GroupKey, ErrorValue)>, k: GroupKey): (r: seq<ErrorValue>)
    ensures |r| <= |es|
  {
    if es == [] then []
    else Select(es[..|es| - 1], k) + (if es[|es| - 1].0 == k then [es[|es| - 1].1] else [])
  }

  predicate KeysDistinct(groups: Groups)
  {
    forall i, j :: 0 <= i < j < |groups| ==> groups[i].0 != groups[j].0
  }

  /** Appending finds the key where it was, or adds it at the end. */
  lemma AppendToFind(groups: Groups, k: GroupKey, v: ErrorValue, k2: GroupKey)
    ensures Find(AppendTo(groups, k, v), k2).Some? <==> Find(groups, k2).Some? || k2 == k
  {
    var g := AppendTo(groups, k, v);
    if k2 == k {
      match Find(groups, k)
      case None => assert g[|groups|].0 == k;
      case Some(i) => assert g[i].0 == k;
    } else {
      if Find(groups, k2).Some? {
        assert g[Find(groups, k2).value].0 == k2;
      }
      if Find(g, k2).Some? {
        var j := Find(g, k2).value;
        assert j < |groups| && groups[j].0 == k2;
      }
    }
  }

  lemma AppendToDistinct(groups: Groups, k: GroupKey, v: ErrorValue)
    requires KeysDistinct(groups)
    ensures KeysDistinct(AppendTo(groups, k, v))
  {
  }

  /** The report's keys are all different. */
  lemma {:induction false} GroupingDistinct(es: seq<(GroupKey, ErrorValue)>)
    ensures KeysDistinct(Grouping(es))
  {
    if es != [] {
      GroupingDistinct(es[..|es| - 1]);
      AppendToDistinct(Grouping(es[..|es| - 1]), es[|es| - 1].0, es[|es| - 1].1);
    }
  }

  /** Key `k` is the key of some entry of `es`. */
  predicate Occurs(es: seq<(GroupKey, ErrorValue)>, k: GroupKey)
  {
    exists j :: 0 <= j < |es| && es[j].0 == k
  }

  lemma OccursStep(es: seq<(GroupKey, ErrorValue)>, k: GroupKey)
    requires es != []
    ensures Occurs(es, k) <==> Occurs(es[..|es| - 1], k) || es[|es| - 1].0 == k
  {
    var init := es[..|es| - 1];
    if Occurs(init, k) {
      var j :| 0 <= j < |init| && init[j].0 == k;
      assert es[j].0 == k;
    }
    if Occurs(es, k) {
      var j :| 0 <= j < |es| && es[j].0 == k;
      if j < |init| {
        assert init[j].0 == k;
      }
    }
  }

  /** The report has a group for each key that occurs, and no other. */
  lemma {:induction false} GroupingKeys(es: seq<(GroupKey, ErrorValue)>, k: GroupKey)
    ensures Find(Grouping(es), k).Some? <==> Occurs(es, k)
  {
    if es != [] {
      var init := es[..|es| - 1];
      var last := es[|es| - 1];
      GroupingKeys(init, k);
      AppendToFind(Grouping(init), last.0, last.1, k);
      OccursStep(es, k);
    }
  }

  /** With distinct keys, a key is found where it is. */
  lemma FindUnique(groups: Groups, k: GroupKey, i: nat)
    requires KeysDistinct(groups) && i < |groups| && groups[i].0 == k
    ensures Find(groups, k) == Some(i)
  {
  }

  /** Each group holds exactly the values reported under its key, in
      stream order. */
  lemma {:induction false} GroupingValues(es: seq<(GroupKey, ErrorValue)>, k: GroupKey)
    requires Find(Grouping(es), k).Some?
    ensures Grouping(es)[Find(Grouping(es), k).value].1 == Select(es, k)
  {
    var init := es[..|es| - 1];
    var last := es[|es| - 1];
    var g := Grouping(init);
    GroupingDistinct(init);
    GroupingDistinct(es);
    AppendToFind(g, last.0, last.1, k);
    match Find(g, k)
    case Some(i) =>
      GroupingValues(init, k);
      FindUnique(Grouping(es), k, i);
    case None =>
      GroupingKeys(init, k);
      SelectNone(init, k);
      FindUnique(Grouping(es), k, |g|);
  }

  lemma {:induction false} SelectNone(es: seq<(GroupKey, ErrorValue)>, k: GroupKey)
    requires !Occurs(es, k)
    ensures Select(es, k) == []
  {
    if es != [] {
      OccursStep(es, k);
      SelectNone(es[..|es| - 1], k);
    }
  }

  /** `Process` with the sheet lookups fixed. */
  function Processor(cells: map<string, seq<CellRef>>, headings: map<string, seq<(string, string)>>): RawError -> Outcome
  {
    e => Process(e, cells, headings)
  }

  /** The entries of the errors that are reported, in stream order. */
  function Entries(es: seq<RawError>, process: RawError -> Outcome): seq<(GroupKey, ErrorValue)>
  {
    if es == [] then []
    else
      var o := process(es[|es| - 1]);
      Entries(es[..|es| - 1], process) + (if o.Reported? then [(o.key, o.value)] else [])
  }

  /** The loop of `get_schema_validation_errors` over the validator's
      errors `es`: None where Python raises. */
  method SchemaValidationErrors(es: seq<RawError>, cells: map<string, seq<CellRef>>,
                                headings: map<string, seq<(string, string)>>)
    returns (r: Option<Groups>)
    ensures r.None? <==> exists i :: 0 <= i < |es| && Process(es[i], cells, headings).Raises?
    ensures r.Some? ==> r.value == Grouping(Entries(es, Processor(cells, headings)))
  {
    r := GroupErrors(es, Processor(cells, headings));
  }

  /** The same loop for any handling of one error. */
  method GroupErrors(es: seq<RawError>, process: RawError -> Outcome) returns (r: Option<Groups>)
    ensures r.None? <==> exists i :: 0 <= i < |es| && process(es[i]).Raises?
    ensures r.Some? ==> r.value == Grouping(Entries(es, process))
  {
    var groups: Groups := [];
    var n := 0;
    while n < |es|
      invariant 0 <= n <= |es| && NoneRaise(es, n, process)
      invariant groups == Grouping(Entries(es[..n], process))
    {
      var o := process(es[n]);
      if o.Raises? {
        return None;
      }
      NoneRaiseStep(es, n, process);
      EntriesStep(es, n, process);
      if o.Reported? {
        GroupingSnoc(Entries(es[..n], process), (o.key, o.value));
        groups := Append(groups, o.key, o.value);
      }
      n := n + 1;
    }
    assert es[..n] == es;
    r := Some(groups);
  }

  /** None of the first `n` errors raises. */
  predicate NoneRaise(es: seq<RawError>, n: nat, process: RawError -> Outcome)
    requires n <= |es|
  {
    forall i :: 0 <= i < n ==> !process(es[i]).Raises?
  }

  lemma NoneRaiseStep(es: seq<RawError>, n: nat, process: RawError -> Outcome)
    requires n < |es| && NoneRaise(es, n, process) && !process(es[n]).Raises?
    ensures NoneRaise(es, n + 1, process)
  {
  }

  /** `validation_errors[k].append(v)` */
  method Append(groups: Groups, k: GroupKey, v: ErrorValue) returns (g: Groups)
    ensures g == AppendTo(groups, k, v)
  {
    var at := Find(groups, k);
    if at.None? {
      g := groups + [(k, [v])];
    } else {
      g := groups[at.value := (k, groups[at.value].1 + [v])];
    }
  }

  lemma EntriesStep(es: seq<RawError>, n: nat, process: RawError -> Outcome)
    requires n < |es|
    ensures var o := process(es[n]);
            o.Reported? ==> Entries(es[..n + 1], process) == Entries(es[..n], process) + [(o.key, o.value)]
    ensures !process(es[n]).Reported? ==> Entries(es[..n + 1], process) == Entries(es[..n], process)
  {
    assert es[..n + 1][..n] == es[..n];
    assert Entries(es[..n], process) + [] == Entries(es[..n], process);
  }

  lemma GroupingSnoc(es: seq<(GroupKey, ErrorValue)>, e: (GroupKey, ErrorValue))
    ensures Grouping(es + [e]) == AppendTo(Grouping(es), e.0, e.1)
  {
    assert (es + [e])[..|es|] == es;
  }
}
