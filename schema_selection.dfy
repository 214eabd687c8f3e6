/** The schema an OCDS analysis runs against (cove/lib/common.py:41-63 and
    126-213): the version and schema host `SchemaOCDS.__init__` settles
    on, the extensions it records and what `apply_extensions` records
    about them, and the rewrites of schema and extension URLs. */
module SchemaSelection {
  import opened JsonValues
  import opened Text

  // ---------------------------------------------------------------------
  // URL rewrites
  // ---------------------------------------------------------------------

  /** `urljoin(base, name)` for a name relative to the base's directory:
      the name replaces what follows the base's last slash. */
  function UrlJoin(base: string, name: string): string
  {
    match LastSlash(base)
    case None => name
    case Some(i) => base[..i + 1] + name
  }

  /** Joining keeps the base's directory, the part up to its last
      slash. */
  lemma UrlJoinDirectory(base: string, name: string)
    requires LastSlash(base).Some?
    ensures UrlJoin(base, name) == BeforeLastSegment(base) + "/" + name
  {
    var i := LastSlash(base).value;
    assert base[..i + 1] == base[..i] + "/";
  }

  /** A slash-free name joined to a base with a slash is the last
      segment of the result. */
  lemma UrlJoinLastSegment(base: string, name: string)
    requires LastSlash(base).Some? && '/' !in name
    ensures LastSegment(UrlJoin(base, name)) == name
  {
    var i := LastSlash(base).value;
    EndsWithSlash(base[..i + 1], name);
  }

  /** A base ending with a slash is a directory: the name is appended. */
  lemma UrlJoinAppends(base: string, name: string)
    requires |base| > 0 && base[|base| - 1] == '/'
    ensures UrlJoin(base, name) == base + name
  {
    assert base[..|base|] == base;
  }

  /** The last segment of a text ending with a slash, followed by a
      slash-free name, is that name. */
  lemma EndsWithSlash(s: string, name: string)
    requires |s| > 0 && s[|s| - 1] == '/' && '/' !in name
    ensures LastSlash(s + name) == Some(|s| - 1)
    ensures LastSegment(s + name) == name
  {
    LastSlashAppend(s, name);
    assert (s + name)[|s|..] == name;
  }

  /** Line 47: a `$ref` is loaded from the schema URL followed by the
      last segment of the reference. */
  function RefUri(schemaUrl: string, uri: string): string
  {
    schemaUrl + LastSegment(uri)
  }

  /** The rewritten reference depends only on the reference's last
      segment, and rewriting twice changes nothing when the schema URL
      ends with a slash. */
  lemma RefUriLastSegment(schemaUrl: string, dir: string, name: string)
    requires '/' !in name
    ensures RefUri(schemaUrl, dir + "/" + name) == RefUri(schemaUrl, name)
    ensures |schemaUrl| > 0 && schemaUrl[|schemaUrl| - 1] == '/' ==>
              RefUri(schemaUrl, RefUri(schemaUrl, name)) == RefUri(schemaUrl, name)
  {
    EndsWithSlash(dir + "/", name);
    if |schemaUrl| > 0 && schemaUrl[|schemaUrl| - 1] == '/' {
      EndsWithSlash(schemaUrl, name);
    }
  }

  /** Lines 62-63: the `$ref` resolver loads the configured schema file,
      or else the reference's last segment, against the schema URL. */
  function ResolverUri(schemaFile: string, schemaUrl: string, uri: string): string
  {
    UrlJoin(schemaUrl, if schemaFile != "" then schemaFile else LastSegment(uri))
  }

  const PatchName := "release-schema.json"

  /** `descriptor[:descriptor.rfind('/')]`: up to the last slash, or all
      but the last character when `rfind` gives -1. */
  function PatchHead(descriptorUrl: string): string
  {
    match LastSlash(descriptorUrl)
    case Some(i) => descriptorUrl[..i]
    case None => if descriptorUrl == "" then "" else descriptorUrl[..|descriptorUrl| - 1]
  }

  /** Lines 190-191: the extension's patch URL, built from its descriptor
      URL. */
  function PatchUrl(descriptorUrl: string): string
  {
    PatchHead(descriptorUrl) + "/" + PatchName
  }

  /** The patch URL's last slash is the one after the head. */
  lemma PatchUrlLastSlash(descriptorUrl: string)
    ensures LastSlash(PatchUrl(descriptorUrl)) == Some(|PatchHead(descriptorUrl)|)
    ensures LastSegment(PatchUrl(descriptorUrl)) == PatchName
  {
    var head := PatchHead(descriptorUrl);
    assert PatchUrl(descriptorUrl) == (head + "/") + PatchName;
    assert '/' !in PatchName;
    EndsWithSlash(head + "/", PatchName);
  }

  /** The patch URL replaces the descriptor's last segment with
      `release-schema.json`. */
  lemma PatchUrlReplacesLastSegment(descriptorUrl: string)
    requires LastSlash(descriptorUrl).Some?
    ensures PatchUrl(descriptorUrl) == BeforeLastSegment(descriptorUrl) + "/" + PatchName
  {
    var i := LastSlash(descriptorUrl).value;
    assert PatchHead(descriptorUrl) == descriptorUrl[..i];
  }

  /** A URL without a slash loses its last character, because `rfind`'s
      -1 slices it off. */
  lemma PatchUrlWithoutSlash(descriptorUrl: string)
    requires LastSlash(descriptorUrl).None? && descriptorUrl != ""
    ensures PatchUrl(descriptorUrl) == descriptorUrl[..|descriptorUrl| - 1] + "/" + PatchName
  {
  }

  /** Building the patch URL again changes nothing. */
  lemma PatchUrlIdempotent(descriptorUrl: string)
    ensures PatchUrl(PatchUrl(descriptorUrl)) == PatchUrl(descriptorUrl)
  {
    var p := PatchUrl(descriptorUrl);
    var head := PatchHead(descriptorUrl);
    PatchUrlLastSlash(descriptorUrl);
    assert p[..|head|] == head;
    assert PatchHead(p) == head;
  }

  // ---------------------------------------------------------------------
  // Version selection
  // ---------------------------------------------------------------------

  /** One of `schema_version_choices`: a title and the schema host. */
  datatype VersionChoice = VersionChoice(title: string, host: string)

  /** The `cove-ocds` settings the class reads. */
  datatype Config = Config(releaseSchemaName: string, releasePkgSchemaName: string, recordPkgSchemaName: string,
                           versionChoices: map<string, VersionChoice>, defaultVersion: string)

  /** `default_schema_host` is looked up when the class is defined, so
      the default version must be one of the choices. */
  predicate ConfigValid(c: Config)
  {
    c.defaultVersion in c.versionChoices
  }

  /** `if select_version:` */
  predicate Given(select: Option<string>)
  {
    select.Some? && select.value != ""
  }

  /** A version argument that names one of the choices. */
  predicate ArgumentValid(c: Config, select: Option<string>)
  {
    Given(select) && select.value in c.versionChoices
  }

  /** `release_data.get(key)` when the data is truthy, Null otherwise. */
  function DataField(data: Json, key: string): Json
  {
    if Truthy(data) then GetOr(data, key, Null) else Null
  }

  /** Some value of `xs` equals `x` for Python. */
  predicate KeyIn(x: Json, xs: seq<Json>)
  {
    exists y :: y in xs && PyKey(y) == PyKey(x)
  }

  /** The keys of a dict built from `xs`: the first of each group of
      values Python finds equal (`1` and `true` are one key), in order. */
  function Dedup(xs: seq<Json>): (r: seq<Json>)
    ensures forall x :: x in r ==> x in xs
    ensures forall i, j :: 0 <= i < j < |r| ==> PyKey(r[i]) != PyKey(r[j])
  {
    if xs == [] then []
    else
      var d := Dedup(xs[..|xs| - 1]);
      if KeyIn(xs[|xs| - 1], d) then d else d + [xs[|xs| - 1]]
  }

  /** `x` is in `xs`, and no value before it equals it for Python. */
  predicate FirstSpelling(xs: seq<Json>, x: Json)
  {
    exists i :: 0 <= i < |xs| && xs[i] == x && forall j :: 0 <= j < i ==> PyKey(xs[j]) != PyKey(x)
  }

  /** Every value of `xs` has an equal key. */
  lemma {:induction false} DedupCovers(xs: seq<Json>, x: Json)
    ensures KeyIn(x, Dedup(xs)) <==> KeyIn(x, xs)
    decreases |xs|
  {
    if xs != [] {
      var init := xs[..|xs| - 1];
      var last := xs[|xs| - 1];
      assert xs == init + [last];
      DedupCovers(init, x);
      if KeyIn(x, xs) && !KeyIn(x, init) {
        assert PyKey(last) == PyKey(x);
        assert last in Dedup(xs);
      }
      if KeyIn(x, init) {
        var y :| y in init && PyKey(y) == PyKey(x);
        assert y in xs;
      }
    }
  }

  lemma FirstSpellingPrefix(init: seq<Json>, last: Json, x: Json)
    requires FirstSpelling(init, x)
    ensures FirstSpelling(init + [last], x)
  {
    var i :| 0 <= i < |init| && init[i] == x && forall j :: 0 <= j < i ==> PyKey(init[j]) != PyKey(x);
    assert (init + [last])[i] == x;
  }

  lemma FirstSpellingLast(init: seq<Json>, last: Json, x: Json)
    requires FirstSpelling(init + [last], x) && !FirstSpelling(init, x)
    ensures x == last && !KeyIn(last, init)
  {
    var xs := init + [last];
    var i :| 0 <= i < |xs| && xs[i] == x && forall j :: 0 <= j < i ==> PyKey(xs[j]) != PyKey(x);
    if i < |init| {
      FirstSpellingTrim(init, last, x, i);
    } else {
      NoEarlierKey(xs, i, x);
      assert xs[..i] == init;
    }
  }

  lemma FirstSpellingTrim(init: seq<Json>, last: Json, x: Json, i: nat)
    requires i < |init| && (init + [last])[i] == x
    requires forall j :: 0 <= j < i ==> PyKey((init + [last])[j]) != PyKey(x)
    ensures FirstSpelling(init, x)
  {
    assert init[i] == x;
    forall j | 0 <= j < i
      ensures PyKey(init[j]) != PyKey(x)
    {
      assert init[j] == (init + [last])[j];
    }
  }

  lemma NoEarlierKey(xs: seq<Json>, i: nat, x: Json)
    requires i <= |xs| && forall j :: 0 <= j < i ==> PyKey(xs[j]) != PyKey(x)
    ensures !KeyIn(x, xs[..i])
  {
    forall y | y in xs[..i]
      ensures PyKey(y) != PyKey(x)
    {
      var k :| 0 <= k < i && xs[..i][k] == y;
      assert xs[k] == y;
    }
  }

  lemma FirstSpellingNew(init: seq<Json>, last: Json)
    requires !KeyIn(last, init)
    ensures FirstSpelling(init + [last], last)
  {
    var xs := init + [last];
    forall j | 0 <= j < |init|
      ensures PyKey(xs[j]) != PyKey(last)
    {
      assert xs[j] in init;
    }
    assert xs[|init|] == last;
  }

  /** The keys are exactly the first spellings. */
  lemma {:induction false} DedupFirst(xs: seq<Json>, x: Json)
    ensures x in Dedup(xs) <==> FirstSpelling(xs, x)
    decreases |xs|
  {
    if xs != [] {
      var init := xs[..|xs| - 1];
      var last := xs[|xs| - 1];
      assert xs == init + [last];
      DedupFirst(init, x);
      DedupCovers(init, last);
      if FirstSpelling(init, x) {
        FirstSpellingPrefix(init, last, x);
      }
      if FirstSpelling(xs, x) && !FirstSpelling(init, x) {
        FirstSpellingLast(init, last, x);
      }
      if !KeyIn(last, init) {
        FirstSpellingNew(init, last);
      }
    }
  }

  function MemberNames(ms: seq<(string, Json)>): (r: seq<Json>)
    ensures |r| == |ms| && forall i :: 0 <= i < |ms| ==> r[i] == Str(ms[i].0)
  {
    if ms == [] then [] else MemberNames(ms[..|ms| - 1]) + [Str(ms[|ms| - 1].0)]
  }

  function Chars(s: string): (r: seq<Json>)
    ensures |r| == |s| && forall i :: 0 <= i < |s| ==> r[i] == Str([s[i]])
  {
    if s == [] then [] else Chars(s[..|s| - 1]) + [Str([s[|s| - 1]])]
  }

  /** What `for ext in data_extensions` runs over: a list's items, a
      dict's keys, a string's characters; None where Python raises (a
      list holding a list or dict cannot be a key; a number or boolean
      cannot be iterated). */
  function ExtensionKeys(v: Json): Option<seq<Json>>
  {
    match v
    case Arr(items) => if exists i :: 0 <= i < |items| && IsContainer(items[i]) then None else Some(Dedup(items))
    case Obj(ms) => Some(Dedup(MemberNames(ms)))
    case Str(s) => Some(Dedup(Chars(s)))
    case _ => None
  }

  /** Where `__init__` raises: truthy data that is not a dict, extensions
      that cannot be iterated into keys, or a version lookup of a list or
      dict. */
  predicate InitRaises(c: Config, select: Option<string>, data: Json)
  {
    Truthy(data) &&
      (!data.Obj? ||
       (Truthy(DataField(data, "extensions")) && ExtensionKeys(DataField(data, "extensions")).None?) ||
       (!ArgumentValid(c, select) && IsContainer(DataField(data, "version")) && Truthy(DataField(data, "version"))))
  }

  /** What `__init__` decides, stated as a whole. */
  datatype Selection = Selection(version: string, host: string, invalidArgument: bool, invalidData: bool,
                                 extensions: seq<Json>)

  /** The decision: a valid argument wins; otherwise a known version in
      the data; otherwise the default. An argument that is given but not
      a choice, and a truthy data version that is not a choice (when the
      data is consulted), are flagged. */
  function Selected(c: Config, select: Option<string>, data: Json): Selection
    requires ConfigValid(c) && !InitRaises(c, select, data)
  {
    var dv := DataField(data, "version");
    var fromData := !ArgumentValid(c, select) && dv.Str? && dv.s != "" && dv.s in c.versionChoices;
    var version := if ArgumentValid(c, select) then select.value else if fromData then dv.s else c.defaultVersion;
    var ext := DataField(data, "extensions");
    Selection(version, c.versionChoices[version].host,
              Given(select) && !ArgumentValid(c, select),
              !ArgumentValid(c, select) && Truthy(dv) && !fromData,
              if Truthy(ext) then ExtensionKeys(ext).value else [])
  }

  /** The selected version is always a choice and the host is its host. */
  lemma SelectedIsChoice(c: Config, select: Option<string>, data: Json)
    requires ConfigValid(c) && !InitRaises(c, select, data)
    ensures var s := Selected(c, select, data);
            s.version in c.versionChoices && s.host == c.versionChoices[s.version].host
    ensures var s := Selected(c, select, data);
            !(s.invalidArgument && ArgumentValid(c, select)) && !(s.invalidData && ArgumentValid(c, select))
  {
  }

  /** A valid argument fixes the version whatever the data says. */
  lemma ValidArgumentWins(c: Config, select: Option<string>, data: Json, data': Json)
    requires ConfigValid(c) && !InitRaises(c, select, data) && !InitRaises(c, select, data')
    requires ArgumentValid(c, select)
    ensures Selected(c, select, data).version == select.value
    ensures Selected(c, select, data).version == Selected(c, select, data').version
    ensures !Selected(c, select, data).invalidArgument && !Selected(c, select, data).invalidData
  {
  }

  /** An invalid argument is flagged and otherwise ignored: the choice is
      the one made without an argument. */
  lemma InvalidArgumentFallsBack(c: Config, select: Option<string>, data: Json)
    requires ConfigValid(c) && !InitRaises(c, select, data)
    requires Given(select) && !ArgumentValid(c, select)
    ensures !InitRaises(c, None, data)
    ensures Selected(c, select, data) == Selected(c, None, data).(invalidArgument := true)
  {
  }

  /** Without a valid argument, a data version that is a choice is used;
      a truthy one that is not is flagged and the default is kept. */
  lemma DataVersionChoice(c: Config, select: Option<string>, data: Json)
    requires ConfigValid(c) && !InitRaises(c, select, data) && !ArgumentValid(c, select)
    ensures var dv := DataField(data, "version");
            dv.Str? && dv.s in c.versionChoices && dv.s != "" ==>
              Selected(c, select, data).version == dv.s && !Selected(c, select, data).invalidData
    ensures var dv := DataField(data, "version");
            Truthy(dv) && !(dv.Str? && dv.s in c.versionChoices) ==>
              Selected(c, select, data).version == c.defaultVersion && Selected(c, select, data).invalidData
    ensures !Truthy(DataField(data, "version")) ==>
              Selected(c, select, data).version == c.defaultVersion && !Selected(c, select, data).invalidData
  {
  }

  /** One extension entry per name of the data's `extensions`, names that
      Python finds equal (`1` and `true`) sharing the entry of the first. */
  lemma ExtensionsOnePerName(c: Config, select: Option<string>, data: Json, x: Json)
    requires ConfigValid(c) && !InitRaises(c, select, data)
    requires DataField(data, "extensions").Arr?
    ensures x in Selected(c, select, data).extensions <==> FirstSpelling(DataField(data, "extensions").items, x)
    ensures KeyIn(x, Selected(c, select, data).extensions) <==> KeyIn(x, DataField(data, "extensions").items)
    ensures var e := Selected(c, select, data).extensions;
            forall i, j :: 0 <= i < j < |e| ==> PyKey(e[i]) != PyKey(e[j])
  {
    var items := DataField(data, "extensions").items;
    if Truthy(DataField(data, "extensions")) {
      DedupFirst(items, x);
      DedupCovers(items, x);
    } else {
      assert items == [];
    }
  }

  // ---------------------------------------------------------------------
  // Extensions
  // ---------------------------------------------------------------------

  /** The value `extensions` holds for a name: the empty tuple until the
      extension is applied, then its patch URL, name and description. */
  datatype Ext = Pending | Applied(url: string, name: Json, description: Json)

  /** What fetching a patch URL gives (lines 193-205): a failed request,
      a response that is not OK, a body that is not JSON, or a patch. */
  datatype PatchFetch = FetchFailed | NotOk(status: int, reason: string) | BadJson | Patched

  /** What `apply_extensions` does with one name: record it as invalid
      with a message, apply it, or raise. */
  datatype Outcome = Invalid(name: string, message: string) | Extended(ext: Ext) | Raises

  /** Lines 188-213 for one extension name, given what fetching the
      patch and the descriptor yield (None: the descriptor fetch raises). */
  function OutcomeOf(key: Json, patch: string -> PatchFetch, descriptor: string -> Option<Json>): (r: Outcome)
  {
    if !key.Str? then Raises
    else
      var url := PatchUrl(key.s);
      match patch(url)
      case FetchFailed => Invalid(key.s, "fetching failed")
      case BadJson => Invalid(key.s, "invalid JSON")
      case NotOk(status, reason) => Invalid(key.s, IntToString(status) + ": " + AsciiLower(reason))
      case Patched =>
        match descriptor(key.s)
        case None => Raises
        case Some(d) =>
          if HasKey(d, "name") && HasKey(d, "description")
          then Extended(Applied(url, Get(d, "name").value, Get(d, "description").value))
          else Raises
  }

  /** A name is recorded as invalid exactly when it is a string whose patch
      fetch fails in one of the three ways, and it is recorded under itself. */
  lemma OutcomeInvalid(key: Json, patch: string -> PatchFetch, descriptor: string -> Option<Json>)
    ensures OutcomeOf(key, patch, descriptor).Invalid?
        <==> key.Str? && !patch(PatchUrl(key.s)).Patched?
    ensures OutcomeOf(key, patch, descriptor).Invalid?
        ==> key == Str(OutcomeOf(key, patch, descriptor).name)
  {
  }

  /** A name is applied exactly when its patch applies and its descriptor
      has both a name and a description; the record keeps the patch URL. */
  lemma OutcomeExtended(key: Json, patch: string -> PatchFetch, descriptor: string -> Option<Json>)
    ensures OutcomeOf(key, patch, descriptor).Extended?
        <==> key.Str? && patch(PatchUrl(key.s)).Patched? && descriptor(key.s).Some?
             && HasKey(descriptor(key.s).value, "name")
             && HasKey(descriptor(key.s).value, "description")
    ensures OutcomeOf(key, patch, descriptor).Extended?
        ==> OutcomeOf(key, patch, descriptor).ext.Applied?
            && OutcomeOf(key, patch, descriptor).ext.url == PatchUrl(key.s)
  {
  }

  /** `OutcomeOf` for every name, given the two fetches. */
  function Fetch(patch: string -> PatchFetch, descriptor: string -> Option<Json>): Json -> Outcome
  {
    key => OutcomeOf(key, patch, descriptor)
  }

  /** The outcome of every name of `es`, in order. */
  function Outcomes(es: seq<(Json, Ext)>, outcome: Json -> Outcome): (r: seq<Outcome>)
    ensures |r| == |es|
  {
    if es == [] then [] else Outcomes(es[..|es| - 1], outcome) + [outcome(es[|es| - 1].0)]
  }

  /** Outcome `i` is the outcome of name `i`. */
  lemma {:induction false} OutcomesAt(es: seq<(Json, Ext)>, outcome: Json -> Outcome, i: nat)
    requires i < |es|
    ensures Outcomes(es, outcome)[i] == outcome(es[i].0)
    decreases |es|
  {
    if i < |es| - 1 {
      OutcomesAt(es[..|es| - 1], outcome, i);
    }
  }

  /** The fields `apply_extensions` changes. */
  datatype ExtState = ExtState(extensions: seq<(Json, Ext)>, invalid: seq<(string, string)>, extended: bool)

  /** None of the first `n` outcomes raises. */
  predicate NoneRaise(outs: seq<Outcome>, n: nat)
    requires n <= |outs|
  {
    forall m :: 0 <= m < n ==> !outs[m].Raises?
  }

  /** Outcome `n` is the first that raises. */
  predicate FirstRaise(outs: seq<Outcome>, n: nat)
  {
    n < |outs| && NoneRaise(outs, n) && outs[n].Raises?
  }

  /** One more outcome that does not raise. */
  lemma NoneRaiseStep(outs: seq<Outcome>, n: nat)
    requires n < |outs| && NoneRaise(outs, n) && !outs[n].Raises?
    ensures NoneRaise(outs, n + 1)
  {
  }

  /** Handling name `key`, at position `i`, whose outcome is `o`: an
      invalid name is recorded with its message, an applied one replaces
      its entry and marks the schema extended. */
  function Step(st: ExtState, i: nat, key: Json, o: Outcome): (r: ExtState)
    requires i < |st.extensions| && !o.Raises?
    ensures |r.extensions| == |st.extensions|
  {
    if o.Invalid? then st.(invalid := SetKey(st.invalid, o.name, o.message))
    else st.(extensions := st.extensions[i := (key, o.ext)], extended := true)
  }

  /** The fields after the first `n` names of `st0` are handled, their
      outcomes being `outs`. */
  function Run(st0: ExtState, outs: seq<Outcome>, n: nat): (r: ExtState)
    requires n <= |outs| == |st0.extensions| && NoneRaise(outs, n)
    ensures |r.extensions| == |st0.extensions|
    ensures forall i :: 0 <= i < |st0.extensions| ==> r.extensions[i].0 == st0.extensions[i].0
  {
    if n == 0 then st0
    else Step(Run(st0, outs, n - 1), n - 1, st0.extensions[n - 1].0, outs[n - 1])
  }

  /** Each handled name holds its applied extension when its outcome was
      one, its old value otherwise; the others are untouched. */
  lemma {:induction false} RunExtensions(st0: ExtState, outs: seq<Outcome>, n: nat, i: nat)
    requires n <= |outs| == |st0.extensions| && NoneRaise(outs, n) && i < |outs|
    ensures Run(st0, outs, n).extensions[i].1 ==
              if i < n && outs[i].Extended? then outs[i].ext else st0.extensions[i].1
  {
    if n > 0 {
      RunExtensions(st0, outs, n - 1, i);
    }
  }

  /** The schema counts as extended once some extension applied. */
  lemma {:induction false} RunExtended(st0: ExtState, outs: seq<Outcome>, n: nat)
    requires n <= |outs| == |st0.extensions| && NoneRaise(outs, n)
    ensures Run(st0, outs, n).extended <==> st0.extended || exists i :: 0 <= i < n && outs[i].Extended?
  {
    if n > 0 {
      RunExtended(st0, outs, n - 1);
      if exists i :: 0 <= i < n && outs[i].Extended? {
        var i :| 0 <= i < n && outs[i].Extended?;
        if i < n - 1 {
          assert exists i :: 0 <= i < n - 1 && outs[i].Extended?;
        }
      }
    }
  }

  /** Outcome `i` records `k` as invalid. */
  predicate InvalidAt(outs: seq<Outcome>, i: nat, k: string)
    requires i < |outs|
  {
    outs[i].Invalid? && outs[i].name == k
  }

  /** Each name that failed is recorded with its message, and a name no
      handled extension failed on keeps what it had before (names are
      distinct, as dictionary keys are). */
  lemma RunInvalid(st0: ExtState, outs: seq<Outcome>, n: nat, k: string)
    requires n <= |outs| == |st0.extensions| && NoneRaise(outs, n)
    requires forall a, b :: 0 <= a < b < n && InvalidAt(outs, a, k) ==> !InvalidAt(outs, b, k)
    ensures forall i :: 0 <= i < n && InvalidAt(outs, i, k) ==>
              Lookup(Run(st0, outs, n).invalid, k) == Some(outs[i].message)
    ensures (forall i :: 0 <= i < n ==> !InvalidAt(outs, i, k)) ==>
              Lookup(Run(st0, outs, n).invalid, k) == Lookup(st0.invalid, k)
  {
    forall i | 0 <= i < n && InvalidAt(outs, i, k)
      ensures Lookup(Run(st0, outs, n).invalid, k) == Some(outs[i].message)
    {
      RunInvalidRecorded(st0, outs, n, k, i);
    }
    if forall i :: 0 <= i < n ==> !InvalidAt(outs, i, k) {
      RunInvalidKept(st0, outs, n, k);
    }
  }

  /** Handling a name that is not recorded as `k` leaves the record of `k`. */
  lemma StepKeeps(st: ExtState, i: nat, key: Json, o: Outcome, k: string)
    requires i < |st.extensions| && !o.Raises? && !(o.Invalid? && o.name == k)
    ensures Lookup(Step(st, i, key, o).invalid, k) == Lookup(st.invalid, k)
  {
    if o.Invalid? {
      LookupSetKey(st.invalid, o.name, o.message, k);
    }
  }

  /** The only handled name recorded as `k` leaves its message. */
  lemma {:induction false} RunInvalidRecorded(st0: ExtState, outs: seq<Outcome>, n: nat, k: string, i: nat)
    requires n <= |outs| == |st0.extensions| && NoneRaise(outs, n)
    requires forall a, b :: 0 <= a < b < n && InvalidAt(outs, a, k) ==> !InvalidAt(outs, b, k)
    requires i < n && InvalidAt(outs, i, k)
    ensures Lookup(Run(st0, outs, n).invalid, k) == Some(outs[i].message)
  {
    var st := Run(st0, outs, n - 1);
    var o := outs[n - 1];
    assert Run(st0, outs, n) == Step(st, n - 1, st0.extensions[n - 1].0, o);
    if i == n - 1 {
      LookupSetKey(st.invalid, k, o.message, k);
    } else {
      RunInvalidRecorded(st0, outs, n - 1, k, i);
      assert !InvalidAt(outs, n - 1, k);
      StepKeeps(st, n - 1, st0.extensions[n - 1].0, o, k);
    }
  }

  /** With no handled name recorded as `k`, the record of `k` is as before. */
  lemma {:induction false} RunInvalidKept(st0: ExtState, outs: seq<Outcome>, n: nat, k: string)
    requires n <= |outs| == |st0.extensions| && NoneRaise(outs, n)
    requires forall i :: 0 <= i < n ==> !InvalidAt(outs, i, k)
    ensures Lookup(Run(st0, outs, n).invalid, k) == Lookup(st0.invalid, k)
  {
    if n > 0 {
      RunInvalidKept(st0, outs, n - 1, k);
      assert !InvalidAt(outs, n - 1, k);
      StepKeeps(Run(st0, outs, n - 1), n - 1, st0.extensions[n - 1].0, outs[n - 1], k);
    }
  }

  /** Distinct names give distinct invalid records. */
  lemma OutcomesInvalidDistinct(es: seq<(Json, Ext)>, patch: string -> PatchFetch, descriptor: string -> Option<Json>, k: string)
    requires forall a, b :: 0 <= a < b < |es| ==> es[a].0 != es[b].0
    ensures var outs := Outcomes(es, Fetch(patch, descriptor));
            forall a, b :: 0 <= a < b < |es| && InvalidAt(outs, a, k) ==> !InvalidAt(outs, b, k)
  {
    var outs := Outcomes(es, Fetch(patch, descriptor));
    forall a, b | 0 <= a < b < |es|
      ensures InvalidAt(outs, a, k) ==> !InvalidAt(outs, b, k)
    {
      OutcomesAt(es, Fetch(patch, descriptor), a);
      OutcomesAt(es, Fetch(patch, descriptor), b);
      OutcomeInvalid(es[a].0, patch, descriptor);
      OutcomeInvalid(es[b].0, patch, descriptor);
    }
  }

  /** The names of the extensions, in order. */
  function ExtNames(es: seq<(Json, Ext)>): (r: seq<Json>)
    ensures |r| == |es| && forall i :: 0 <= i < |es| ==> r[i] == es[i].0
  {
    if es == [] then [] else ExtNames(es[..|es| - 1]) + [es[|es| - 1].0]
  }

  /** `{ext: tuple() for ext in keys}` */
  function AllPending(keys: seq<Json>): (r: seq<(Json, Ext)>)
    ensures ExtNames(r) == keys
    ensures forall i :: 0 <= i < |r| ==> r[i].1 == Pending
  {
    var r := seq(|keys|, i requires 0 <= i < |keys| => (keys[i], Pending));
    assert ExtNames(r) == keys;
    r
  }

  /** The extensions part of `__init__` (lines 166-168): every key of a
      truthy `extensions` member of truthy data, none applied yet. */
  method PendingExtensions(c: Config, selectVersion: Option<string>, data: Json) returns (exts: seq<(Json, Ext)>)
    requires ConfigValid(c) && !InitRaises(c, selectVersion, data)
    ensures ExtNames(exts) == Selected(c, selectVersion, data).extensions
    ensures forall i :: 0 <= i < |exts| ==> exts[i].1 == Pending
  {
    exts := [];
    if Truthy(data) {
      var dataExtensions := GetOr(data, "extensions", Obj([]));
      if Truthy(dataExtensions) {
        var keys := ExtensionKeys(dataExtensions).value;
        exts := AllPending(keys);
      }
    }
  }

  /** The version part of `__init__` (lines 140-184): the argument if
      it names a choice (flagged and dropped otherwise), else a truthy
      data version if it names one (flagged otherwise), else the
      default. */
  method ChooseVersion(c: Config, selectVersion: Option<string>, data: Json)
    returns (version: string, host: string, invalidArgument: bool, invalidData: bool)
    requires ConfigValid(c) && !InitRaises(c, selectVersion, data)
    ensures var s := Selected(c, selectVersion, data);
            version == s.version && host == s.host && invalidArgument == s.invalidArgument && invalidData == s.invalidData
  {
    version := c.defaultVersion;
    host := c.versionChoices[c.defaultVersion].host;
    invalidArgument, invalidData := false, false;
    var select := selectVersion;
    if Given(select) {
      if select.value !in c.versionChoices {
        select := None;
        invalidArgument := true;
      } else {
        version := select.value;
        host := c.versionChoices[select.value].host;
      }
    }
    if Truthy(data) && !Given(select) {
      var releaseVersion := GetOr(data, "version", Null);
      if Truthy(releaseVersion) {
        if releaseVersion.Str? && releaseVersion.s in c.versionChoices {
          version := releaseVersion.s;
          host := c.versionChoices[releaseVersion.s].host;
        } else {
          invalidData := true;
        }
      }
    }
  }

  /** What handling the names with outcomes `outs` ends in: `ok` exactly
      when no outcome raises, with every name handled; otherwise the
      names before the first that raises are handled. */
  ghost predicate Handled(st0: ExtState, outs: seq<Outcome>, st: ExtState, ok: bool)
    requires |outs| == |st0.extensions|
  {
    (ok <==> NoneRaise(outs, |outs|)) &&
    (ok ==> st == Run(st0, outs, |outs|)) &&
    (!ok ==> exists n :: FirstRaise(outs, n) && st == Run(st0, outs, n))
  }

  /** Stopping at the first outcome that raises. */
  lemma HandledRaise(st0: ExtState, outs: seq<Outcome>, n: nat)
    requires |outs| == |st0.extensions| && FirstRaise(outs, n)
    ensures Handled(st0, outs, Run(st0, outs, n), false)
  {
  }

  /** Handling one more name whose outcome does not raise. */
  lemma RunNext(st0: ExtState, outs: seq<Outcome>, n: nat)
    requires n < |outs| == |st0.extensions| && NoneRaise(outs, n) && !outs[n].Raises?
    ensures NoneRaise(outs, n + 1)
    ensures Run(st0, outs, n + 1) == Step(Run(st0, outs, n), n, st0.extensions[n].0, outs[n])
  {
    NoneRaiseStep(outs, n);
  }

  /** The loop of `apply_extensions` over the names of `st0`, in order:
      it stops at the first name whose handling raises. */
  method HandleExtensions(st0: ExtState, outcome: Json -> Outcome)
    returns (st: ExtState, ok: bool)
    ensures Handled(st0, Outcomes(st0.extensions, outcome), st, ok)
  {
    ghost var outs := Outcomes(st0.extensions, outcome);
    st := st0;
    var i := 0;
    while i < |st0.extensions|
      invariant 0 <= i <= |outs| == |st0.extensions| && NoneRaise(outs, i)
      invariant st == Run(st0, outs, i)
    {
      var key := st0.extensions[i].0;
      var o := outcome(key);
      OutcomesAt(st0.extensions, outcome, i);
      if o.Raises? {
        HandledRaise(st0, outs, i);
        return st, false;
      }
      RunNext(st0, outs, i);
      st := Step(st, i, key, o);
      i := i + 1;
    }
    ok := true;
  }

  // ---------------------------------------------------------------------
  // SchemaOCDS
  // ---------------------------------------------------------------------

  /** The state of a `SchemaOCDS` object that the analysis reads. */
  class SchemaOcds {
    const config: Config
    var version: string
    var invalidVersionArgument: bool
    var invalidVersionData: bool
    var schemaHost: string
    var extensions: seq<(Json, Ext)>
    var invalidExtension: seq<(string, string)>
    var extended: bool
    var releaseSchemaUrl: string
    var releasePkgSchemaUrl: string
    var recordPkgSchemaUrl: string

    /** The version, host and flags as one value. */
    function Chosen(): Selection
      reads this
    {
      Selection(version, schemaHost, invalidVersionArgument, invalidVersionData, ExtNames(extensions))
    }

    /** The fields `apply_extensions` changes. */
    function ExtFields(): ExtState
      reads this
    {
      ExtState(extensions, invalidExtension, extended)
    }

    /** `SchemaOCDS(select_version, release_data)` (lines 136-184). */
    constructor (config: Config, selectVersion: Option<string>, releaseData: Json)
      requires ConfigValid(config) && !InitRaises(config, selectVersion, releaseData)
      ensures this.config == config
      ensures Chosen() == Selected(config, selectVersion, releaseData)
      ensures forall i :: 0 <= i < |extensions| ==> extensions[i].1 == Pending
      ensures invalidExtension == [] && !extended
      ensures releaseSchemaUrl == UrlJoin(schemaHost, config.releaseSchemaName)
      ensures releasePkgSchemaUrl == UrlJoin(schemaHost, config.releasePkgSchemaName)
      ensures recordPkgSchemaUrl == UrlJoin(schemaHost, config.recordPkgSchemaName)
    {
      var v, host, badArgument, badData := ChooseVersion(config, selectVersion, releaseData);
      var exts := PendingExtensions(config, selectVersion, releaseData);
      this.config := config;
      version, schemaHost := v, host;
      invalidVersionArgument, invalidVersionData := badArgument, badData;
      extensions, invalidExtension, extended := exts, [], false;
      new;
      releaseSchemaUrl := UrlJoin(schemaHost, config.releaseSchemaName);
      releasePkgSchemaUrl := UrlJoin(schemaHost, config.releasePkgSchemaName);
      recordPkgSchemaUrl := UrlJoin(schemaHost, config.recordPkgSchemaName);
    }

    /** `apply_extensions(schema_obj)` (lines 186-213) without the merge
      of the patches into the schema: each name's fetch outcome is
      recorded; false where Python raises, with the fields as they were
      when it did. */
    method ApplyExtensions(patch: string -> PatchFetch, descriptor: string -> Option<Json>) returns (ok: bool)
      modifies this`extensions, this`invalidExtension, this`extended
      ensures var outs := Outcomes(old(extensions), Fetch(patch, descriptor));
              ok <==> NoneRaise(outs, |outs|)
      ensures var outs := Outcomes(old(extensions), Fetch(patch, descriptor));
              ok ==> ExtFields() == Run(old(ExtFields()), outs, |outs|)
      ensures var outs := Outcomes(old(extensions), Fetch(patch, descriptor));
              !ok ==> exists n :: FirstRaise(outs, n) && ExtFields() == Run(old(ExtFields()), outs, n)
    {
      var st;
      st, ok := HandleExtensions(ExtFields(), Fetch(patch, descriptor));
      extensions, invalidExtension, extended := st.extensions, st.invalid, st.extended;
      assert ExtFields() == st;
    }
  }
}
