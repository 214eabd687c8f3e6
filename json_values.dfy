/** JSON values as Python's json module hands them to the analysis code, and
    paths into them.  Objects keep their members in document order, because
    several results follow the iteration order of Python dicts. */
module JsonValues {

  datatype Option<T> = None | Some(value: T)

  /** A parsed JSON value.  Numbers are integers: floating point is not modelled. */
  datatype Json =
    | Null
    | Bool(b: bool)
    | Num(n: int)
    | Str(s: string)
    | Arr(items: seq<Json>)
    | Obj(members: seq<(string, Json)>)

  /** One step of a concrete path: a member name or an array index. */
  datatype PathSeg = Key(name: string) | Index(i: nat)

  type Path = seq<PathSeg>

  /** Python's truth value of a JSON value (`if value:`). */
  predicate Truthy(j: Json)
  {
    match j
    case Null => false
    case Bool(b) => b
    case Num(n) => n != 0
    case Str(s) => s != ""
    case Arr(items) => items != []
    case Obj(ms) => ms != []
  }

  /** `isinstance(j, (dict, list))` */
  predicate IsContainer(j: Json)
  {
    j.Arr? || j.Obj?
  }

  /** Position of the first member named `k`, if any. */
  function KeyIndex<V>(ms: seq<(string, V)>, k: string): (r: Option<nat>)
    ensures r.Some? ==> r.value < |ms| && ms[r.value].0 == k
  {
    if ms == [] then None
    else if ms[0].0 == k then Some(0)
    else
      match KeyIndex(ms[1..], k)
      case None => None
      case Some(i) => Some(i + 1)
  }

  /** The position `KeyIndex` finds is the first one with that name, and
      there is none exactly when no member has it. */
  lemma {:induction false} KeyIndexFirst<V>(ms: seq<(string, V)>, k: string)
    ensures KeyIndex(ms, k).Some? ==> forall i :: 0 <= i < KeyIndex(ms, k).value ==> ms[i].0 != k
    ensures KeyIndex(ms, k).None? <==> forall i :: 0 <= i < |ms| ==> ms[i].0 != k
    decreases |ms|
  {
    if ms != [] && ms[0].0 != k {
      KeyIndexFirst(ms[1..], k);
      if KeyIndex(ms, k).None? {
        forall i | 0 <= i < |ms|
          ensures ms[i].0 != k
        {
          if i > 0 {
            assert ms[i] == ms[1..][i - 1];
          }
        }
      }
    }
  }

  /** `k in j` for a dict `j`; false for every other value. */
  predicate HasKey(j: Json, k: string)
  {
    j.Obj? && KeyIndex(j.members, k).Some?
  }

  /** `j.get(k)` for a dict `j`. */
  function Get(j: Json, k: string): (r: Option<Json>)
    ensures r.Some? <==> HasKey(j, k)
  {
    if j.Obj? then
      match KeyIndex(j.members, k)
      case None => None
      case Some(i) => Some(j.members[i].1)
    else None
  }

  /** `j.get(k, d)` */
  function GetOr(j: Json, k: string, d: Json): Json
  {
    match Get(j, k)
    case None => d
    case Some(v) => v
  }

  /** `j[k] = v` on a dict: an existing member keeps its place, a new one goes last. */
  function SetKey<V>(ms: seq<(string, V)>, k: string, v: V): (r: seq<(string, V)>)
    ensures KeyIndex(ms, k).None? ==> r == ms + [(k, v)]
    ensures KeyIndex(ms, k).Some? ==> |r| == |ms| && r[KeyIndex(ms, k).value] == (k, v)
    ensures KeyIndex(ms, k).Some? ==> forall i :: 0 <= i < |ms| && i != KeyIndex(ms, k).value ==> r[i] == ms[i]
  {
    match KeyIndex(ms, k)
    case None => ms + [(k, v)]
    case Some(i) => ms[i := (k, v)]
  }

  /** Two member lists that agree on names as far as the shorter goes, the
      rest of the longer one lacking `k`, find `k` at the same place. */
  lemma {:induction false} KeyIndexSameNames<V, W>(a: seq<(string, V)>, b: seq<(string, W)>, k: string)
    requires |a| <= |b|
    requires forall i :: 0 <= i < |a| ==> a[i].0 == b[i].0
    requires forall i :: |a| <= i < |b| ==> b[i].0 != k
    ensures KeyIndex(a, k) == KeyIndex(b, k)
    decreases |a|
  {
    if a == [] {
      KeyIndexFirst(b, k);
    } else if a[0].0 != k {
      KeyIndexSameNames(a[1..], b[1..], k);
    }
  }

  /** Assigning `k` leaves where every other name is found. */
  lemma KeyIndexSetKeyOther<V>(ms: seq<(string, V)>, k: string, v: V, k2: string)
    requires k2 != k
    ensures KeyIndex(SetKey(ms, k, v), k2) == KeyIndex(ms, k2)
  {
    KeyIndexSameNames(ms, SetKey(ms, k, v), k2);
  }

  /** A name that is missing is found where it is appended. */
  lemma {:induction false} KeyIndexAppend<V>(ms: seq<(string, V)>, k: string, v: V)
    requires KeyIndex(ms, k).None?
    ensures KeyIndex(ms + [(k, v)], k) == Some(|ms|)
    decreases |ms|
  {
    if ms != [] {
      assert (ms + [(k, v)])[1..] == ms[1..] + [(k, v)];
      KeyIndexAppend(ms[1..], k, v);
    }
  }

  /** Assigning `k` leaves `k` where it is found, or finds it last. */
  lemma KeyIndexSetKey<V>(ms: seq<(string, V)>, k: string, v: V)
    ensures KeyIndex(SetKey(ms, k, v), k) == Some(if KeyIndex(ms, k).Some? then KeyIndex(ms, k).value else |ms|)
  {
    if KeyIndex(ms, k).None? {
      KeyIndexAppend(ms, k, v);
    } else {
      KeyIndexSameNames(ms, SetKey(ms, k, v), k);
    }
  }

  /** After assigning `k`, reading `k` gives the new value and reading any
      other name gives what it gave before. */
  lemma GetSetKey(ms: seq<(string, Json)>, k: string, v: Json, k2: string)
    ensures Get(Obj(SetKey(ms, k, v)), k2) == if k2 == k then Some(v) else Get(Obj(ms), k2)
  {
    if k2 == k {
      KeyIndexSetKey(ms, k, v);
    } else {
      KeyIndexSetKeyOther(ms, k, v, k2);
    }
  }

  /** `d.get(k)` on a dict of any values. */
  function Lookup<V>(ms: seq<(string, V)>, k: string): Option<V>
  {
    match KeyIndex(ms, k)
    case None => None
    case Some(i) => Some(ms[i].1)
  }

  /** After assigning `k`, looking `k` up gives the new value and looking
      up any other name gives what it gave before. */
  lemma LookupSetKey<V>(ms: seq<(string, V)>, k: string, v: V, k2: string)
    ensures Lookup(SetKey(ms, k, v), k2) == if k2 == k then Some(v) else Lookup(ms, k2)
  {
    if k2 == k {
      KeyIndexSetKey(ms, k, v);
    } else {
      KeyIndexSetKeyOther(ms, k, v, k2);
    }
  }

  /** Assigning the same name twice keeps only the second value. */
  lemma SetKeyTwice<V>(ms: seq<(string, V)>, k: string, a: V, b: V)
    ensures SetKey(SetKey(ms, k, a), k, b) == SetKey(ms, k, b)
  {
    KeyIndexSetKey(ms, k, a);
  }

  /** Assignments to two different names commute when the second name is
      already present (so that neither is appended after the other). */
  lemma SetKeyCommute<V>(ms: seq<(string, V)>, k1: string, v1: V, k2: string, v2: V)
    requires k1 != k2 && KeyIndex(ms, k2).Some?
    ensures SetKey(SetKey(ms, k1, v1), k2, v2) == SetKey(SetKey(ms, k2, v2), k1, v1)
  {
    KeyIndexSetKeyOther(ms, k1, v1, k2);
    KeyIndexSetKeyOther(ms, k2, v2, k1);
  }

  /** What Python compares and hashes for a hashable JSON value: `True == 1`
      and `False == 0` with equal hashes, so a set or a dict keeps only one
      of them; every other value stands for itself. */
  function PyKey(j: Json): Json
  {
    match j
    case Bool(b) => Num(if b then 1 else 0)
    case _ => j
  }

  /** Equal under `PyKey` means equal for Python, and the other way round. */
  lemma PyKeyMeaning(a: Json, b: Json)
    ensures PyKey(a) == PyKey(b) <==>
              a == b || (a == Bool(true) && b == Num(1)) || (a == Num(1) && b == Bool(true)) ||
              (a == Bool(false) && b == Num(0)) || (a == Num(0) && b == Bool(false))
  {
  }

  /** A Python set of hashable values: each element is filed under its
      `PyKey`, so two elements are never equal for Python. */
  type PySet = map<Json, Json>

  /** Every element is filed under its own key. */
  predicate PySetValid(s: PySet)
  {
    forall k :: k in s ==> PyKey(s[k]) == k
  }

  /** `x in s` */
  predicate PyIn(x: Json, s: PySet)
  {
    PyKey(x) in s
  }

  /** `s.add(x)`: an element equal to `x` that is already there stays, in
      place of `x`. */
  function PyAdd(s: PySet, x: Json): PySet
  {
    if PyIn(x, s) then s else s[PyKey(x) := x]
  }

  /** After `s.add(x)`, `x` is in the set and nothing else joined; what
      was there stays; `x` itself is held unless an equal element was. */
  lemma PyAddMeaning(s: PySet, x: Json)
    ensures PyAdd(s, x).Keys == s.Keys + {PyKey(x)}
    ensures PySetValid(s) ==> PySetValid(PyAdd(s, x))
    ensures forall k :: k in s ==> PyAdd(s, x)[k] == s[k]
    ensures !PyIn(x, s) ==> PyAdd(s, x)[PyKey(x)] == x
  {
  }

  /** True when no object anywhere in `j` repeats a member name, as for every
      value Python's json module can produce. */
  predicate DistinctKeys(j: Json)
    decreases j
  {
    match j
    case Obj(ms) =>
      (forall i, i' :: 0 <= i < i' < |ms| ==> ms[i].0 != ms[i'].0) &&
      (forall i :: 0 <= i < |ms| ==> DistinctKeys(ms[i].1))
    case Arr(items) => forall i :: 0 <= i < |items| ==> DistinctKeys(items[i])
    case _ => true
  }

  /** The member names of a concrete path, array indices left out. */
  function Names(p: Path): (r: seq<string>)
    ensures |r| <= |p|
  {
    if p == [] then []
    else if p[|p| - 1].Key? then Names(p[..|p| - 1]) + [p[|p| - 1].name]
    else Names(p[..|p| - 1])
  }

  /** A path made of member names only. */
  function KeyPath(names: seq<string>): (r: Path)
    ensures |r| == |names|
    ensures forall i :: 0 <= i < |names| ==> r[i] == Key(names[i])
  {
    if names == [] then [] else KeyPath(names[..|names| - 1]) + [Key(names[|names| - 1])]
  }

  /** A concrete path with its array indices removed (a "generic" path). */
  function StripIndices(p: Path): Path
  {
    KeyPath(Names(p))
  }

  lemma {:induction false} NamesAppend(p: Path, q: Path)
    ensures Names(p + q) == Names(p) + Names(q)
    decreases |q|
  {
    if q == [] {
      assert p + q == p;
    } else {
      var q' := q[..|q| - 1];
      assert (p + q)[..|p + q| - 1] == p + q';
      NamesAppend(p, q');
    }
  }

  lemma {:induction false} NamesOfKeyPath(names: seq<string>)
    ensures Names(KeyPath(names)) == names
    decreases |names|
  {
    if names != [] {
      var init := names[..|names| - 1];
      assert KeyPath(names)[..|names| - 1] == KeyPath(init);
      NamesOfKeyPath(init);
    }
  }

  lemma KeyPathInjective(a: seq<string>, b: seq<string>)
    requires KeyPath(a) == KeyPath(b)
    ensures a == b
  {
    NamesOfKeyPath(a);
    NamesOfKeyPath(b);
  }
}
