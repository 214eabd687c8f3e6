/** The few string operations the analysis code uses: `str.join`,
    `str.split('/')`, `str.rfind`, `str()` of integers, `str.lower()` and
    Python's ordering of strings. */
module Text {
  import opened JsonValues

  /** `sep.join(parts)` */
  function Join(sep: string, parts: seq<string>): string
  {
    if parts == [] then ""
    else if |parts| == 1 then parts[0]
    else Join(sep, parts[..|parts| - 1]) + sep + parts[|parts| - 1]
  }

  /** `s.rfind('/')`, with None for Python's -1. */
  function LastSlash(s: string): (r: Option<nat>)
    ensures r.Some? ==> r.value < |s| && s[r.value] == '/'
    ensures r.Some? ==> forall i :: r.value < i < |s| ==> s[i] != '/'
    ensures r.None? <==> forall i :: 0 <= i < |s| ==> s[i] != '/'
  {
    if s == [] then None
    else if s[|s| - 1] == '/' then Some(|s| - 1)
    else LastSlash(s[..|s| - 1])
  }

  /** The last slash of `a + b` is `b`'s, or else `a`'s. */
  lemma {:induction false} LastSlashAppend(a: string, b: string)
    ensures LastSlash(a + b) == match LastSlash(b) case Some(i) => Some(|a| + i) case None => LastSlash(a)
    decreases |b|
  {
    if b == [] {
      assert a + b == a;
    } else if b[|b| - 1] != '/' {
      assert (a + b)[..|a + b| - 1] == a + b[..|b| - 1];
      LastSlashAppend(a, b[..|b| - 1]);
    }
  }

  /** `s.split('/')[-1]`: what follows the last slash, or all of `s`. */
  function LastSegment(s: string): (r: string)
    ensures '/' !in r
    ensures |r| <= |s| && r == s[|s| - |r|..]
    ensures |r| < |s| ==> s[|s| - |r| - 1] == '/'
    ensures LastSlash(s).None? ==> r == s
  {
    match LastSlash(s)
    case None => s
    case Some(i) => s[i + 1..]
  }

  /** `'/'.join(s.split('/')[:-1])`: what precedes the last slash, or "". */
  function BeforeLastSegment(s: string): (r: string)
    ensures LastSlash(s).None? ==> r == ""
    ensures LastSlash(s).Some? ==> s == r + "/" + LastSegment(s)
  {
    match LastSlash(s)
    case None => ""
    case Some(i) => s[..i]
  }

  /** `sub in s` for strings. */
  predicate Contains(s: string, sub: string)
    decreases |s|
  {
    (|sub| <= |s| && s[..|sub|] == sub) || (s != [] && Contains(s[1..], sub))
  }

  function DigitChar(d: nat): char
    requires d < 10
  {
    "0123456789"[d]
  }

  /** `str(n)` for a non-negative integer. */
  function NatToString(n: nat): (r: string)
    ensures |r| >= 1
    decreases n
  {
    if n < 10 then [DigitChar(n)] else NatToString(n / 10) + [DigitChar(n % 10)]
  }

  /** `str(i)` for an integer. */
  function IntToString(i: int): string
  {
    if i < 0 then "-" + NatToString(-i) else NatToString(i)
  }

  /** `str(s)` for one segment of a concrete path. */
  function SegText(s: PathSeg): string
  {
    match s
    case Key(n) => n
    case Index(i) => NatToString(i)
  }

  function SegTexts(p: Path): (r: seq<string>)
    ensures |r| == |p| && forall i :: 0 <= i < |p| ==> r[i] == SegText(p[i])
  {
    if p == [] then [] else SegTexts(p[..|p| - 1]) + [SegText(p[|p| - 1])]
  }

  /** `s.lower()` on ASCII letters only: Python also lowers non-ASCII
      letters, which this leaves as they are (HTTP reason phrases are
      ASCII in practice). */
  function AsciiLower(s: string): (r: string)
    ensures |r| == |s|
  {
    if s == [] then []
    else
      var c := s[|s| - 1];
      var c' := if 'A' <= c <= 'Z' then (c as int + 32) as char else c;
      AsciiLower(s[..|s| - 1]) + [c']
  }

  /** Python's `a < b` on strings: lexicographic by code point. */
  predicate StrLt(a: string, b: string)
    decreases |a|
  {
    if a == [] then b != []
    else if b == [] then false
    else if a[0] != b[0] then a[0] < b[0]
    else StrLt(a[1..], b[1..])
  }

  predicate StrLe(a: string, b: string)
  {
    a == b || StrLt(a, b)
  }

  lemma {:induction false} StrLtIrreflexive(a: string)
    ensures !StrLt(a, a)
    decreases |a|
  {
    if a != [] {
      StrLtIrreflexive(a[1..]);
    }
  }

  lemma {:induction false} StrLtTransitive(a: string, b: string, c: string)
    requires StrLt(a, b) && StrLt(b, c)
    ensures StrLt(a, c)
    decreases |a|
  {
    if a != [] && a[0] == b[0] && b[0] == c[0] {
      StrLtTransitive(a[1..], b[1..], c[1..]);
    }
  }

  lemma {:induction false} StrLtTotal(a: string, b: string)
    requires a != b
    ensures StrLt(a, b) || StrLt(b, a)
    decreases |a|
  {
    if a != [] && b != [] && a[0] == b[0] {
      assert a == [a[0]] + a[1..] && b == [b[0]] + b[1..];
      StrLtTotal(a[1..], b[1..]);
    }
  }

  lemma StrLtAsymmetric(a: string, b: string)
    requires StrLt(a, b)
    ensures !StrLt(b, a)
  {
    if StrLt(b, a) {
      StrLtTransitive(a, b, a);
      StrLtIrreflexive(a);
    }
  }
}
