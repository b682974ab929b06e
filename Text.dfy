/**
 * The handful of Python `str` and `list` operations the monitor relies on:
 * substring test (`p in s`), `s.split(sep)[0]`, `s.split(sep)[1]`,
 * `s.split(' ')[-1]`, `s.strip()`, `s.replace(p, '')` and `lines.index(x)`.
 */
module Text {
  import opened Wrappers

  /** `p` occurs in `s` starting at index `k`. */
  predicate OccursAt(s: string, p: string, k: nat) {
    k + |p| <= |s| && s[k..k + |p|] == p
  }

  lemma OccursAtTail(s: string, p: string, k: nat)
    requires |s| > 0
    ensures OccursAt(s[1..], p, k) <==> OccursAt(s, p, k + 1)
  {
    if k + 1 + |p| <= |s| {
      assert s[1..][k..k + |p|] == s[k + 1..k + 1 + |p|];
    }
  }

  /** Index of the first occurrence of `p` in `s` (Python's `s.find(p)`, None for -1). */
  function Find(s: string, p: string): (r: Option<nat>)
    ensures r.Some? ==> OccursAt(s, p, r.value)
    ensures r.Some? ==> forall k: nat :: k < r.value ==> !OccursAt(s, p, k)
    ensures r.None? ==> forall k: nat :: !OccursAt(s, p, k)
    decreases |s|
  {
    if |p| <= |s| && s[..|p|] == p then
      Some(0)
    else if |s| == 0 then
      None
    else
      var tail := Find(s[1..], p);
      forall k: nat | k >= 1 ensures OccursAt(s, p, k) <==> OccursAt(s[1..], p, k - 1) {
        OccursAtTail(s, p, k - 1);
      }
      assert !OccursAt(s, p, 0);
      match tail
      case Some(k) => Some(k + 1)
      case None => None
  }

  /** Python's `p in s` on strings. */
  predicate Contains(s: string, p: string) {
    Find(s, p).Some?
  }

  lemma ContainsIff(s: string, p: string)
    ensures Contains(s, p) <==> exists k: nat :: OccursAt(s, p, k)
  {
    var r := Find(s, p);
    if r.Some? {
      assert OccursAt(s, p, r.value);
    }
  }

  /** `s.split(sep)[0]`: everything before the first `sep`, or all of `s`. */
  function SplitHead(s: string, sep: string): (r: string)
    requires |sep| > 0
    ensures |r| <= |s| && r == s[..|r|]
    ensures r == s || OccursAt(s, sep, |r|)
    ensures forall k: nat :: k < |r| ==> !OccursAt(s, sep, k)
    ensures forall k: nat :: !OccursAt(r, sep, k)
  {
    match Find(s, sep)
    case None =>
      s
    case Some(n) =>
      var r := s[..n];
      forall k: nat ensures !OccursAt(r, sep, k) {
        if OccursAt(r, sep, k) {
          assert r[k..k + |sep|] == s[k..k + |sep|];
          assert OccursAt(s, sep, k);
        }
      }
      r
  }

  /**
   * `s.split(sep)[1]`: the text between the first and the second `sep`
   * (or the end of `s`); None where Python raises IndexError because `sep`
   * does not occur.
   */
  function SplitSecond(s: string, sep: string): (r: Option<string>)
    requires |sep| > 0
    ensures r.None? <==> !Contains(s, sep)
    ensures r.Some? ==> exists k: nat ::
      && OccursAt(s, sep, k)
      && (forall j: nat :: j < k ==> !OccursAt(s, sep, j))
      && r.value == SplitHead(s[k + |sep|..], sep)
  {
    match Find(s, sep)
    case None => None
    case Some(k) =>
      var r := SplitHead(s[k + |sep|..], sep);
      assert OccursAt(s, sep, k) && (forall j: nat :: j < k ==> !OccursAt(s, sep, j)) && r == SplitHead(s[k + |sep|..], sep);
      Some(r)
  }

  /** The characters Python's `str.isspace()` accepts. */
  predicate IsSpace(c: char) {
    ('\t' <= c <= '\r') || ('\U{1C}' <= c <= ' ') || c == '\U{85}' || c == '\U{A0}'
    || c == '\U{1680}' || ('\U{2000}' <= c <= '\U{200A}') || c == '\U{2028}' || c == '\U{2029}'
    || c == '\U{202F}' || c == '\U{205F}' || c == '\U{3000}'
  }

  /** `s.lstrip()`. */
  function StripStart(s: string): (r: string)
    ensures |r| <= |s| && r == s[|s| - |r|..]
    ensures forall i :: 0 <= i < |s| - |r| ==> IsSpace(s[i])
    ensures r != [] ==> !IsSpace(r[0])
  {
    if s != [] && IsSpace(s[0]) then StripStart(s[1..]) else s
  }

  /** `s.rstrip()`. */
  function StripEnd(s: string): (r: string)
    ensures |r| <= |s| && r == s[..|r|]
    ensures forall i :: |r| <= i < |s| ==> IsSpace(s[i])
    ensures r != [] ==> !IsSpace(r[|r| - 1])
  {
    if s != [] && IsSpace(s[|s| - 1]) then StripEnd(s[..|s| - 1]) else s
  }

  /** `s.strip()`: `s` without its leading and trailing whitespace. */
  function Strip(s: string): (r: string)
    ensures exists i, j :: (0 <= i <= j <= |s| && r == s[i..j]
                            && (forall k :: 0 <= k < i ==> IsSpace(s[k]))
                            && (forall k :: j <= k < |s| ==> IsSpace(s[k])))
    ensures r != [] ==> !IsSpace(r[0]) && !IsSpace(r[|r| - 1])
  {
    var t := StripStart(s);
    var r := StripEnd(t);
    assert r == s[|s| - |t|..|s| - |t| + |r|];
    r
  }

  /** `s.split(' ')[-1]`: the text after the last space, or all of `s`. */
  function LastToken(s: string): (r: string)
    ensures |r| <= |s| && r == s[|s| - |r|..]
    ensures ' ' !in r
    ensures |r| < |s| ==> s[|s| - |r| - 1] == ' '
  {
    if s == [] || s[|s| - 1] == ' ' then []
    else LastToken(s[..|s| - 1]) + [s[|s| - 1]]
  }

  /** `s.replace(p, '')` for a non-empty `p`: occurrences removed left to right. */
  function RemoveAll(s: string, p: string): (r: string)
    requires |p| > 0
    ensures |r| <= |s|
    ensures Contains(s, p) ==> |r| <= |s| - |p|
    ensures |r| == |s| ==> r == s
    decreases |s|
  {
    if |s| < |p| then s
    else if s[..|p|] == p then RemoveAll(s[|p|..], p)
    else
      assert s == [s[0]] + s[1..];
      [s[0]] + RemoveAll(s[1..], p)
  }

  /** A string without `p` in it is left as it is. */
  lemma {:induction false} RemoveAllAbsent(s: string, p: string)
    requires |p| > 0
    requires forall k: nat :: !OccursAt(s, p, k)
    ensures RemoveAll(s, p) == s
    decreases |s|
  {
    if |s| >= |p| {
      assert !OccursAt(s, p, 0);
      forall k: nat ensures !OccursAt(s[1..], p, k) {
        OccursAtTail(s, p, k);
      }
      RemoveAllAbsent(s[1..], p);
      assert s == [s[0]] + s[1..];
    }
  }

  /** Removing a leading `p` from `p + t` leaves `t` when `t` holds no `p`. */
  lemma {:induction false} RemoveLeading(p: string, t: string)
    requires |p| > 0
    requires forall k: nat :: !OccursAt(t, p, k)
    ensures RemoveAll(p + t, p) == t
  {
    assert (p + t)[..|p|] == p;
    assert (p + t)[|p|..] == t;
    RemoveAllAbsent(t, p);
  }

  /** Python's `xs.index(x)`: the first index holding `x`. */
  function IndexOf(xs: seq<string>, x: string): (r: nat)
    requires x in xs
    ensures r < |xs| && xs[r] == x
    ensures forall j :: 0 <= j < r ==> xs[j] != x
  {
    if xs[0] == x then 0 else 1 + IndexOf(xs[1..], x)
  }
}
