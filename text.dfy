/**
 * The few Python `str` operations the assistant relies on: `isspace`
 * (also what the regular-expression class `\s` matches), `strip`,
 * `lower`, and substring search (`in`, `str.find`).
 */
module Text {
  import opened Wrappers

  /** The characters for which Python's `str.isspace()` is true. */
  predicate IsSpace(c: char) {
    || c == ' '
    || ('\t' <= c <= '\r')                  // \t \n \v \f \r
    || ('\U{1C}' <= c <= '\U{1F}')           // file, group, record and unit separators
    || c == '\U{85}' || c == '\U{A0}' || c == '\U{1680}'
    || ('\U{2000}' <= c <= '\U{200A}')
    || c == '\U{2028}' || c == '\U{2029}' || c == '\U{202F}' || c == '\U{205F}' || c == '\U{3000}'
  }

  /** `s` has no whitespace at either end, as every result of `strip()`. */
  predicate IsStripped(s: string) {
    s == [] || (!IsSpace(s[0]) && !IsSpace(s[|s| - 1]))
  }

  /** Python's `s.lstrip()`: the suffix left after dropping leading whitespace. */
  function StripStart(s: string): (r: string)
    ensures |r| <= |s| && r == s[|s| - |r|..]
    ensures forall k :: 0 <= k < |s| - |r| ==> IsSpace(s[k])
    ensures r == [] || !IsSpace(r[0])
  {
    if s != [] && IsSpace(s[0]) then StripStart(s[1..]) else s
  }

  /** Python's `s.rstrip()`: the prefix left after dropping trailing whitespace. */
  function StripEnd(s: string): (r: string)
    ensures |r| <= |s| && r == s[..|r|]
    ensures forall k :: |r| <= k < |s| ==> IsSpace(s[k])
    ensures r == [] || !IsSpace(r[|r| - 1])
  {
    if s != [] && IsSpace(s[|s| - 1]) then StripEnd(s[..|s| - 1]) else s
  }

  /**
   * Python's `s.strip()`: the infix of `s` that starts at the first and ends
   * at the last non-whitespace character; everything cut off is whitespace.
   */
  function Strip(s: string): (r: string)
    ensures IsStripped(r)
    ensures var i := |s| - |StripStart(s)|;
      && i + |r| <= |s| && r == s[i..i + |r|]
      && (forall k :: 0 <= k < i ==> IsSpace(s[k]))
      && (forall k :: i + |r| <= k < |s| ==> IsSpace(s[k]))
  {
    var t := StripStart(s);
    var r := StripEnd(t);
    StripInfix(s, t, r);
    r
  }

  /** `rstrip` after `lstrip` leaves a stripped infix with whitespace on both sides of it. */
  lemma StripInfix(s: string, t: string, r: string)
    requires |t| <= |s| && t == s[|s| - |t|..] && (t == [] || !IsSpace(t[0]))
    requires |r| <= |t| && r == t[..|r|] && (r == [] || !IsSpace(r[|r| - 1]))
    requires forall k :: |r| <= k < |t| ==> IsSpace(t[k])
    requires forall k :: 0 <= k < |s| - |t| ==> IsSpace(s[k])
    ensures IsStripped(r)
    ensures var i := |s| - |t|;
      && i + |r| <= |s| && r == s[i..i + |r|]
      && (forall k :: 0 <= k < i ==> IsSpace(s[k]))
      && (forall k :: i + |r| <= k < |s| ==> IsSpace(s[k]))
  {
    var i := |s| - |t|;
    assert r == [] || (r[0] == t[0] && !IsSpace(r[0]));
    forall k | 0 <= k < |r| ensures s[i..i + |r|][k] == r[k] {
      assert r[k] == t[k] == s[i + k];
    }
    forall k | i + |r| <= k < |s| ensures IsSpace(s[k]) {
      assert s[k] == t[k - i];
    }
  }

  /** `strip()` yields the empty string exactly for all-whitespace input. */
  lemma {:induction false} StripEmptyIffBlank(s: string)
    ensures Strip(s) == [] <==> forall k :: 0 <= k < |s| ==> IsSpace(s[k])
  {
    var r := Strip(s);
    var i := |s| - |StripStart(s)|;
    if r == [] {
      assert i + |r| == i;
    } else {
      assert s[i] == r[0];
      assert !IsSpace(s[i]);
    }
  }

  /** `lstrip()` removes exactly a whitespace prefix that is followed by a visible character (or nothing). */
  lemma {:induction false} StripStartSpaces(p: string, t: string)
    requires forall k :: 0 <= k < |p| ==> IsSpace(p[k])
    requires t == [] || !IsSpace(t[0])
    ensures StripStart(p + t) == t
  {
    if p == [] {
      assert p + t == t;
    } else {
      assert (p + t)[0] == p[0];
      assert (p + t)[1..] == p[1..] + t;
      StripStartSpaces(p[1..], t);
    }
  }

  /** `rstrip()` removes exactly a whitespace suffix that follows a visible character (or nothing). */
  lemma {:induction false} StripEndSpaces(t: string, q: string)
    requires forall k :: 0 <= k < |q| ==> IsSpace(q[k])
    requires t == [] || !IsSpace(t[|t| - 1])
    ensures StripEnd(t + q) == t
  {
    if q == [] {
      assert t + q == t;
    } else {
      var s := t + q;
      assert s[|s| - 1] == q[|q| - 1];
      assert s[..|s| - 1] == t + q[..|q| - 1];
      StripEndSpaces(t, q[..|q| - 1]);
    }
  }

  /** Stripping whitespace padding around a visible core leaves the core. */
  lemma StripPadded(p: string, m: string, q: string)
    requires forall k :: 0 <= k < |p| ==> IsSpace(p[k])
    requires forall k :: 0 <= k < |q| ==> IsSpace(q[k])
    requires IsStripped(m)
    ensures Strip(p + m + q) == m
  {
    assert p + m + q == p + (m + q);
    assert m != [] ==> (m + q)[0] == m[0];
    if m == [] {
      assert m + q == q;
      StripStartSpaces(p + q, []);
      assert p + q + [] == p + q;
      StripEndSpaces([], []);
    } else {
      StripStartSpaces(p, m + q);
      StripEndSpaces(m, q);
    }
  }

  /** The capital letters `lower()` changes here: ASCII A-Z and the Latin-1 capitals. */
  predicate IsUpper(c: char) {
    ('A' <= c <= 'Z') || ('\U{C0}' <= c <= '\U{DE}' && c != '\U{D7}')
  }

  /** Python's `c.lower()` restricted to the letters of `IsUpper`. */
  function LowerChar(c: char): (d: char)
    ensures !IsUpper(d)
    ensures IsUpper(c) ==> d as int == c as int + 32
    ensures !IsUpper(c) ==> d == c
  {
    if IsUpper(c) then (c as int + 32) as char else c
  }

  /** Python's `s.lower()`, character by character. */
  function Lower(s: string): (r: string)
    ensures |r| == |s|
    ensures forall k :: 0 <= k < |s| ==> r[k] == LowerChar(s[k])
  {
    seq(|s|, k requires 0 <= k < |s| => LowerChar(s[k]))
  }

  lemma LowerAppend(a: string, b: string)
    ensures Lower(a + b) == Lower(a) + Lower(b)
  {
  }

  /** `p` occurs in `s` starting at index `i`. */
  predicate OccursAt(s: string, p: string, i: nat) {
    i + |p| <= |s| && s[i..i + |p|] == p
  }

  /** Python's `s.find(p, from)`: the leftmost occurrence of `p` at or after `from`. */
  function IndexOf(s: string, p: string, from: nat): (r: Option<nat>)
    decreases |s| - from
    ensures r.Some? ==> from <= r.value && OccursAt(s, p, r.value)
    ensures r.Some? ==> forall j :: from <= j < r.value ==> !OccursAt(s, p, j)
    ensures r.None? ==> forall j :: from <= j ==> !OccursAt(s, p, j)
  {
    if from + |p| > |s| then None
    else if s[from..from + |p|] == p then Some(from)
    else IndexOf(s, p, from + 1)
  }

  /** Python's `p in s`. */
  predicate Contains(s: string, p: string)
    ensures Contains(s, p) <==> exists i: nat :: OccursAt(s, p, i)
  {
    IndexOf(s, p, 0).Some?
  }
}
