/**
  The Python string operations the command interpreter relies on:
  `str.lower`, `str.capitalize`, the `in` operator on strings,
  `str.replace(p, "")` and `str.strip()`. Strings are sequences of
  characters; case mapping covers the ASCII letters only.
 */
module PyStr {

  // ---------------------------------------------------------------------------
  // Characters

  /** Python's `str.isspace()` for one character: space, tab, line feed, the
      other ASCII separators and the Unicode spaces. White space is never a
      letter, so case mapping leaves it alone. */
  function IsSpace(c: char): (b: bool)
    ensures c == ' ' || c == '\t' || c == '\n' || c == '\r' ==> b
    ensures b ==> !IsUpper(c) && !IsLower(c)
  {
    c == ' ' || '\t' <= c <= '\r' || '\U{1C}' <= c <= '\U{1F}'
    || c == '\U{85}' || c == '\U{A0}' || c == '\U{1680}'
    || '\U{2000}' <= c <= '\U{200A}' || c == '\U{2028}' || c == '\U{2029}'
    || c == '\U{202F}' || c == '\U{205F}' || c == '\U{3000}'
  }

  predicate IsUpper(c: char) { 'A' <= c <= 'Z' }

  predicate IsLower(c: char) { 'a' <= c <= 'z' }

  function LowerChar(c: char): char {
    if IsUpper(c) then (c as int + 32) as char else c
  }

  function UpperChar(c: char): char {
    if IsLower(c) then (c as int - 32) as char else c
  }

  // ---------------------------------------------------------------------------
  // Case mapping

  /** Python's `s.lower()`: every upper-case letter replaced by its lower-case form. */
  function Lower(s: string): (r: string)
    ensures |r| == |s|
    ensures forall i :: 0 <= i < |r| ==> !IsUpper(r[i])
    ensures forall i :: 0 <= i < |s| && !IsUpper(s[i]) ==> r[i] == s[i]
    ensures forall i :: 0 <= i < |s| && IsUpper(s[i]) ==> r[i] as int == s[i] as int + 32
  {
    seq(|s|, i requires 0 <= i < |s| => LowerChar(s[i]))
  }

  /** Lower-casing twice is lower-casing once: `open_app` and `close_app` lower-case
      a name that `process_command` has already lower-cased. */
  lemma LowerIdempotent(s: string)
    ensures Lower(Lower(s)) == Lower(s)
  {
    assert forall i :: 0 <= i < |s| ==> Lower(Lower(s))[i] == Lower(s)[i];
  }

  /** Python's `s.capitalize()`: a lower-case first letter becomes its upper-case
      form, any other first character stays; every later upper-case letter
      becomes its lower-case form and every other later character stays. */
  function Capitalize(s: string): (r: string)
    ensures |r| == |s|
    ensures 0 < |s| && IsLower(s[0]) ==> IsUpper(r[0]) && r[0] as int == s[0] as int - 32
    ensures 0 < |s| && !IsLower(s[0]) ==> r[0] == s[0]
    ensures forall i :: 0 < i < |s| ==> !IsUpper(r[i])
    ensures forall i :: 0 < i < |s| && IsUpper(s[i]) ==> r[i] as int == s[i] as int + 32
    ensures forall i :: 0 < i < |s| && !IsUpper(s[i]) ==> r[i] == s[i]
  {
    if s == [] then [] else [UpperChar(s[0])] + Lower(s[1..])
  }

  /** A word of lower-case letters, capitalized, starts with an upper-case letter
      and lower-cases back to the word. */
  lemma CapitalizeWord(s: string)
    requires s != [] && forall i :: 0 <= i < |s| ==> IsLower(s[i])
    ensures IsUpper(Capitalize(s)[0]) && Capitalize(s)[1..] == s[1..]
    ensures Lower(Capitalize(s)) == s
  {
    var r := Capitalize(s);
    assert r[1..] == s[1..];
    assert forall i :: 0 <= i < |s| ==> Lower(r)[i] == s[i];
  }

  // ---------------------------------------------------------------------------
  // Substring search

  /** Pattern `p` occurs in `s` starting at index `i`. */
  predicate OccursAt(s: string, p: string, i: int) {
    0 <= i && i + |p| <= |s| && s[i..i + |p|] == p
  }

  /** Python's `p in s`, scanning `s` from the left. */
  predicate Contains(s: string, p: string)
    decreases |s|
  {
    p <= s || (s != [] && Contains(s[1..], p))
  }

  /** The scan finds a pattern exactly when it occurs at some index. */
  lemma {:induction false} ContainsIffOccurs(s: string, p: string)
    ensures Contains(s, p) <==> exists i :: OccursAt(s, p, i)
    decreases |s|
  {
    if p <= s {
      assert OccursAt(s, p, 0);
    } else if s == [] {
      assert forall i :: !OccursAt(s, p, i);
    } else {
      ContainsIffOccurs(s[1..], p);
      forall i | OccursAt(s, p, i)
        ensures OccursAt(s[1..], p, i - 1)
      {
        assert i != 0;
        assert s[1..][i - 1..i - 1 + |p|] == s[i..i + |p|];
      }
      forall i | OccursAt(s[1..], p, i)
        ensures OccursAt(s, p, i + 1)
      {
        assert s[i + 1..i + 1 + |p|] == s[1..][i..i + |p|];
      }
    }
  }

  /** An absent pattern occurs at no index. */
  lemma AbsentNowhere(s: string, p: string, i: int)
    requires !Contains(s, p)
    ensures !OccursAt(s, p, i)
  {
    ContainsIffOccurs(s, p);
  }

  /** A pattern holding a character that `s` lacks is not in `s`. */
  lemma {:induction false} MissingCharNotContained(s: string, p: string, c: char)
    requires c in p && c !in s
    ensures !Contains(s, p)
    decreases |s|
  {
    if s != [] {
      MissingCharNotContained(s[1..], p, c);
    }
  }

  /** A pattern is absent when it starts at none of the first `i` positions and
      is absent from the rest. */
  lemma {:induction false} AbsentPastPrefix(s: string, p: string, i: nat)
    requires i <= |s| && !Contains(s[i..], p)
    requires forall j :: 0 <= j < i ==> !(p <= s[j..])
    ensures !Contains(s, p)
    decreases i
  {
    if i > 0 {
      assert s[1..][i - 1..] == s[i..];
      forall j | 0 <= j < i - 1
        ensures !(p <= s[1..][j..])
      {
        assert s[1..][j..] == s[j + 1..];
      }
      AbsentPastPrefix(s[1..], p, i - 1);
      assert s[0..] == s;
    }
  }

  /** Leading white space cannot start a pattern that begins with a non-space. */
  lemma {:induction false} SpacesThenAbsent(w: string, s: string, p: string)
    requires AllSpace(w) && p != [] && !IsSpace(p[0]) && !Contains(s, p)
    ensures !Contains(w + s, p)
    decreases |w|
  {
    if w != [] {
      assert (w + s)[0] == w[0];
      assert (w + s)[1..] == w[1..] + s;
      SpacesThenAbsent(w[1..], s, p);
    } else {
      assert w + s == s;
    }
  }

  /** An occurrence inside the left part of a concatenation is one in that part. */
  lemma OccursInLeft(a: string, b: string, p: string, i: nat)
    requires i + |p| <= |a|
    ensures OccursAt(a + b, p, i) == OccursAt(a, p, i)
  {
    assert (a + b)[i..i + |p|] == a[i..i + |p|];
  }

  /** An occurrence inside the right part of a concatenation is one in that part. */
  lemma OccursInRight(a: string, b: string, p: string, i: nat)
    requires |a| <= i
    ensures OccursAt(a + b, p, i) == OccursAt(b, p, i - |a|)
  {
    if i + |p| <= |a + b| {
      assert (a + b)[i..i + |p|] == b[i - |a|..i - |a| + |p|];
    }
  }

  /** A window that covers a white-space character holds no pattern free of
      white space. */
  lemma NotAcrossSpace(s: string, p: string, i: nat, q: nat)
    requires i <= q < i + |p| && q < |s| && IsSpace(s[q])
    requires forall j :: 0 <= j < |p| ==> !IsSpace(p[j])
    ensures !OccursAt(s, p, i)
  {
    if i + |p| <= |s| {
      var window := s[i..i + |p|];
      assert window[q - i] == s[q];
      assert !IsSpace(p[q - i]);
      assert window != p;
    }
  }

  /** A pattern without white space that occurs in neither part cannot straddle
      a non-empty run of white space between them. */
  lemma SeparatedAbsent(a: string, w: string, b: string, p: string)
    requires !Contains(a, p) && !Contains(b, p)
    requires AllSpace(w) && w != []
    requires forall j :: 0 <= j < |p| ==> !IsSpace(p[j])
    ensures !Contains(a + w + b, p)
  {
    var s := a + w + b;
    assert s == a + (w + b);
    forall i: nat
      ensures !OccursAt(s, p, i)
    {
      if i + |p| <= |a| {
        OccursInLeft(a, w + b, p, i);
        AbsentNowhere(a, p, i);
      } else if |a| + |w| <= i {
        OccursInRight(a + w, b, p, i);
        AbsentNowhere(b, p, i - |a| - |w|);
      } else {
        var q := if i < |a| then |a| else i;
        assert s[q] == w[q - |a|];
        NotAcrossSpace(s, p, i, q);
      }
    }
    ContainsIffOccurs(s, p);
  }

  /** Containing `p + q` implies containing `p`. */
  lemma {:induction false} ContainsPrefixOfPattern(s: string, p: string, q: string)
    requires Contains(s, p + q)
    ensures Contains(s, p)
    decreases |s|
  {
    if p + q <= s {
      assert p == (p + q)[..|p|];
    } else {
      ContainsPrefixOfPattern(s[1..], p, q);
    }
  }

  // ---------------------------------------------------------------------------
  // Removal: str.replace(p, "")

  /** Python's `s.replace(p, "")`: every non-overlapping occurrence of `p` is
      deleted, the occurrences being chosen from left to right. An empty pattern
      leaves `s` as it is. */
  function Remove(s: string, p: string): (r: string)
    ensures |r| <= |s|
    decreases |s|
  {
    if p == [] || s == [] then s
    else if p <= s then Remove(s[|p|..], p)
    else [s[0]] + Remove(s[1..], p)
  }

  /** Removing a pattern that does not occur changes nothing. */
  lemma {:induction false} RemoveAbsent(s: string, p: string)
    requires !Contains(s, p)
    ensures Remove(s, p) == s
    decreases |s|
  {
    if p != [] && s != [] {
      RemoveAbsent(s[1..], p);
      assert [s[0]] + s[1..] == s;
    }
  }

  /** Removal keeps everything before the leftmost occurrence, drops that
      occurrence and carries on after it. */
  lemma {:induction false} RemoveAtLeftmost(s: string, p: string, k: nat)
    requires p != [] && OccursAt(s, p, k)
    requires forall j :: 0 <= j < k ==> !OccursAt(s, p, j)
    ensures Remove(s, p) == s[..k] + Remove(s[k + |p|..], p)
    decreases k
  {
    if k == 0 {
      assert s[..k] == [] && s[..|p|] == p;
      assert Remove(s, p) == Remove(s[|p|..], p);
    } else {
      LeftmostShifts(s, p, k);
      RemoveAtLeftmost(s[1..], p, k - 1);
      RemoveKeepsHead(s, p, k);
    }
  }

  /** Where the pattern does not start the string, its first character is kept
      in front of what removal leaves of the rest. */
  lemma RemoveKeepsHead(s: string, p: string, k: nat)
    requires 0 < k && k + |p| <= |s| && p != [] && !(p <= s)
    requires Remove(s[1..], p) == s[1..][..k - 1] + Remove(s[1..][k - 1 + |p|..], p)
    ensures Remove(s, p) == s[..k] + Remove(s[k + |p|..], p)
  {
    var t, u, v := s[1..], s[1..][..k - 1], s[k + |p|..];
    ConsSlices(s, k, |p|);
    assert t[k - 1 + |p|..] == v;
    var rest := Remove(v, p);
    RemoveStep(s, p);
    assert Remove(s, p) == [s[0]] + (u + rest);
    Regroup([s[0]], u, rest);
  }

  /** Where the pattern does not start the string, removal keeps its first
      character. */
  lemma RemoveStep(s: string, p: string)
    requires s != [] && p != [] && !(p <= s)
    ensures Remove(s, p) == [s[0]] + Remove(s[1..], p)
  {
  }

  lemma ConsSlices(s: string, k: nat, m: nat)
    requires 0 < k && k + m <= |s|
    ensures [s[0]] + s[1..][..k - 1] == s[..k]
    ensures s[1..][k - 1 + m..] == s[k + m..]
  {
  }

  lemma Regroup(a: string, b: string, c: string)
    ensures a + (b + c) == (a + b) + c
  {
  }

  /** Dropping the first character moves the leftmost occurrence one place left. */
  lemma LeftmostShifts(s: string, p: string, k: nat)
    requires 0 < k && OccursAt(s, p, k)
    requires forall j :: 0 <= j < k ==> !OccursAt(s, p, j)
    ensures !(p <= s) && OccursAt(s[1..], p, k - 1)
    ensures forall j :: 0 <= j < k - 1 ==> !OccursAt(s[1..], p, j)
  {
    var t := s[1..];
    assert !OccursAt(s, p, 0);
    forall j | 0 <= j < k - 1
      ensures !OccursAt(t, p, j)
    {
      assert !OccursAt(s, p, j + 1);
      assert j + |p| <= |t| ==> t[j..j + |p|] == s[j + 1..j + 1 + |p|];
    }
    assert t[k - 1..k - 1 + |p|] == s[k..k + |p|];
  }

  /** Removing a pattern that occurs shortens the string by at least its length. */
  lemma {:induction false} RemoveShrinks(s: string, p: string)
    requires p != [] && Contains(s, p)
    ensures |Remove(s, p)| + |p| <= |s|
    decreases |s|
  {
    if !(p <= s) {
      RemoveShrinks(s[1..], p);
    }
  }

  // ---------------------------------------------------------------------------
  // Stripping: str.strip()

  predicate AllSpace(s: string) {
    forall i :: 0 <= i < |s| ==> IsSpace(s[i])
  }

  /** Neither starts nor ends with white space. */
  predicate Trimmed(s: string) {
    s == [] || (!IsSpace(s[0]) && !IsSpace(s[|s| - 1]))
  }

  /** Python's `s.lstrip()`. */
  function TrimLeft(s: string): (r: string)
    ensures |r| <= |s| && r == s[|s| - |r|..]
    ensures r == [] || !IsSpace(r[0])
    ensures AllSpace(s[..|s| - |r|])
    decreases |s|
  {
    if s != [] && IsSpace(s[0]) then
      var r := TrimLeft(s[1..]);
      assert s[..|s| - |r|] == [s[0]] + s[1..][..|s| - 1 - |r|];
      r
    else s
  }

  /** Python's `s.rstrip()`. */
  function TrimRight(s: string): (r: string)
    ensures |r| <= |s| && r == s[..|r|]
    ensures r == [] || !IsSpace(r[|r| - 1])
    ensures AllSpace(s[|r|..])
    decreases |s|
  {
    if s != [] && IsSpace(s[|s| - 1]) then
      var r := TrimRight(s[..|s| - 1]);
      assert s[|r|..] == s[..|s| - 1][|r|..] + [s[|s| - 1]];
      r
    else s
  }

  /** Python's `s.strip()`: white space removed from both ends. The result is
      empty (falsy) exactly when `s` is all white space. */
  function Strip(s: string): (r: string)
    ensures |r| <= |s| && Trimmed(r)
    ensures r == [] <==> AllSpace(s)
  {
    var t := TrimLeft(s);
    var r := TrimRight(t);
    assert r != [] ==> r[0] == t[0];
    assert AllSpace(s) ==> t == [];
    assert r == [] ==> AllSpace(t[0..]) && t[0..] == t;
    assert r == [] ==> s == s[..|s| - |t|] + t;
    r
  }

  lemma {:induction false} TrimLeftSpaces(w: string, u: string)
    requires AllSpace(w) && (u == [] || !IsSpace(u[0]))
    ensures TrimLeft(w + u) == u
    decreases |w|
  {
    if w == [] {
      assert w + u == u;
    } else {
      assert (w + u)[1..] == w[1..] + u;
      TrimLeftSpaces(w[1..], u);
    }
  }

  lemma {:induction false} TrimRightSpaces(u: string, w: string)
    requires AllSpace(w) && (u == [] || !IsSpace(u[|u| - 1]))
    ensures TrimRight(u + w) == u
    decreases |w|
  {
    if w == [] {
      assert u + w == u;
    } else {
      var v := w[..|w| - 1];
      assert (u + w)[..|u + w| - 1] == u + v;
      TrimRightSpaces(u, v);
    }
  }

  /** Stripping recovers the trimmed core of any string made of white space,
      that core, and white space again. */
  lemma StripUnique(a: string, t: string, b: string)
    requires AllSpace(a) && Trimmed(t) && AllSpace(b)
    ensures Strip(a + t + b) == t
  {
    if t == [] {
      assert AllSpace(a + t + b);
    } else {
      assert a + t + b == a + (t + b);
      TrimLeftSpaces(a, t + b);
      TrimRightSpaces(t, b);
    }
  }
}
