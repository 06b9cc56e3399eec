/** String operations the source takes from its runtimes: first-occurrence
    search, JavaScript's `String.prototype.replace` with a string pattern (first
    occurrence only), Python's `str.replace` (every non-overlapping occurrence,
    left to right) and ASCII case folding. */
module Strings {
  import opened Wrappers

  /** `p` occurs in `s` starting at index `i`. */
  predicate OccursAt(s: string, p: string, i: nat) {
    i + |p| <= |s| && s[i..i + |p|] == p
  }

  predicate Contains(s: string, p: string) {
    exists i: nat :: i <= |s| && OccursAt(s, p, i)
  }

  /** The first occurrence of `p` in `s` at or after `from`. */
  function IndexOfFrom(s: string, p: string, from: nat): (r: Option<nat>)
    requires from <= |s|
    ensures r.Some? ==> from <= r.value && OccursAt(s, p, r.value)
    ensures r.Some? ==> forall j: nat :: from <= j < r.value ==> !OccursAt(s, p, j)
    ensures r.None? ==> forall j: nat :: from <= j ==> !OccursAt(s, p, j)
    decreases |s| - from
  {
    if OccursAt(s, p, from) then Some(from)
    else if from == |s| then None
    else IndexOfFrom(s, p, from + 1)
  }

  /** `s.indexOf(p)` / `s.find(p)`, with None for "not found". */
  function IndexOf(s: string, p: string): (r: Option<nat>)
    ensures r.Some? ==> OccursAt(s, p, r.value)
    ensures r.Some? ==> forall j: nat :: j < r.value ==> !OccursAt(s, p, j)
    ensures r.None? <==> !Contains(s, p)
  {
    IndexOfFrom(s, p, 0)
  }

  /** A string that starts with `p` has its first occurrence of `p` at 0. */
  lemma IndexOfLeading(p: string, t: string)
    ensures IndexOf(p + t, p) == Some(0)
  {
  }

  /** JavaScript `s.replace(p, r)` for a string pattern `p`: only the first
      occurrence is replaced. The `$` patterns a replacement string may hold
      (`$&`, `$$`, ...) are not interpreted; the gateway prefix has none. */
  function ReplaceFirst(s: string, p: string, r: string): (t: string)
    ensures !Contains(s, p) ==> t == s
    ensures forall i: nat :: FirstAt(s, p, i) ==> t == s[..i] + r + s[i + |p|..]
  {
    match IndexOf(s, p)
    case None => s
    case Some(i) => s[..i] + r + s[i + |p|..]
  }

  /** Replacing the first occurrence of a leading `p` keeps the rest verbatim,
      even when the rest contains further occurrences of `p`. */
  lemma ReplaceFirstLeading(p: string, t: string, r: string)
    ensures ReplaceFirst(p + t, p, r) == r + t
  {
    IndexOfLeading(p, t);
  }

  /** Python's `s.replace("", r)`: `r` before every character and at the end. */
  function InsertEverywhere(s: string, r: string): (t: string)
  {
    if s == "" then r else r + [s[0]] + InsertEverywhere(s[1..], r)
  }

  /** Python `s.replace(p, r)`: every non-overlapping occurrence of `p`, found
      left to right, is replaced; the scan resumes after each replaced
      occurrence, so text produced by the replacement is never rescanned. */
  function ReplaceAll(s: string, p: string, r: string): (t: string)
    // A replacement no longer (no shorter) than the pattern never lengthens (shortens) the string.
    ensures p != "" && |r| <= |p| ==> |t| <= |s|
    ensures p != "" && |r| >= |p| ==> |t| >= |s|
    decreases |s|
  {
    if p == "" then InsertEverywhere(s, r)
    else if |s| < |p| then s
    else if s[..|p|] == p then r + ReplaceAll(s[|p|..], p, r)
    else [s[0]] + ReplaceAll(s[1..], p, r)
  }

  /** Without an occurrence, `replace` returns its input. */
  lemma {:induction false} ReplaceAllAbsent(s: string, p: string, r: string)
    requires p != ""
    requires !Contains(s, p)
    ensures ReplaceAll(s, p, r) == s
    decreases |s|
  {
    if |s| >= |p| {
      assert !OccursAt(s, p, 0);
      assert !Contains(s[1..], p) by {
        forall i: nat | i <= |s[1..]| && OccursAt(s[1..], p, i)
          ensures false
        {
          assert s[1..][i..i + |p|] == s[i + 1..i + 1 + |p|];
          assert OccursAt(s, p, i + 1);
        }
      }
      ReplaceAllAbsent(s[1..], p, r);
      assert s == [s[0]] + s[1..];
    }
  }

  /** A leading occurrence is replaced and the scan continues on the rest. */
  lemma ReplaceAllLeading(p: string, t: string, r: string)
    requires p != ""
    ensures ReplaceAll(p + t, p, r) == r + ReplaceAll(t, p, r)
  {
  }

  /** `p` occurs at `i` and nowhere before. */
  predicate FirstAt(s: string, p: string, i: nat) {
    OccursAt(s, p, i) && forall j: nat :: j < i ==> !OccursAt(s, p, j)
  }

  /** An occurrence past the start is, one character on, the first occurrence
      in the tail. */
  lemma FirstAtTail(s: string, p: string, i: nat)
    requires FirstAt(s, p, i) && i > 0
    ensures FirstAt(s[1..], p, i - 1)
  {
    var t := s[1..];
    assert t[i - 1..i - 1 + |p|] == s[i..i + |p|];
    forall j: nat | j < i - 1
      ensures !OccursAt(t, p, j)
    {
      assert !OccursAt(s, p, j + 1);
      if j + |p| <= |t| {
        assert t[j..j + |p|] == s[j + 1..j + 1 + |p|];
      }
    }
  }

  /** Python's find-replace-resume step: the first occurrence, wherever it is,
      is replaced, the text before it is kept, and the scan resumes right after
      it. With `ReplaceAllAbsent` this characterises `ReplaceAll` through
      `IndexOf`. */
  lemma ReplaceAllAtFirst(s: string, p: string, r: string, i: nat)
    requires p != ""
    requires IndexOf(s, p) == Some(i)
    ensures ReplaceAll(s, p, r) == s[..i] + r + ReplaceAll(s[i + |p|..], p, r)
  {
    ReplaceAllFirstAt(s, p, r, i);
  }

  /** The same step, with the first occurrence given by its position. */
  lemma {:induction false} ReplaceAllFirstAt(s: string, p: string, r: string, i: nat)
    requires p != ""
    requires FirstAt(s, p, i)
    ensures ReplaceAll(s, p, r) == s[..i] + r + ReplaceAll(s[i + |p|..], p, r)
    decreases |s|, 1
  {
    if i == 0 {
      ReplaceAllTake(s, p, r);
    } else {
      ReplaceAllLaterFirst(s, p, r, i);
    }
  }

  /** The inductive case: the occurrence is found one place earlier in the tail. */
  lemma {:induction false} ReplaceAllLaterFirst(s: string, p: string, r: string, i: nat)
    requires p != "" && 0 < i
    requires FirstAt(s, p, i)
    ensures ReplaceAll(s, p, r) == s[..i] + r + ReplaceAll(s[i + |p|..], p, r)
    decreases |s|, 0
  {
    var t := s[1..];
    FirstAtTail(s, p, i);
    var j := i - 1;
    ReplaceAllFirstAt(t, p, r, j);
    ReplaceAllKeepFirst(s, t, p, r, i, j, ReplaceAll(t[j + |p|..], p, r));
  }

  /** The inductive step: an occurrence later than 0 keeps the first character
      and finds the occurrence one place earlier in the tail. */
  lemma ReplaceAllKeepFirst(s: string, t: string, p: string, r: string, i: nat, j: nat, rest: string)
    requires p != "" && 0 < i && FirstAt(s, p, i) && t == s[1..] && j + 1 == i
    requires rest == ReplaceAll(t[j + |p|..], p, r)
    requires ReplaceAll(t, p, r) == t[..j] + r + rest
    ensures ReplaceAll(s, p, r) == s[..i] + r + ReplaceAll(s[i + |p|..], p, r)
  {
    assert !OccursAt(s, p, 0);
    ReplaceAllSkip(s, p, r);
    Regroup(s, i, |p|, r, rest);
  }

  /** An occurrence at 0 is replaced and the scan resumes after it. */
  lemma ReplaceAllTake(s: string, p: string, r: string)
    requires p != "" && OccursAt(s, p, 0)
    ensures ReplaceAll(s, p, r) == s[..0] + r + ReplaceAll(s[0 + |p|..], p, r)
  {
    assert s[..|p|] == p;
    assert s[..0] + r == r;
  }

  /** A first character that does not start an occurrence is kept. */
  lemma ReplaceAllSkip(s: string, p: string, r: string)
    requires p != "" && |s| >= |p| && !OccursAt(s, p, 0)
    ensures ReplaceAll(s, p, r) == [s[0]] + ReplaceAll(s[1..], p, r)
  {
  }

  /** The sequence bookkeeping of one kept first character. */
  lemma Regroup(s: string, i: nat, n: nat, r: string, rest: string)
    requires 0 < i && i + n <= |s|
    ensures [s[0]] + (s[1..][..i - 1] + r + rest) == s[..i] + r + rest
    ensures s[1..][i - 1 + n..] == s[i + n..]
  {
    assert [s[0]] + s[1..][..i - 1] == s[..i];
  }

  /** Deleting occurrences never lengthens a string, and a string that changed
      had an occurrence. */
  lemma {:induction false} ReplaceAllDeleteShrinks(s: string, p: string)
    requires p != ""
    ensures |ReplaceAll(s, p, "")| <= |s|
    ensures ReplaceAll(s, p, "") != s ==> Contains(s, p)
    decreases |s|
  {
    if |s| < |p| {
    } else if s[..|p|] == p {
      ReplaceAllDeleteShrinks(s[|p|..], p);
      assert OccursAt(s, p, 0);
    } else {
      ReplaceAllDeleteShrinks(s[1..], p);
      if ReplaceAll(s, p, "") != s {
        assert s == [s[0]] + s[1..];
        assert Contains(s[1..], p);
        var i: nat :| i <= |s[1..]| && OccursAt(s[1..], p, i);
        assert s[1..][i..i + |p|] == s[i + 1..i + 1 + |p|];
        assert OccursAt(s, p, i + 1);
      }
    }
  }

  /** ASCII lower-casing of one character. */
  function LowerChar(c: char): char {
    if 'A' <= c <= 'Z' then (c as int + 32) as char else c
  }

  /** `s.lower()` on ASCII text. */
  function Lower(s: string): (t: string)
    ensures |t| == |s|
    ensures forall i :: 0 <= i < |s| ==> t[i] == LowerChar(s[i])
  {
    seq(|s|, i requires 0 <= i < |s| => LowerChar(s[i]))
  }

  /** Two characters that are equal or differ only in ASCII letter case. */
  predicate CaseVariant(x: char, y: char) {
    || x == y
    || ('A' <= x <= 'Z' && y as int == x as int + 32)
    || ('A' <= y <= 'Z' && x as int == y as int + 32)
  }

  /** Case-insensitive equality stated character by character, independently of
      `Lower`. */
  predicate EqualIgnoringCase(a: string, b: string) {
    |a| == |b| && forall i :: 0 <= i < |a| ==> CaseVariant(a[i], b[i])
  }

  /** Comparing lower-cased strings is exactly case-insensitive equality. */
  lemma LowerEqualIff(a: string, b: string)
    ensures Lower(a) == Lower(b) <==> EqualIgnoringCase(a, b)
  {
  }
}
