/**
 * Python's substring search, `str.replace`, `str.count`, `str.split` and
 * `str.join` on strings, for a non-empty pattern: occurrences are taken
 * left to right and never overlap.
 */
module Text {
  import opened Common

  /** `s[k..]` starts with `pat`. */
  predicate OccursAt(s: string, pat: string, k: int) {
    0 <= k && k + |pat| <= |s| && s[k..k + |pat|] == pat
  }

  /** The leftmost position at which `pat` occurs in `s` (Python's `str.find`). */
  function IndexOf(s: string, pat: string): (r: Option<nat>)
    ensures r.Some? ==> OccursAt(s, pat, r.value)
    decreases |s|
  {
    if |s| < |pat| then None
    else if s[..|pat|] == pat then Some(0)
    else
      match IndexOf(s[1..], pat)
      case None => None
      case Some(i) =>
        assert s[1..][i..i + |pat|] == s[i + 1..i + 1 + |pat|];
        Some(i + 1)
  }

  /** `IndexOf` finds the leftmost occurrence, and finds nothing only where there is none. */
  lemma {:induction false} IndexOfIsLeftmost(s: string, pat: string)
    ensures IndexOf(s, pat).Some? ==> forall k :: 0 <= k < IndexOf(s, pat).value ==> !OccursAt(s, pat, k)
    ensures IndexOf(s, pat).None? ==> forall k :: 0 <= k ==> !OccursAt(s, pat, k)
    decreases |s|
  {
    if |s| >= |pat| && s[..|pat|] != pat {
      IndexOfIsLeftmost(s[1..], pat);
      ShiftOccurrence(s, pat);
    }
  }

  /** An occurrence in the tail of a string is an occurrence one place later in the string. */
  lemma ShiftOccurrence(s: string, pat: string)
    requires |s| > 0
    ensures forall k :: 1 <= k ==> (OccursAt(s, pat, k) <==> OccursAt(s[1..], pat, k - 1))
  {
    forall k | 1 <= k
      ensures OccursAt(s, pat, k) <==> OccursAt(s[1..], pat, k - 1)
    {
      if k + |pat| <= |s| {
        assert s[1..][k - 1..k - 1 + |pat|] == s[k..k + |pat|];
      }
    }
  }

  /** `pat in s` in Python, and MongoDB's `$regex` match for a pattern free of metacharacters. */
  predicate Contains(s: string, pat: string) {
    IndexOf(s, pat).Some?
  }

  /**
   * Python's `s.replace(pat, rep)`: find the leftmost occurrence, replace it,
   * and go on searching after it, so occurrences never overlap.
   */
  function ReplaceAll(s: string, pat: string, rep: string): string
    requires pat != []
    decreases |s|
  {
    match IndexOf(s, pat)
    case None => s
    case Some(i) => s[..i] + rep + ReplaceAll(s[i + |pat|..], pat, rep)
  }

  /** Python's `s.count(pat)`: the occurrences `ReplaceAll` replaces. */
  function Count(s: string, pat: string): (n: nat)
    requires pat != []
    ensures n == 0 <==> !Contains(s, pat)
    decreases |s|
  {
    match IndexOf(s, pat)
    case None => 0
    case Some(i) => 1 + Count(s[i + |pat|..], pat)
  }

  /** Python's `s.split(pat)`: the pieces between successive leftmost occurrences. */
  function Split(s: string, pat: string): (parts: seq<string>)
    requires pat != []
    ensures |parts| >= 1
    decreases |s|
  {
    match IndexOf(s, pat)
    case None => [s]
    case Some(i) => [s[..i]] + Split(s[i + |pat|..], pat)
  }

  /**
   * Every occurrence is cut out: no piece of a split contains the pattern, so
   * `ReplaceAll`, which is the pieces joined with the replacement, leaves no
   * original occurrence in place.
   */
  lemma {:induction false} SplitPiecesFree(s: string, pat: string)
    requires pat != []
    ensures forall j :: 0 <= j < |Split(s, pat)| ==> !Contains(Split(s, pat)[j], pat)
    decreases |s|
  {
    match IndexOf(s, pat)
    case None =>
    case Some(i) =>
      var tail := s[i + |pat|..];
      FrontFree(s, pat, i);
      SplitPiecesFree(tail, pat);
      FreeCons(s[..i], Split(tail, pat), pat);
      assert Split(s, pat) == [s[..i]] + Split(tail, pat);
  }

  /** What comes before the leftmost occurrence does not contain the pattern. */
  lemma FrontFree(s: string, pat: string, i: nat)
    requires pat != [] && IndexOf(s, pat) == Some(i)
    ensures !Contains(s[..i], pat)
  {
    IndexOfIsLeftmost(s, pat);
    var front := s[..i];
    forall k | 0 <= k
      ensures !OccursAt(front, pat, k)
    {
      if k + |pat| <= i {
        assert front[k..k + |pat|] == s[k..k + |pat|];
        assert !OccursAt(s, pat, k);
      }
    }
    ContainsIffOccurs(front, pat);
  }

  /** A piece free of the pattern in front of pieces free of it. */
  lemma FreeCons(front: string, rest: seq<string>, pat: string)
    requires pat != [] && !Contains(front, pat)
    requires forall j :: 0 <= j < |rest| ==> !Contains(rest[j], pat)
    ensures forall j :: 0 <= j < |[front] + rest| ==> !Contains(([front] + rest)[j], pat)
  {
    forall j | 0 <= j < |[front] + rest|
      ensures !Contains(([front] + rest)[j], pat)
    {
      if j > 0 {
        assert ([front] + rest)[j] == rest[j - 1];
      }
    }
  }

  /** Python's `sep.join(parts)`. */
  function Join(parts: seq<string>, sep: string): string
  {
    if |parts| == 0 then []
    else if |parts| == 1 then parts[0]
    else parts[0] + sep + Join(parts[1..], sep)
  }

  /** `Contains` agrees with the plain definition of a substring. */
  lemma ContainsIffOccurs(s: string, pat: string)
    ensures Contains(s, pat) <==> exists k :: OccursAt(s, pat, k)
  {
    IndexOfIsLeftmost(s, pat);
    if Contains(s, pat) {
      assert OccursAt(s, pat, IndexOf(s, pat).value);
    }
  }

  /** A string in which the pattern does not occur is left as it is. */
  lemma ReplaceAbsent(s: string, pat: string, rep: string)
    requires pat != [] && !Contains(s, pat)
    ensures ReplaceAll(s, pat, rep) == s
  {
  }

  /** Concatenation is associative; stated once so that proofs can regroup pieces cheaply. */
  lemma Associate<T>(a: seq<T>, b: seq<T>, c: seq<T>)
    ensures a + (b + c) == (a + b) + c
  {
  }

  /** A string is what comes before an occurrence, the occurrence, and what comes after it. */
  lemma Reassemble(s: string, pat: string, i: nat)
    requires OccursAt(s, pat, i)
    ensures s[..i] + pat + s[i + |pat|..] == s
  {
    assert s[i..i + |pat|] == pat;
    assert s == s[..i] + s[i..i + |pat|] + s[i + |pat|..];
  }

  /** Joining a first piece onto a non-empty list of pieces. */
  lemma JoinCons(x: string, parts: seq<string>, sep: string)
    requires |parts| >= 1
    ensures Join([x] + parts, sep) == x + sep + Join(parts, sep)
  {
    assert ([x] + parts)[1..] == parts;
  }

  /** Python's identity `s.replace(p, r) == r.join(s.split(p))`. */
  lemma {:induction false} ReplaceIsJoinOfSplit(s: string, pat: string, rep: string)
    requires pat != []
    ensures ReplaceAll(s, pat, rep) == Join(Split(s, pat), rep)
    decreases |s|
  {
    match IndexOf(s, pat)
    case None =>
    case Some(i) =>
      var tail := s[i + |pat|..];
      JoinCons(s[..i], Split(tail, pat), rep);
      ReplaceIsJoinOfSplit(tail, pat, rep);
  }

  /** Splitting on a pattern and joining with it again gives back the string. */
  lemma {:induction false} JoinOfSplit(s: string, pat: string)
    requires pat != []
    ensures Join(Split(s, pat), pat) == s
    decreases |s|
  {
    match IndexOf(s, pat)
    case None =>
    case Some(i) =>
      var tail := s[i + |pat|..];
      JoinCons(s[..i], Split(tail, pat), pat);
      JoinOfSplit(tail, pat);
      Reassemble(s, pat, i);
  }

  /** Replacing a pattern by itself changes nothing. */
  lemma ReplaceBySelf(s: string, pat: string)
    requires pat != []
    ensures ReplaceAll(s, pat, pat) == s
  {
    ReplaceIsJoinOfSplit(s, pat, pat);
    JoinOfSplit(s, pat);
  }

  /** Each replaced occurrence changes the length by `|rep| - |pat|`, nothing else does. */
  lemma {:induction false} ReplaceLength(s: string, pat: string, rep: string)
    requires pat != []
    ensures |ReplaceAll(s, pat, rep)| == |s| + Count(s, pat) * (|rep| - |pat|)
    decreases |s|
  {
    if IndexOf(s, pat).Some? {
      var i := IndexOf(s, pat).value;
      ReplaceLength(s[i + |pat|..], pat, rep);
      ReplaceLengthStep(s, pat, rep, i);
    }
  }

  /** One step of `ReplaceLength`: from the rest after the leftmost occurrence to the whole string. */
  lemma ReplaceLengthStep(s: string, pat: string, rep: string, i: nat)
    requires pat != [] && IndexOf(s, pat) == Some(i)
    requires var tail := s[i + |pat|..];
      |ReplaceAll(tail, pat, rep)| == |tail| + Count(tail, pat) * (|rep| - |pat|)
    ensures |ReplaceAll(s, pat, rep)| == |s| + Count(s, pat) * (|rep| - |pat|)
  {
    var tail := s[i + |pat|..];
    CountAt(s, pat, i);
    ReplaceAt(s, pat, rep, i);
    assert |s| == i + |pat| + |tail|;
    LengthStep(i, |pat|, |rep|, |tail|, Count(tail, pat));
  }

  /** `Count` unfolded at the leftmost occurrence. */
  lemma CountAt(s: string, pat: string, i: nat)
    requires pat != [] && IndexOf(s, pat) == Some(i)
    ensures Count(s, pat) == 1 + Count(s[i + |pat|..], pat)
  {
  }

  /** `ReplaceAll` unfolded at the leftmost occurrence, in length. */
  lemma ReplaceAt(s: string, pat: string, rep: string, i: nat)
    requires pat != [] && IndexOf(s, pat) == Some(i)
    ensures |ReplaceAll(s, pat, rep)| == i + |rep| + |ReplaceAll(s[i + |pat|..], pat, rep)|
  {
  }

  /** The arithmetic of one replacement step. */
  lemma LengthStep(i: int, p: int, r: int, t: int, c: int)
    ensures i + r + (t + c * (r - p)) == (i + p + t) + (1 + c) * (r - p)
  {
  }
}
