/** Searching and folding text the way `std::string` and the C library do. */
module Text {
  const CRLF := "\r\n"
  const BLANK := "\r\n\r\n"

  predicate At(s: string, pat: string, i: int) {
    0 <= i && i + |pat| <= |s| && s[i..i + |pat|] == pat
  }

  /** First occurrence from i on, or -1. */
  function Find(s: string, pat: string, i: nat): (r: int)
    ensures r == -1 || (i <= r && At(s, pat, r))
    ensures forall k :: i <= k && (r == -1 || k < r) ==> !At(s, pat, k)
    decreases |s| - i
  {
    if i + |pat| > |s| then -1 else if At(s, pat, i) then i else Find(s, pat, i + 1)
  }

  predicate Contains(s: string, pat: string) { Find(s, pat, 0) != -1 }

  lemma AtShift(a: string, b: string, pat: string, k: nat)
    ensures At(a + b, pat, |a| + k) <==> At(b, pat, k)
  {
    if |a| + k + |pat| <= |a + b| {
      assert (a + b)[|a| + k..|a| + k + |pat|] == b[k..k + |pat|];
    }
  }

  lemma FindShift(a: string, b: string, pat: string, i: nat)
    ensures Find(a + b, pat, |a| + i) == if Find(b, pat, i) == -1 then -1 else |a| + Find(b, pat, i)
  {
    var f, g := Find(a + b, pat, |a| + i), Find(b, pat, i);
    if g != -1 {
      AtShift(a, b, pat, g);
    }
    if f != -1 {
      AtShift(a, b, pat, f - |a|);
    }
  }

  lemma AtInPrefix(p: string, s: string, pat: string, k: int)
    requires p <= s
    ensures At(p, pat, k) <==> At(s, pat, k) && k + |pat| <= |p|
  {
    if 0 <= k && k + |pat| <= |p| {
      assert s[k..k + |pat|] == p[k..k + |pat|];
    }
  }

  /** A prefix shows the same first occurrence once it is long enough to hold it, and none before. */
  lemma FindInPrefix(p: string, s: string, pat: string)
    requires p <= s
    ensures Find(p, pat, 0) == if Find(s, pat, 0) != -1 && Find(s, pat, 0) + |pat| <= |p| then Find(s, pat, 0) else -1
  {
    hide At, Find;
    AtInPrefix(p, s, pat, Find(p, pat, 0));
    AtInPrefix(p, s, pat, Find(s, pat, 0));
  }

  lemma FoundAt(s: string, pat: string, i: nat)
    requires At(s, pat, i) && forall k :: 0 <= k < i ==> !At(s, pat, k)
    ensures Find(s, pat, 0) == i
  {
  }

  /** An occurrence starts with the pattern's first character. */
  lemma StartsThere(s: string, pat: string, k: int)
    requires At(s, pat, k) && pat != ""
    ensures s[k] == pat[0]
  {
    assert s[k] == s[k..k + |pat|][0];
  }

  /** ... and holds only its characters. */
  lemma InsideOccurrence(s: string, pat: string, k: int, i: int)
    requires At(s, pat, k) && k <= i < k + |pat|
    ensures s[i] in pat
  {
    assert s[i] == s[k..k + |pat|][i - k];
  }

  function LowerChar(c: char): char { if 'A' <= c <= 'Z' then c + 32 as char else c }

  function Lower(s: string): (r: string)
    ensures |r| == |s| && forall i :: 0 <= i < |s| ==> r[i] == LowerChar(s[i])
  {
    seq(|s|, i requires 0 <= i < |s| => LowerChar(s[i]))
  }

  lemma LowerJoin(a: string, b: string)
    ensures Lower(a + b) == Lower(a) + Lower(b)
  {
  }
}
