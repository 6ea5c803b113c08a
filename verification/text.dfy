/**
  The string operations the pipeline applies to model replies and document text:
  Python's `str.strip()` (with `str.isspace` as the notion of white space),
  `str.lower()` restricted to ASCII letters, and the substring test `sub in s`.
 */
module Text {

  /** Python 3's `str.isspace` on one character. */
  predicate IsSpace(c: char) {
    IsSpaceCode(c as int)
  }

  /** The code points Python 3 classifies as white space. */
  predicate IsSpaceCode(n: int) {
    || n == 0x20
    || (0x09 <= n <= 0x0D)
    || (0x1C <= n <= 0x1F)
    || n == 0x85
    || n == 0xA0
    || n == 0x1680
    || (0x2000 <= n <= 0x200A)
    || n == 0x2028
    || n == 0x2029
    || n == 0x202F
    || n == 0x205F
    || n == 0x3000
  }

  predicate AllSpace(s: string) {
    forall i :: 0 <= i < |s| ==> IsSpace(s[i])
  }

  /** `s.lstrip()`: drops the leading white space and nothing else. */
  function TrimStart(s: string): (r: string)
    ensures |r| <= |s| && r == s[|s| - |r|..]
    ensures AllSpace(s[..|s| - |r|])
    ensures r == [] || !IsSpace(r[0])
  {
    if s == [] || !IsSpace(s[0]) then s
    else
      var r := TrimStart(s[1..]);
      assert forall i :: 1 <= i < |s| - |r| ==> s[i] == s[1..][i - 1];
      r
  }

  /** `s.rstrip()`: drops the trailing white space and nothing else. */
  function TrimEnd(s: string): (r: string)
    ensures |r| <= |s| && r == s[..|r|]
    ensures AllSpace(s[|r|..])
    ensures r == [] || !IsSpace(r[|r| - 1])
  {
    if s == [] || !IsSpace(s[|s| - 1]) then s
    else
      var r := TrimEnd(s[..|s| - 1]);
      assert forall i :: |r| <= i < |s| - 1 ==> s[i] == s[..|s| - 1][i];
      r
  }

  /** How many characters `s.strip()` cuts off the front of `s`. */
  function StripOffset(s: string): (a: nat)
    ensures a <= |s|
  {
    |s| - |TrimStart(s)|
  }

  /**
    `s.strip()`: the result is a contiguous piece of `s`, everything cut off on either
    side is white space, and the result neither starts nor ends with white space.
   */
  function Strip(s: string): (r: string)
    ensures StripOffset(s) + |r| <= |s|
    ensures r == s[StripOffset(s)..StripOffset(s) + |r|]
    ensures AllSpace(s[..StripOffset(s)]) && AllSpace(s[StripOffset(s) + |r|..])
    ensures r == [] || (!IsSpace(r[0]) && !IsSpace(r[|r| - 1]))
  {
    var t := TrimStart(s);
    var a := |s| - |t|;
    assert a == StripOffset(s) && t == s[a..];
    var r := TrimEnd(t);
    assert r == s[a..a + |r|];
    assert s[a + |r|..] == t[|r|..];
    r
  }

  /** The characters `strip` cuts off, position by position. */
  lemma StripMargins(s: string)
    ensures forall i :: 0 <= i < StripOffset(s) ==> IsSpace(s[i])
    ensures forall i :: StripOffset(s) + |Strip(s)| <= i < |s| ==> IsSpace(s[i])
  {
    var a, r := StripOffset(s), Strip(s);
    assert forall i :: 0 <= i < a ==> s[i] == s[..a][i];
    assert forall i :: a + |r| <= i < |s| ==> s[i] == s[a + |r|..][i - (a + |r|)];
  }

  /** Stripping twice is stripping once: a stripped string has no white space to lose. */
  lemma {:induction false} StripIdempotent(s: string)
    ensures Strip(Strip(s)) == Strip(s)
  {
    var r := Strip(s);
    assert TrimStart(r) == r;
    assert TrimEnd(r) == r;
  }

  /** Python's `c.lower()` on ASCII letters; every other character is kept. */
  function LowerChar(c: char): char {
    if 'A' <= c <= 'Z' then (c as int + 32) as char else c
  }

  /** Python's `s.lower()` on ASCII letters, character by character. */
  function Lower(s: string): (r: string)
    ensures |r| == |s|
  {
    seq(|s|, i requires 0 <= i < |s| => LowerChar(s[i]))
  }

  /**
    What `Lower` does: no upper-case ASCII letter is left, and each character is
    kept or is the lower case of the upper-case letter it replaces.
   */
  lemma LowerLetters(s: string)
    ensures forall i :: 0 <= i < |s| ==> !('A' <= Lower(s)[i] <= 'Z')
    ensures forall i :: 0 <= i < |s| ==>
      Lower(s)[i] == s[i] || ('A' <= s[i] <= 'Z' && Lower(s)[i] as int == s[i] as int + 32)
  {
  }

  /** Lower-casing a lower-cased string changes nothing. */
  lemma LowerIdempotent(s: string)
    ensures Lower(Lower(s)) == Lower(s)
  {
  }

  /** Lower-casing commutes with cutting a piece out of a string. */
  lemma LowerSlice(s: string, a: int, b: int)
    requires 0 <= a <= b <= |s|
    ensures Lower(s[a..b]) == Lower(s)[a..b]
  {
    var x, y := Lower(s[a..b]), Lower(s)[a..b];
    assert forall i :: 0 <= i < |x| ==> x[i] == y[i];
  }

  /** Python's `sub in s` on strings. */
  predicate Contains(s: string, sub: string) {
    exists i | 0 <= i <= |s| - |sub| :: OccursAt(s, sub, i)
  }

  /** `sub in s` is the same as some piece of `s` being equal to `sub`. */
  lemma {:induction false} ContainsAsSlice(s: string, sub: string)
    ensures Contains(s, sub) <==> exists i :: 0 <= i <= |s| - |sub| && s[i..][..|sub|] == sub
  {
    if Contains(s, sub) {
      var p := FindOccurrence(s, sub);
      assert s[p..][..|sub|] == sub;
    }
    if exists i :: 0 <= i <= |s| - |sub| && s[i..][..|sub|] == sub {
      var i :| 0 <= i <= |s| - |sub| && s[i..][..|sub|] == sub;
      forall k | 0 <= k < |sub|
        ensures s[i + k] == sub[k]
      {
        assert s[i..][..|sub|][k] == s[i + k];
      }
      assert OccursAt(s, sub, i);
    }
  }

  /** `sub` occurs in `s` starting at position `i`. */
  predicate OccursAt(s: string, sub: string, i: int) {
    0 <= i <= |s| - |sub| && forall k :: 0 <= k < |sub| ==> s[i + k] == sub[k]
  }

  /** Some position at which `w` occurs in `s`. */
  lemma FindOccurrence(s: string, w: string) returns (p: int)
    requires Contains(s, w)
    ensures OccursAt(s, w, p)
  {
    p :| 0 <= p <= |s| - |w| && OccursAt(s, w, p);
  }

  /** An occurrence that lies within `t[a..b]` is an occurrence in that piece. */
  lemma OccurrenceInSlice(t: string, a: int, b: int, w: string, p: int)
    requires 0 <= a <= p && p + |w| <= b <= |t|
    requires OccursAt(t, w, p)
    ensures Contains(t[a..b], w)
  {
    var piece := t[a..b];
    forall k | 0 <= k < |w|
      ensures piece[p - a + k] == w[k]
    {
      assert piece[p - a + k] == t[p + k];
    }
    assert OccursAt(piece, w, p - a);
  }

  /** A piece of `t` contains `w` only if `t` does. */
  lemma SliceInWhole(t: string, a: int, b: int, w: string)
    requires 0 <= a <= b <= |t|
    requires Contains(t[a..b], w)
    ensures Contains(t, w)
  {
    var piece := t[a..b];
    var i := FindOccurrence(piece, w);
    forall k | 0 <= k < |w|
      ensures t[a + i + k] == w[k]
    {
      assert t[a + i + k] == piece[i + k];
    }
    assert OccursAt(t, w, a + i);
  }

  /** Lower-casing never turns a character into white space or out of it. */
  lemma LowerKeepsSpace(c: char)
    ensures IsSpace(LowerChar(c)) <==> IsSpace(c)
  {
  }

  /**
    `r` is the piece of `s` starting at `a`, and everything of `s` outside it is
    white space: what `strip` keeps, as the margins lemma states for `Strip`.
   */
  predicate Kept(s: string, a: nat, r: string) {
    && a + |r| <= |s|
    && r == s[a..a + |r|]
    && (forall i :: 0 <= i < a ==> IsSpace(s[i]))
    && (forall i :: a + |r| <= i < |s| ==> IsSpace(s[i]))
  }

  /** `strip` keeps its result in exactly this sense. */
  lemma StripKept(s: string)
    ensures Kept(s, StripOffset(s), Strip(s))
  {
    StripMargins(s);
  }

  /**
    An occurrence of a word that neither starts nor ends with white space cannot
    reach into white-space margins: it lies inside the kept piece.
   */
  lemma OccurrenceInsideKept(s: string, a: nat, r: string, w: string, p: int)
    requires Kept(s, a, r)
    requires w != [] && !IsSpace(w[0]) && !IsSpace(w[|w| - 1])
    requires OccursAt(Lower(s), w, p)
    ensures a <= p && p + |w| <= a + |r|
  {
    var q := p + |w| - 1;
    assert Lower(s)[p] == w[0] && Lower(s)[q] == w[|w| - 1];
    LowerKeepsSpace(s[p]);
    LowerKeepsSpace(s[q]);
  }

  /** An occurrence in the lower-cased kept piece is one in the lower-cased string. */
  lemma KeptToWhole(s: string, a: nat, r: string, w: string)
    requires a + |r| <= |s| && r == s[a..a + |r|]
    requires Contains(Lower(r), w)
    ensures Contains(Lower(s), w)
  {
    LowerSlice(s, a, a + |r|);
    SliceInWhole(Lower(s), a, a + |r|, w);
  }

  /** An occurrence of a word with no white space at its ends survives cutting the margins. */
  lemma WholeToKept(s: string, a: nat, r: string, w: string)
    requires Kept(s, a, r)
    requires w != [] && !IsSpace(w[0]) && !IsSpace(w[|w| - 1])
    requires Contains(Lower(s), w)
    ensures Contains(Lower(r), w)
  {
    var p := FindOccurrence(Lower(s), w);
    OccurrenceInsideKept(s, a, r, w, p);
    LowerSlice(s, a, a + |r|);
    OccurrenceInSlice(Lower(s), a, a + |r|, w, p);
  }

  /**
    A word that neither starts nor ends with white space occurs in the lower-cased
    stripped string exactly when it occurs in the lower-cased string: an occurrence
    can never reach into the white space that `strip` cuts off.
   */
  lemma StripKeepsWord(s: string, w: string)
    requires w != [] && !IsSpace(w[0]) && !IsSpace(w[|w| - 1])
    ensures Contains(Lower(Strip(s)), w) <==> Contains(Lower(s), w)
  {
    var a, r := StripOffset(s), Strip(s);
    StripKept(s);
    if Contains(Lower(r), w) {
      KeptToWhole(s, a, r, w);
    }
    if Contains(Lower(s), w) {
      WholeToKept(s, a, r, w);
    }
  }

  /** The validator's test for "yes" does not depend on the reply being stripped first. */
  lemma YesSurvivesStrip(s: string)
    ensures Contains(Lower(Strip(s)), "yes") <==> Contains(Lower(s), "yes")
  {
    StripKeepsWord(s, "yes");
  }
}
