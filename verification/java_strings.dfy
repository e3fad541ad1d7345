/** Java's String.trim over a string modelled as a sequence of chars: it strips
    from both ends every character whose code is at most U+0020 (space and all
    control characters), not Unicode whitespace in general. */
module JavaStrings {

  /** A character String.trim removes. */
  predicate IsPadding(c: char) {
    c <= ' '
  }

  /** Every character is one String.trim removes (includes the empty string). */
  predicate IsBlank(s: string) {
    forall i :: 0 <= i < |s| ==> IsPadding(s[i])
  }

  /** A fixed point of String.trim: empty, or neither end is padding. */
  predicate IsTrimmed(s: string) {
    s == [] || (!IsPadding(s[0]) && !IsPadding(s[|s| - 1]))
  }

  /** Drops the leading padding: the first scan of String.trim. */
  function TrimStart(s: string): (r: string)
    ensures |r| <= |s| && r == s[|s| - |r|..]
    ensures IsBlank(s[..|s| - |r|])
    ensures r == [] || !IsPadding(r[0])
    decreases |s|
  {
    if s != [] && IsPadding(s[0]) then TrimStart(s[1..]) else s
  }

  /** Drops the trailing padding: the second scan of String.trim. */
  function TrimEnd(s: string): (r: string)
    ensures |r| <= |s| && r == s[..|r|]
    ensures IsBlank(s[|r|..])
    ensures r == [] || !IsPadding(r[|r| - 1])
    decreases |s|
  {
    if s != [] && IsPadding(s[|s| - 1]) then TrimEnd(s[..|s| - 1]) else s
  }

  /** String.trim. */
  function Trim(s: string): (r: string)
    ensures |r| <= |s|
    ensures IsTrimmed(r)
    ensures r == [] <==> IsBlank(s)
  {
    var t := TrimStart(s);
    assert IsBlank(t[|TrimEnd(t)|..]);
    assert TrimEnd(t) == [] ==> IsBlank(s) by {
      if TrimEnd(t) == [] {
        assert s == s[..|s| - |t|] + t;
      }
    }
    TrimEnd(t)
  }

  lemma {:induction false} TrimStartSkipsBlank(p: string, c: string)
    requires IsBlank(p)
    requires c == [] || !IsPadding(c[0])
    ensures TrimStart(p + c) == c
    decreases |p|
  {
    if p != [] {
      assert (p + c)[1..] == p[1..] + c;
      TrimStartSkipsBlank(p[1..], c);
    }
  }

  lemma {:induction false} TrimEndSkipsBlank(c: string, q: string)
    requires IsBlank(q)
    requires c == [] || !IsPadding(c[|c| - 1])
    ensures TrimEnd(c + q) == c
    decreases |q|
  {
    if q != [] {
      assert (c + q)[..|c + q| - 1] == c + q[..|q| - 1];
      TrimEndSkipsBlank(c, q[..|q| - 1]);
    }
  }

  /** Reference characterisation: whatever the padding around a trimmed core,
      String.trim returns exactly that core. */
  lemma TrimOfPadded(p: string, c: string, q: string)
    requires IsBlank(p) && IsBlank(q) && IsTrimmed(c)
    ensures Trim(p + c + q) == c
  {
    if c == [] {
      assert p + c + q == p + q;
      assert IsBlank(p + q);
    } else {
      assert p + c + q == p + (c + q);
      TrimStartSkipsBlank(p, c + q);
      TrimEndSkipsBlank(c, q);
    }
  }

  /** Converse of TrimOfPadded: every string is its trimmed form with blank
      padding on either side. */
  lemma TrimSplits(s: string) returns (lo: nat, hi: nat)
    ensures lo <= hi <= |s|
    ensures Trim(s) == s[lo..hi]
    ensures IsBlank(s[..lo]) && IsBlank(s[hi..])
  {
    var t := TrimStart(s);
    var r := TrimEnd(t);
    lo := |s| - |t|;
    hi := lo + |r|;
    assert t == s[lo..];
    assert r == t[..|r|];
    assert t[|r|..] == s[hi..];
  }

  /** String.trim applied twice changes nothing more. */
  lemma TrimIdempotent(s: string)
    ensures Trim(Trim(s)) == Trim(s)
  {
    TrimOfPadded([], Trim(s), []);
    assert [] + Trim(s) + [] == Trim(s);
  }
}
