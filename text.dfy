/**
 * Python's `str.strip()` with no argument: remove the whitespace characters
 * at both ends of a string, as the handler does to a user transcript.
 */
module Text {

  /** The characters Python's `str.isspace()` accepts (and `str.strip()` removes). */
  predicate IsSpace(c: char) {
    var n := c as int;
    (0x09 <= n <= 0x0D) || (0x1C <= n <= 0x20) || n == 0x85 || n == 0xA0 || n == 0x1680
    || (0x2000 <= n <= 0x200A) || n == 0x2028 || n == 0x2029 || n == 0x202F
    || n == 0x205F || n == 0x3000
  }

  predicate AllSpace(s: string) {
    forall k :: 0 <= k < |s| ==> IsSpace(s[k])
  }

  /** Neither end of `s` is whitespace. */
  predicate Trimmed(s: string) {
    s == [] || (!IsSpace(s[0]) && !IsSpace(s[|s| - 1]))
  }

  /** `s.lstrip()`: drop leading whitespace. */
  function StripStart(s: string): string
  {
    if s != [] && IsSpace(s[0]) then StripStart(s[1..]) else s
  }

  /** `s.rstrip()`: drop trailing whitespace. */
  function StripEnd(s: string): string
  {
    if s != [] && IsSpace(s[|s| - 1]) then StripEnd(s[..|s| - 1]) else s
  }

  /** `lstrip` keeps a suffix, removes only whitespace, and leaves no whitespace in front. */
  lemma {:induction false} StripStartSpec(s: string)
    ensures var r := StripStart(s);
      && |r| <= |s| && r == s[|s| - |r|..]
      && AllSpace(s[..|s| - |r|])
      && (r == [] || !IsSpace(r[0]))
  {
    if s != [] && IsSpace(s[0]) {
      var t := s[1..];
      StripStartSpec(t);
      var r := StripStart(t);
      assert t[|t| - |r|..] == s[|s| - |r|..];
      var dropped := s[..|s| - |r|];
      forall k | 0 <= k < |dropped| ensures IsSpace(dropped[k]) {
        if k > 0 { assert dropped[k] == t[..|t| - |r|][k - 1]; }
      }
    }
  }

  /** `rstrip` keeps a prefix, removes only whitespace, and leaves no whitespace behind. */
  lemma {:induction false} StripEndSpec(s: string)
    ensures var r := StripEnd(s);
      && |r| <= |s| && r == s[..|r|]
      && AllSpace(s[|r|..])
      && (r == [] || !IsSpace(r[|r| - 1]))
  {
    if s != [] && IsSpace(s[|s| - 1]) {
      var t := s[..|s| - 1];
      StripEndSpec(t);
      var r := StripEnd(t);
      assert t[..|r|] == s[..|r|];
      var dropped := s[|r|..];
      forall k | 0 <= k < |dropped| ensures IsSpace(dropped[k]) {
        if k < |t| - |r| { assert dropped[k] == t[|r|..][k]; }
      }
    }
  }

  /** `s.strip()`. */
  function Strip(s: string): (r: string)
    ensures Trimmed(r)
    ensures |r| <= |s|
  {
    StripStartSpec(s);
    StripEndSpec(StripStart(s));
    var t := StripStart(s);
    var r := StripEnd(t);
    assert r != [] ==> r[0] == t[0];
    r
  }

  /** When `s[..i]` is whitespace and `s[i]` is not, `lstrip` starts exactly at `i`. */
  lemma {:induction false} StripStartAt(s: string, i: nat)
    requires i <= |s| && AllSpace(s[..i])
    requires i == |s| || !IsSpace(s[i])
    ensures StripStart(s) == s[i..]
  {
    if i > 0 {
      assert IsSpace(s[..i][0]);
      assert s[1..][..i - 1] == s[1..i] == s[..i][1..];
      StripStartAt(s[1..], i - 1);
      assert s[1..][i - 1..] == s[i..];
    }
  }

  /** When `s[j..]` is whitespace and `s[j - 1]` is not, `rstrip` ends exactly at `j`. */
  lemma {:induction false} StripEndAt(s: string, j: nat)
    requires j <= |s| && AllSpace(s[j..])
    requires j == 0 || !IsSpace(s[j - 1])
    ensures StripEnd(s) == s[..j]
  {
    if j < |s| {
      assert IsSpace(s[j..][|s| - 1 - j]);
      var s' := s[..|s| - 1];
      assert s'[j..] == s[j..|s| - 1];
      StripEndAt(s', j);
      assert s'[..j] == s[..j];
    }
  }

  /**
   * The result of `strip` is THE slice of `s` that has whitespace on both
   * sides and none at its own ends: any slice like that is what `strip` gives.
   */
  lemma {:induction false} StripIsTheTrimmedSlice(s: string, i: nat, j: nat)
    requires i <= j <= |s|
    requires AllSpace(s[..i]) && AllSpace(s[j..]) && Trimmed(s[i..j])
    ensures Strip(s) == s[i..j]
  {
    if i == j {
      StripAllSpace(s, i);
    } else {
      StripAroundWord(s, i, j);
    }
  }

  lemma StripAllSpace(s: string, i: nat)
    requires i <= |s| && AllSpace(s[..i]) && AllSpace(s[i..])
    ensures Strip(s) == s[i..i]
  {
    SpaceAround(s, i);
    assert s[..|s|] == s;
    StripStartAt(s, |s|);
    assert StripStart(s) == [];
  }

  lemma StripAroundWord(s: string, i: nat, j: nat)
    requires i < j <= |s|
    requires AllSpace(s[..i]) && AllSpace(s[j..]) && Trimmed(s[i..j])
    ensures Strip(s) == s[i..j]
  {
    StartOfWord(s, i, j);
    EndOfWord(s, i, j);
  }

  lemma StartOfWord(s: string, i: nat, j: nat)
    requires i < j <= |s|
    requires AllSpace(s[..i]) && Trimmed(s[i..j])
    ensures StripStart(s) == s[i..]
  {
    assert s[i..j][0] == s[i];
    StripStartAt(s, i);
  }

  lemma EndOfWord(s: string, i: nat, j: nat)
    requires i < j <= |s|
    requires AllSpace(s[j..]) && Trimmed(s[i..j])
    ensures StripEnd(s[i..]) == s[i..j]
  {
    var t := s[i..];
    assert t[j - i..] == s[j..];
    assert t[j - i - 1] == s[i..j][j - i - 1];
    StripEndAt(t, j - i);
    assert t[..j - i] == s[i..j];
  }

  lemma SpaceAround(s: string, i: nat)
    requires i <= |s| && AllSpace(s[..i]) && AllSpace(s[i..])
    ensures AllSpace(s)
  {
    forall k | 0 <= k < |s| ensures IsSpace(s[k]) {
      if k < i { assert s[..i][k] == s[k]; } else { assert s[i..][k - i] == s[k]; }
    }
  }

  /** Stripping twice is stripping once. */
  lemma StripIdempotent(s: string)
    ensures Strip(Strip(s)) == Strip(s)
  {
    var r := Strip(s);
    assert r[..0] == [] && r[|r|..] == [] && r[0..|r|] == r;
    StripIsTheTrimmedSlice(r, 0, |r|);
  }

  /** `strip` only removes whitespace: what it keeps is a slice of `s` bounded by whitespace. */
  lemma StripKeepsSlice(s: string) returns (i: nat, j: nat)
    ensures i <= j <= |s| && Strip(s) == s[i..j]
    ensures AllSpace(s[..i]) && AllSpace(s[j..])
  {
    var t := StripStart(s);
    StripStartSpec(s);
    i := |s| - |t|;
    var r := StripEnd(t);
    StripEndSpec(t);
    j := i + |r|;
    assert s[i..][..|r|] == s[i..j];
    assert s[i..][|r|..] == s[j..];
  }
}
