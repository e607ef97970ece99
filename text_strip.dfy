/**
 * Python's `str.strip()` with no argument: remove leading and trailing
 * whitespace, where whitespace is exactly the set of code points for which
 * Python's `str.isspace()` holds.
 */
module TextStrip {

  /** The code points Python treats as whitespace when stripping. */
  predicate IsSpace(c: char) {
    var n := c as int;
    (0x09 <= n <= 0x0D) || (0x1C <= n <= 0x20) || n == 0x85 || n == 0xA0 || n == 0x1680
    || (0x2000 <= n <= 0x200A) || n == 0x2028 || n == 0x2029 || n == 0x202F
    || n == 0x205F || n == 0x3000
  }

  predicate AllSpace(s: string) {
    forall k :: 0 <= k < |s| ==> IsSpace(s[k])
  }

  /** `s.lstrip()`: the suffix of `s` left after dropping leading whitespace. */
  function StripLeading(s: string): (r: string)
    ensures |r| <= |s| && r == s[|s| - |r|..]
    ensures AllSpace(s[..|s| - |r|])
    ensures r == [] || !IsSpace(r[0])
    decreases |s|
  {
    if s != [] && IsSpace(s[0]) then
      var r := StripLeading(s[1..]);
      AllSpaceCons(s[0], s[1..][..|s| - 1 - |r|]);
      assert s[..|s| - |r|] == [s[0]] + s[1..][..|s| - 1 - |r|];
      r
    else s
  }

  /** A whitespace character followed by whitespace is whitespace. */
  lemma AllSpaceCons(c: char, s: string)
    requires IsSpace(c) && AllSpace(s)
    ensures AllSpace([c] + s)
  {
    assert forall k :: 0 < k <= |s| ==> ([c] + s)[k] == s[k - 1];
  }

  /** `s.rstrip()`: the prefix of `s` left after dropping trailing whitespace. */
  function StripTrailing(s: string): (r: string)
    ensures |r| <= |s| && r == s[..|r|]
    ensures AllSpace(s[|r|..])
    ensures r == [] || !IsSpace(r[|r| - 1])
    decreases |s|
  {
    if s != [] && IsSpace(s[|s| - 1]) then
      var r := StripTrailing(s[..|s| - 1]);
      AllSpaceSnoc(s[..|s| - 1][|r|..], s[|s| - 1]);
      assert s[|r|..] == s[..|s| - 1][|r|..] + [s[|s| - 1]];
      r
    else s
  }

  /** Whitespace followed by a whitespace character is whitespace. */
  lemma AllSpaceSnoc(s: string, c: char)
    requires AllSpace(s) && IsSpace(c)
    ensures AllSpace(s + [c])
  {
    assert forall k :: 0 <= k < |s| ==> (s + [c])[k] == s[k];
  }

  /** `s.strip()`. */
  function Strip(s: string): string {
    StripTrailing(StripLeading(s))
  }

  /** The leading whitespace run is determined by the first non-space position. */
  lemma {:induction false} StripLeadingAt(s: string, i: nat)
    requires i <= |s| && AllSpace(s[..i])
    requires i == |s| || !IsSpace(s[i])
    ensures StripLeading(s) == s[i..]
    decreases i
  {
    if i > 0 {
      assert s[..i][0] == s[0];
      var t := s[1..];
      var u := t[..i - 1];
      assert AllSpace(u) by {
        forall k | 0 <= k < |u| ensures IsSpace(u[k]) {
          assert u[k] == s[..i][k + 1];
        }
      }
      StripLeadingAt(t, i - 1);
      assert t[i - 1..] == s[i..];
    }
  }

  /** The trailing whitespace run is determined by the last non-space position. */
  lemma {:induction false} StripTrailingAt(s: string, j: nat)
    requires j <= |s| && AllSpace(s[j..])
    requires j == 0 || !IsSpace(s[j - 1])
    ensures StripTrailing(s) == s[..j]
    decreases |s| - j
  {
    if j < |s| {
      assert s[j..][|s| - 1 - j] == s[|s| - 1];
      var t := s[..|s| - 1];
      assert AllSpace(t[j..]) by {
        forall k | 0 <= k < |t| - j ensures IsSpace(t[j..][k]) {
          assert t[j..][k] == s[j..][k];
        }
      }
      StripTrailingAt(t, j);
      assert t[..j] == s[..j];
    }
  }

  /**
   * Reference characterisation of `strip`: any slice `s[i..j]` whose outside
   * is whitespace and whose ends are not is the stripped string, and when
   * everything is whitespace the stripped string is empty.
   */
  lemma {:induction false} StripUnique(s: string, i: nat, j: nat)
    requires i <= j <= |s|
    requires AllSpace(s[..i]) && AllSpace(s[j..])
    requires i < j ==> !IsSpace(s[i]) && !IsSpace(s[j - 1])
    ensures Strip(s) == s[i..j]
  {
    if i == j {
      SpaceJoin(s, i);
      StripAllSpace(s);
    } else {
      StripSlice(s, i, j);
    }
  }

  /** The non-empty case of StripUnique. */
  lemma {:induction false} StripSlice(s: string, i: nat, j: nat)
    requires i < j <= |s|
    requires AllSpace(s[..i]) && AllSpace(s[j..])
    requires !IsSpace(s[i]) && !IsSpace(s[j - 1])
    ensures Strip(s) == s[i..j]
  {
    StripLeadingAt(s, i);
    StripTrailingInside(s, i, j);
  }

  /** Trailing whitespace of a suffix `s[i..]` ends where that of `s` does. */
  lemma {:induction false} StripTrailingInside(s: string, i: nat, j: nat)
    requires i < j <= |s| && AllSpace(s[j..]) && !IsSpace(s[j - 1])
    ensures StripTrailing(s[i..]) == s[i..j]
  {
    var t := s[i..];
    assert t[j - i..] == s[j..];
    assert t[j - i - 1] == s[j - 1];
    StripTrailingAt(t, j - i);
    assert t[..j - i] == s[i..j];
  }

  /** A string of whitespace strips to nothing. */
  lemma StripAllSpace(s: string)
    requires AllSpace(s)
    ensures Strip(s) == []
  {
    assert s[..|s|] == s;
    StripLeadingAt(s, |s|);
  }

  /** Two whitespace runs that meet make a whitespace string. */
  lemma {:induction false} SpaceJoin(s: string, i: nat)
    requires i <= |s| && AllSpace(s[..i]) && AllSpace(s[i..])
    ensures AllSpace(s)
  {
    forall k | 0 <= k < |s| ensures IsSpace(s[k]) {
      if k < i { assert s[..i][k] == s[k]; } else { assert s[i..][k - i] == s[k]; }
    }
  }

  /** What `strip` returns: a slice of the input, with only whitespace cut off and no whitespace at either end. */
  lemma StripShape(s: string) returns (i: nat)
    ensures i + |Strip(s)| <= |s| && Strip(s) == s[i..i + |Strip(s)|]
    ensures AllSpace(s[..i]) && AllSpace(s[i + |Strip(s)|..])
    ensures Strip(s) == [] || (!IsSpace(Strip(s)[0]) && !IsSpace(Strip(s)[|Strip(s)| - 1]))
  {
    var l := StripLeading(s);
    var r := Strip(s);
    i := |s| - |l|;
    assert r == l[..|r|];
    assert l[|r|..] == s[i + |r|..];
    assert r == [] || r[0] == l[0];
  }

  /** Stripping twice is stripping once. */
  lemma StripIdempotent(s: string)
    ensures Strip(Strip(s)) == Strip(s)
  {
    var r := Strip(s);
    var _ := StripShape(s);
    assert StripLeading(r) == r;
    assert StripTrailing(r) == r;
  }

  /** `s.strip()` is empty exactly when `s` is all whitespace (including when `s` is empty). */
  lemma StripEmptyIff(s: string)
    ensures Strip(s) == [] <==> AllSpace(s)
  {
    var i := StripShape(s);
    if AllSpace(s) {
      assert s[..0] == [] && s[0..0] == [];
      StripUnique(s, 0, 0);
    } else if Strip(s) == [] {
      SpaceJoin(s, i);
    }
  }
}
