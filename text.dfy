/** String helpers: lower-casing, trimming and substring search. */
module Text {

  /**
   * Lower-cases one character. Covers ASCII A-Z, Cyrillic А-Я and Ё, the
   * letters the keyword tables and the expected headers use.
   */
  function LowerChar(c: char): (r: char)
    ensures !('A' <= r <= 'Z') && !('\U{0410}' <= r <= '\U{042F}') && r != '\U{0401}'
  {
    if 'A' <= c <= 'Z' then (c as int + 32) as char
    else if '\U{0410}' <= c <= '\U{042F}' then (c as int + 32) as char
    else if c == '\U{0401}' then '\U{0451}'
    else c
  }

  /** `s` has no letter that lower-casing changes. */
  predicate IsLowerCase(s: string) {
    forall i :: 0 <= i < |s| ==> !('A' <= s[i] <= 'Z') && !('\U{0410}' <= s[i] <= '\U{042F}') && s[i] != '\U{0401}'
  }

  function Lower(s: string): (r: string)
    ensures |r| == |s|
    ensures forall i :: 0 <= i < |s| ==> r[i] == LowerChar(s[i])
  {
    seq(|s|, i requires 0 <= i < |s| => LowerChar(s[i]))
  }

  /** Lower-casing leaves a lower-case string as it is and always yields one. */
  lemma LowerCaseFixed(s: string)
    ensures IsLowerCase(Lower(s))
    ensures IsLowerCase(s) <==> Lower(s) == s
  {
    if IsLowerCase(s) {
      assert forall i :: 0 <= i < |s| ==> Lower(s)[i] == s[i];
    }
  }

  /** The white-space characters that trimming removes: those Python's `str.isspace` accepts. */
  predicate IsSpace(c: char) {
    c == ' ' || '\t' <= c <= '\r' || '\U{1C}' <= c <= '\U{1F}' || c == '\U{85}' || c == '\U{A0}' ||
    c == '\U{1680}' || '\U{2000}' <= c <= '\U{200A}' || c == '\U{2028}' || c == '\U{2029}' ||
    c == '\U{202F}' || c == '\U{205F}' || c == '\U{3000}'
  }

  function TrimStart(s: string): (r: string)
    ensures |r| <= |s| && r == s[|s| - |r|..]
    ensures r != [] ==> !IsSpace(r[0])
    ensures forall i :: 0 <= i < |s| - |r| ==> IsSpace(s[i])
  {
    if s != [] && IsSpace(s[0]) then TrimStart(s[1..]) else s
  }

  function TrimEnd(s: string): (r: string)
    ensures |r| <= |s| && r == s[..|r|]
    ensures r != [] ==> !IsSpace(r[|r| - 1])
    ensures forall i :: |r| <= i < |s| ==> IsSpace(s[i])
  {
    if s != [] && IsSpace(s[|s| - 1]) then TrimEnd(s[..|s| - 1]) else s
  }

  /** Removes leading and trailing white space. */
  function Strip(s: string): (r: string)
  {
    TrimEnd(TrimStart(s))
  }

  /** `p` occurs in `s` as a contiguous substring. */
  predicate Contains(s: string, p: string)
    decreases |s|
  {
    |p| <= |s| && (s[..|p|] == p || Contains(s[1..], p))
  }

  /** Some keyword of `ps` occurs in `s`. */
  predicate ContainsAny(s: string, ps: seq<string>)
  {
    |ps| > 0 && (Contains(s, ps[0]) || ContainsAny(s, ps[1..]))
  }

  /** `p` occurs in `s` starting at position `i`. */
  predicate OccursAt(s: string, p: string, i: int) {
    0 <= i && i + |p| <= |s| && s[i..i + |p|] == p
  }

  /** Some keyword occurs exactly when the keyword search succeeds. */
  lemma {:induction false} ContainsAnyIff(s: string, ps: seq<string>)
    ensures ContainsAny(s, ps) <==> exists k :: 0 <= k < |ps| && Contains(s, ps[k])
  {
    if |ps| > 0 {
      ContainsAnyIff(s, ps[1..]);
      if ContainsAny(s, ps[1..]) {
        var k :| 0 <= k < |ps[1..]| && Contains(s, ps[1..][k]);
        assert Contains(s, ps[k + 1]);
      }
      forall k | 1 <= k < |ps| && Contains(s, ps[k])
        ensures ContainsAny(s, ps[1..])
      {
        assert ps[1..][k - 1] == ps[k];
      }
    }
  }

  /** Dropping the first character shifts every slice by one. */
  lemma SliceShift(s: string, i: nat, n: nat)
    requires 1 + i + n <= |s|
    ensures s[1..][i..i + n] == s[i + 1..i + 1 + n]
  {
    var a, b := s[1..][i..i + n], s[i + 1..i + 1 + n];
    assert forall k :: 0 <= k < n ==> a[k] == b[k];
  }

  /** The recursive search agrees with the positional definition of a substring. */
  lemma {:induction false} ContainsAt(s: string, p: string)
    ensures Contains(s, p) <==> exists i :: OccursAt(s, p, i)
    decreases |s|
  {
    if |p| <= |s| {
      if s[..|p|] == p {
        assert OccursAt(s, p, 0);
      } else {
        ContainsAt(s[1..], p);
        if Contains(s[1..], p) {
          var i :| OccursAt(s[1..], p, i);
          SliceShift(s, i, |p|);
          assert OccursAt(s, p, i + 1);
        } else {
          forall i | 0 < i && i + |p| <= |s|
            ensures !OccursAt(s, p, i)
          {
            SliceShift(s, i - 1, |p|);
            assert !OccursAt(s[1..], p, i - 1);
          }
          assert !OccursAt(s, p, 0);
        }
      }
    }
  }

  /** A keyword with a character that never occurs in `s` is not in `s`. */
  lemma {:induction false} AbsentChar(s: string, p: string, c: char)
    requires c in p && c !in s
    ensures !Contains(s, p)
    decreases |s|
  {
    if |p| <= |s| {
      assert c !in s[..|p|];
      AbsentChar(s[1..], p, c);
    }
  }

  /** No keyword occurs when each keyword `ps[k]` has a character `cs[k]` that `s` lacks. */
  lemma {:induction false} AbsentChars(s: string, ps: seq<string>, cs: seq<char>)
    requires |cs| == |ps|
    requires forall k :: 0 <= k < |ps| ==> cs[k] in ps[k] && cs[k] !in s
    ensures !ContainsAny(s, ps)
  {
    if |ps| > 0 {
      AbsentChar(s, ps[0], cs[0]);
      AbsentChars(s, ps[1..], cs[1..]);
    }
  }

  /** Character `k` of `p` differs from the character of `s` it would meet if `p` started at `i`. */
  predicate DiffersAt(s: string, p: string, k: nat, i: int)
    requires k < |p|
  {
    0 <= i && i + |p| <= |s| ==> s[i + k] != p[k]
  }

  /** A keyword whose `k`-th character differs at every candidate position is not in `s`. */
  lemma {:induction false} Mismatch(s: string, p: string, k: nat)
    requires k < |p|
    requires forall i :: DiffersAt(s, p, k, i)
    ensures !Contains(s, p)
    decreases |s|
  {
    if |p| <= |s| {
      assert DiffersAt(s, p, k, 0);
      assert s[..|p|][k] != p[k];
      forall i
        ensures DiffersAt(s[1..], p, k, i)
      {
        assert DiffersAt(s, p, k, i + 1);
      }
      Mismatch(s[1..], p, k);
    }
  }

  /** Lower-casing twice is lower-casing once. */
  lemma LowerIdempotent(s: string)
    ensures Lower(Lower(s)) == Lower(s)
  {
  }
}
