/**
 * The two functions of Go's `strings` package that the dictionary loader uses:
 * `TrimSpace`, and `Replace` with a count of one and an empty replacement.
 * Strings are sequences of Unicode scalar values.
 */
module Strings {

  /** Go's `unicode.IsSpace`: the Latin-1 spaces plus the other Unicode White_Space characters. */
  predicate IsSpace(c: char) {
    || c == '\t' || c == '\n' || c == '\U{000B}' || c == '\U{000C}' || c == '\r' || c == ' '
    || c == '\U{0085}' || c == '\U{00A0}' || c == '\U{1680}'
    || ('\U{2000}' <= c <= '\U{200A}')
    || c == '\U{2028}' || c == '\U{2029}' || c == '\U{202F}' || c == '\U{205F}' || c == '\U{3000}'
  }

  /** The byte-order mark U+FEFF; it is not white space. */
  const Bom: char := '\U{FEFF}'

  predicate AllSpace(s: string) {
    forall i :: 0 <= i < |s| ==> IsSpace(s[i])
  }

  /** The number of white-space characters that start `s`. */
  function LeadingSpace(s: string): (n: nat)
    ensures n <= |s|
    ensures forall k :: 0 <= k < n ==> IsSpace(s[k])
    ensures n < |s| ==> !IsSpace(s[n])
  {
    if s != [] && IsSpace(s[0]) then 1 + LeadingSpace(s[1..]) else 0
  }

  /** The length of `s` without the white-space characters that end it. */
  function TrailingSpaceStart(s: string): (n: nat)
    ensures n <= |s|
    ensures forall k :: n <= k < |s| ==> IsSpace(s[k])
    ensures 0 < n ==> !IsSpace(s[n - 1])
  {
    if s != [] && IsSpace(s[|s| - 1]) then TrailingSpaceStart(s[..|s| - 1]) else |s|
  }

  /**
   * `strings.TrimSpace`: the infix of `s` left after removing all leading and
   * trailing white space.
   */
  function TrimSpace(s: string): (r: string)
    ensures r == [] <==> AllSpace(s)
    ensures r == [] || (!IsSpace(r[0]) && !IsSpace(r[|r| - 1]))
    ensures LeadingSpace(s) + |r| <= |s| && r == s[LeadingSpace(s)..LeadingSpace(s) + |r|]
    ensures AllSpace(s[..LeadingSpace(s)]) && AllSpace(s[LeadingSpace(s) + |r|..])
  {
    var i := LeadingSpace(s);
    if i == |s| then
      []
    else
      assert !IsSpace(s[i]);
      s[i..TrailingSpaceStart(s)]
  }

  /** A white-space prefix ended by a non-space character is what LeadingSpace counts. */
  lemma {:induction false} LeadingSpaceIs(s: string, i: nat)
    requires i <= |s|
    requires forall k :: 0 <= k < i ==> IsSpace(s[k])
    requires i < |s| ==> !IsSpace(s[i])
    ensures LeadingSpace(s) == i
  {
    if i > 0 {
      LeadingSpaceIs(s[1..], i - 1);
    }
  }

  /** A white-space suffix after a non-space character is what TrailingSpaceStart finds. */
  lemma {:induction false} TrailingSpaceStartIs(s: string, j: nat)
    requires j <= |s|
    requires forall k :: j <= k < |s| ==> IsSpace(s[k])
    requires 0 < j ==> !IsSpace(s[j - 1])
    ensures TrailingSpaceStart(s) == j
  {
    if j < |s| {
      TrailingSpaceStartIs(s[..|s| - 1], j);
    }
  }

  /** Any split of `s` into white space, a trimmed infix and white space is the one TrimSpace finds. */
  lemma TrimSpaceUnique(s: string, i: nat, j: nat)
    requires i <= j <= |s|
    requires AllSpace(s[..i]) && AllSpace(s[j..])
    requires i < j ==> !IsSpace(s[i]) && !IsSpace(s[j - 1])
    ensures TrimSpace(s) == s[i..j]
  {
    forall k | 0 <= k < i ensures IsSpace(s[k]) { assert s[..i][k] == s[k]; }
    forall k | j <= k < |s| ensures IsSpace(s[k]) { assert s[j..][k - j] == s[k]; }
    if i == j {
      LeadingSpaceIs(s, |s|);
    } else {
      LeadingSpaceIs(s, i);
      TrailingSpaceStartIs(s, j);
    }
  }

  /** Trimming is idempotent. */
  lemma TrimSpaceIdempotent(s: string)
    ensures TrimSpace(TrimSpace(s)) == TrimSpace(s)
  {
    var r := TrimSpace(s);
    TrimSpaceUnique(r, 0, |r|);
    assert r[0..|r|] == r;
  }

  /** White space added around a string disappears under trimming. */
  lemma TrimSpaceSurrounded(a: string, s: string, b: string)
    requires AllSpace(a) && AllSpace(b)
    ensures TrimSpace(a + s + b) == TrimSpace(s)
  {
    var t := a + s + b;
    var r := TrimSpace(s);
    var n := LeadingSpace(s);
    var i, j := |a| + n, |a| + n + |r|;
    assert t[i..j] == r;
    forall k | 0 <= k < i ensures IsSpace(t[..i][k]) {
      if k >= |a| { assert t[k] == s[..n][k - |a|]; }
    }
    forall k | 0 <= k < |t| - j ensures IsSpace(t[j..][k]) {
      if j + k < |a| + |s| { assert t[j + k] == s[n + |r|..][k]; } else { assert t[j + k] == b[j + k - |a| - |s|]; }
    }
    TrimSpaceUnique(t, i, j);
  }

  /** Characters of the trimmed string all come from the original. */
  lemma TrimSpaceKeeps(s: string, c: char)
    requires c !in s
    ensures c !in TrimSpace(s)
  {
    var n := LeadingSpace(s);
    var r := TrimSpace(s);
    forall k | 0 <= k < |r| ensures r[k] != c {
      assert r[k] == s[n + k];
    }
  }

  /** The search `strings.Replace` does: the first position of `c` in `s`, or -1. */
  function IndexOf(s: string, c: char): (i: int)
    ensures -1 <= i < |s|
    ensures i == -1 <==> c !in s
    ensures 0 <= i ==> s[i] == c && c !in s[..i]
  {
    if s == [] then -1
    else if s[0] == c then 0
    else
      var j := IndexOf(s[1..], c);
      assert c in s ==> c in s[1..];
      assert 0 <= j ==> s[..j + 1] == [s[0]] + s[1..][..j];
      if j < 0 then -1 else j + 1
  }

  /**
   * `strings.Replace(s, string(c), "", 1)`: deletes the first occurrence of `c`,
   * if any, and leaves the rest of `s` in order.
   */
  function RemoveFirst(s: string, c: char): (r: string)
  {
    var i := IndexOf(s, c);
    if i < 0 then s else s[..i] + s[i + 1..]
  }
}
