/**
 * The dictionary line pattern `^(.+?)( [0-9]+)?( [a-z]+)?$`, matched the way
 * Go's `regexp` package does (leftmost-first: the lazy first group is as short
 * as the rest of the pattern allows), by a direct matcher instead of a
 * general regular-expression engine.
 */
module Pattern {
  import opened Wrappers

  predicate IsDigit(c: char) { '0' <= c <= '9' }
  predicate IsLower(c: char) { 'a' <= c <= 'z' }

  /**
   * The three submatches, as `FindStringSubmatch` returns them: the text, then
   * the frequency group with its leading space (" 120") and the tag group with
   * its leading space (" n"); a group that did not take part is "".
   */
  datatype Groups = Groups(text: string, freq: string, pos: string)

  predicate AllDigits(s: string) { forall i :: 0 <= i < |s| ==> IsDigit(s[i]) }
  predicate AllLower(s: string) { forall i :: 0 <= i < |s| ==> IsLower(s[i]) }

  /** What `( [0-9]+)?` can match: nothing, or a space and a non-empty digit run. */
  predicate FreqGroup(s: string) {
    s == [] || (|s| >= 2 && s[0] == ' ' && AllDigits(s[1..]))
  }

  /** What `( [a-z]+)?` can match: nothing, or a space and a non-empty run of lower-case ASCII letters. */
  predicate PosGroup(s: string) {
    s == [] || (|s| >= 2 && s[0] == ' ' && AllLower(s[1..]))
  }

  /** `g` is one way of matching the whole of `t` against the pattern (`.` does not match a newline). */
  ghost predicate IsMatch(t: string, g: Groups) {
    && g.text != [] && '\n' !in g.text
    && FreqGroup(g.freq) && PosGroup(g.pos)
    && t == g.text + g.freq + g.pos
  }

  /** The match Go reports: among all matches, the one with the shortest text group. */
  ghost predicate IsPreferredMatch(t: string, g: Groups) {
    IsMatch(t, g) && forall g' :: IsMatch(t, g') ==> |g.text| <= |g'.text|
  }

  /** The length of the digit run that starts `s`. */
  function DigitRun(s: string): (n: nat)
    ensures n <= |s|
    ensures AllDigits(s[..n])
    ensures n < |s| ==> !IsDigit(s[n])
  {
    if s != [] && IsDigit(s[0]) then
      var n := 1 + DigitRun(s[1..]);
      assert s[..n] == [s[0]] + s[1..][..n - 1];
      n
    else 0
  }

  lemma {:induction false} DigitRunIs(s: string, n: nat)
    requires n <= |s|
    requires AllDigits(s[..n])
    requires n < |s| ==> !IsDigit(s[n])
    ensures DigitRun(s) == n
  {
    if n > 0 {
      assert s[0] == s[..n][0];
      assert s[1..][..n - 1] == s[..n][1..];
      DigitRunIs(s[1..], n - 1);
    }
  }

  /**
   * Matches `r` against `( [0-9]+)?( [a-z]+)?$`, returning the two groups.
   * Digits and letters are disjoint, so there is at most one way to do it.
   */
  function SplitSuffix(r: string): (o: Option<(string, string)>)
  {
    if r == [] then Some(([], []))
    else if r[0] != ' ' then None
    else
      var n := DigitRun(r[1..]);
      var d := if n == 0 then [] else r[..1 + n];
      if PosGroup(r[|d|..]) then Some((d, r[|d|..])) else None
  }

  /** What SplitSuffix returns is a decomposition of `r` into the two optional groups. */
  lemma SplitSuffixSound(r: string)
    requires SplitSuffix(r).Some?
    ensures FreqGroup(SplitSuffix(r).value.0) && PosGroup(SplitSuffix(r).value.1)
    ensures r == SplitSuffix(r).value.0 + SplitSuffix(r).value.1
  {
    if r != [] {
      var n := DigitRun(r[1..]);
      if n > 0 {
        assert r[..1 + n][1..] == r[1..][..n];
      }
    }
  }

  /** Every decomposition of `r` into the two optional groups is the one SplitSuffix finds. */
  lemma SplitSuffixComplete(r: string, d: string, l: string)
    requires FreqGroup(d) && PosGroup(l) && r == d + l
    ensures SplitSuffix(r) == Some((d, l))
  {
    if d == [] && l != [] {
      assert r == l;
      DigitRunIs(r[1..], 0);
    } else if d != [] {
      var n := |d| - 1;
      assert r[1..][..n] == d[1..];
      assert n < |r[1..]| ==> r[1..][n] == l[0];
      DigitRunIs(r[1..], n);
      assert r[..1 + n] == d;
      assert r[1 + n..] == l;
    }
  }

  /** SplitSuffix finds exactly the decompositions of `r` into the two optional groups. */
  lemma SplitSuffixCorrect(r: string, d: string, l: string)
    ensures SplitSuffix(r) == Some((d, l)) <==> FreqGroup(d) && PosGroup(l) && r == d + l
  {
    if SplitSuffix(r) == Some((d, l)) {
      SplitSuffixSound(r);
    }
    if FreqGroup(d) && PosGroup(l) && r == d + l {
      SplitSuffixComplete(r, d, l);
    }
  }

  /** The suffix after a text group has at most one decomposition into the two optional groups. */
  lemma SuffixGroupsUnique(d: string, l: string, d': string, l': string)
    requires FreqGroup(d) && PosGroup(l) && FreqGroup(d') && PosGroup(l')
    requires d + l == d' + l'
    ensures d == d' && l == l'
  {
    SplitSuffixCorrect(d + l, d, l);
    SplitSuffixCorrect(d + l, d', l');
  }

  /** Tries text groups of length n, n + 1, ... in turn, as the lazy `.+?` does. */
  function MatchFrom(t: string, n: nat): (g: Groups)
    requires 1 <= n <= |t|
    decreases |t| - n
  {
    match SplitSuffix(t[n..])
    case Some((d, l)) => Groups(t[..n], d, l)
    case None => MatchFrom(t, n + 1)
  }

  /**
   * `dict_reg.FindStringSubmatch(t)`: the groups of the match, or None when `t`
   * does not match. The text group may not contain a newline, so neither may a
   * matching `t`.
   */
  function MatchLine(t: string): (o: Option<Groups>)
  {
    if t == [] || '\n' in t then None else Some(MatchFrom(t, 1))
  }

  /** MatchFrom cuts `t` after a prefix of length at least n whose remainder splits into the groups it returns. */
  lemma {:induction false} MatchFromSplits(t: string, n: nat)
    requires 1 <= n <= |t|
    ensures n <= |MatchFrom(t, n).text| <= |t|
    ensures MatchFrom(t, n).text == t[..|MatchFrom(t, n).text|]
    ensures FreqGroup(MatchFrom(t, n).freq) && PosGroup(MatchFrom(t, n).pos)
    ensures t == MatchFrom(t, n).text + MatchFrom(t, n).freq + MatchFrom(t, n).pos
    decreases |t| - n
  {
    if n < |t| && SplitSuffix(t[n..]).None? {
      MatchFromSplits(t, n + 1);
    } else {
      assert n == |t| ==> t[n..] == [];
      var (d, l) := SplitSuffix(t[n..]).value;
      SplitAt(t, n, d, l);
    }
  }

  /** Cutting `t` after n characters where the remainder splits gives the three groups back. */
  lemma SplitAt(t: string, n: nat, d: string, l: string)
    requires n <= |t| && SplitSuffix(t[n..]) == Some((d, l))
    ensures FreqGroup(d) && PosGroup(l) && t == t[..n] + d + l
  {
    SplitSuffixSound(t[n..]);
    Recombine(t, n, d, l);
  }

  lemma Recombine(t: string, n: nat, d: string, l: string)
    requires n <= |t| && t[n..] == d + l
    ensures t == t[..n] + d + l
  {
    assert t == t[..n] + t[n..];
  }

  /** No remainder after a prefix shorter than the one MatchFrom picks splits. */
  lemma {:induction false} MatchFromFirst(t: string, n: nat, k: nat)
    requires 1 <= n <= |t|
    requires n <= k < |t| && k < |MatchFrom(t, n).text|
    ensures SplitSuffix(t[k..]).None?
    decreases |t| - n
  {
    MatchFromSplits(t, n);
    if k > n {
      MatchFromFirst(t, n + 1, k);
    }
  }

  /** The text group can always take the whole line, so everything but "" and lines with a newline matches. */
  lemma MatchLineNone(t: string)
    ensures MatchLine(t).None? <==> forall g :: !IsMatch(t, g)
    ensures MatchLine(t).None? <==> t == [] || '\n' in t
  {
    if t != [] && '\n' !in t {
      assert t == t + [] + [];
      assert IsMatch(t, Groups(t, [], []));
    } else {
      forall g ensures !IsMatch(t, g) {
        if FreqGroup(g.freq) && PosGroup(g.pos) && t == g.text + g.freq + g.pos && g.text != [] {
          NewlineNotInGroups(g.freq, g.pos);
          assert '\n' in g.text;
        }
      }
    }
  }

  lemma NewlineNotInGroups(d: string, l: string)
    requires FreqGroup(d) && PosGroup(l)
    ensures '\n' !in d + l
  {
    forall i | 0 <= i < |d + l| ensures (d + l)[i] != '\n' {
      if i < |d| {
        assert i == 0 || IsDigit(d[1..][i - 1]);
      } else {
        assert i == |d| || IsLower(l[1..][i - |d| - 1]);
      }
    }
  }

  /** A match splits the line at the end of its text group. */
  lemma MatchSplits(t: string, g: Groups)
    requires IsMatch(t, g)
    ensures |g.text| <= |t| && g.text == t[..|g.text|] && t[|g.text|..] == g.freq + g.pos
  {
    ConcatParts(g.text, g.freq, g.pos);
  }

  lemma ConcatParts(a: string, b: string, c: string)
    ensures (a + b + c)[..|a|] == a && (a + b + c)[|a|..] == b + c
  {
    assert a + b + c == a + (b + c);
  }

  /** For a non-empty line without a newline, MatchFrom(t, 1) is a match. */
  lemma MatchFromIsMatch(t: string)
    requires t != [] && '\n' !in t
    ensures IsMatch(t, MatchFrom(t, 1))
  {
    MatchFromSplits(t, 1);
    PrefixKeepsOut(t, |MatchFrom(t, 1).text|, '\n');
  }

  lemma PrefixKeepsOut(t: string, n: nat, c: char)
    requires n <= |t| && c !in t
    ensures c !in t[..n]
  {
    forall i | 0 <= i < n ensures t[..n][i] != c {
      assert t[..n][i] == t[i];
    }
  }

  /** For a non-empty line without a newline, MatchFrom(t, 1) is a match no other match undercuts. */
  lemma MatchFromPreferred(t: string)
    requires t != [] && '\n' !in t
    ensures IsPreferredMatch(t, MatchFrom(t, 1))
  {
    MatchFromIsMatch(t);
    forall g' | IsMatch(t, g') ensures |MatchFrom(t, 1).text| <= |g'.text| {
      NoShorterMatch(t, g');
    }
  }

  /** No match has a shorter text group than MatchFrom(t, 1). */
  lemma NoShorterMatch(t: string, g: Groups)
    requires t != [] && IsMatch(t, g)
    ensures |MatchFrom(t, 1).text| <= |g.text|
  {
    MatchFromSplits(t, 1);
    MatchSplits(t, g);
    SplitSuffixComplete(t[|g.text|..], g.freq, g.pos);
    if |g.text| < |MatchFrom(t, 1).text| {
      MatchFromFirst(t, 1, |g.text|);
    }
  }

  /** Two preferred matches of one line are the same match. */
  lemma PreferredMatchUnique(t: string, g: Groups, g': Groups)
    requires IsPreferredMatch(t, g) && IsPreferredMatch(t, g')
    ensures g == g'
  {
    MatchSplits(t, g);
    MatchSplits(t, g');
    assert |g.text| == |g'.text|;
    SuffixGroupsUnique(g.freq, g.pos, g'.freq, g'.pos);
  }

  /**
   * MatchLine reports exactly the leftmost-first match: a match of the whole
   * line whose text group is no longer than that of any other match.
   */
  lemma MatchLineIsPreferred(t: string, g: Groups)
    ensures MatchLine(t) == Some(g) <==> IsPreferredMatch(t, g)
  {
    if t != [] && '\n' !in t {
      MatchFromPreferred(t);
      if IsPreferredMatch(t, g) {
        PreferredMatchUnique(t, g, MatchFrom(t, 1));
      }
    } else {
      MatchLineNone(t);
    }
  }

  /** The matcher moves past a position that cannot start the optional groups. */
  lemma MatchFromSkips(t: string, n: nat)
    requires 1 <= n < |t| && t[n] != ' '
    ensures MatchFrom(t, n) == MatchFrom(t, n + 1)
  {
    assert t[n..][0] == t[n];
  }

  /** The matcher stops at the first position whose rest matches the optional groups. */
  lemma MatchFromStops(t: string, n: nat, d: string, l: string)
    requires 1 <= n <= |t| && FreqGroup(d) && PosGroup(l) && t[n..] == d + l
    ensures MatchFrom(t, n) == Groups(t[..n], d, l)
  {
    SplitSuffixComplete(t[n..], d, l);
  }

  /** The optional groups cannot start at two spaces. */
  lemma SplitSuffixDoubleSpace(r: string)
    requires |r| >= 2 && r[0] == ' ' && r[1] == ' '
    ensures SplitSuffix(r).None?
  {
    assert r[1..][0] == r[1];
    assert r[1..][0] == ' ';
  }

  /** The optional groups cannot start at a space and digits followed by two spaces. */
  lemma SplitSuffixDigitsThenSpaces(r: string, k: nat)
    requires 1 <= k && k + 3 <= |r| && r[0] == ' ' && AllDigits(r[1..k + 1]) && r[k + 1] == ' ' && r[k + 2] == ' '
    ensures SplitSuffix(r).None?
  {
    assert r[1..][..k] == r[1..k + 1];
    assert r[1..][k] == r[k + 1];
    DigitRunIs(r[1..], k);
    assert r[..1 + k][1..] == r[1..k + 1];
    assert r[1 + k..][1] == r[k + 2];
  }

  /** A word without spaces, a frequency group, and a tag group. */
  predicate WordFreqTag(w: string, d: string, l: string) {
    && w != [] && ' ' !in w
    && FreqGroup(d) && d != [] && PosGroup(l) && l != []
  }

  /**
   * In a word, a frequency group, a space and a tag group, the lazy text group
   * cannot stop after the word (digits followed by two spaces are no suffix)
   * nor before the doubled space: it takes the frequency and one space, and
   * only the tag group is matched.
   */
  lemma MatchFromDoubleSpaceTag(w: string, d: string, l: string)
    requires WordFreqTag(w, d, l)
    ensures MatchFrom(w + d + [' '] + l, 1) == Groups(w + d + [' '], [], l)
  {
    var t := w + d + [' '] + l;
    var c := |w| + |d| + 1;
    MatchFromSplits(t, 1);
    var g := MatchFrom(t, 1);
    var k := |g.text|;
    assert t[k..] == g.freq + g.pos by {
      ConcatParts(g.text, g.freq, g.pos);
    }
    SplitSuffixComplete(t[k..], g.freq, g.pos);
    if k < c {
      NoSplitBeforeTag(w, d, l, k);
    }
    assert t[c..] == [] + l;
    SplitSuffixComplete(t[c..], [], l);
    if c < k {
      MatchFromFirst(t, 1, c);
    }
    assert t[..c] == w + d + [' '];
  }

  /** Before the tag group, no remainder of the line splits into the optional groups. */
  lemma NoSplitBeforeTag(w: string, d: string, l: string, k: nat)
    requires WordFreqTag(w, d, l) && 1 <= k < |w| + |d| + 1
    ensures SplitSuffix((w + d + [' '] + l)[k..]).None?
  {
    var t := w + d + [' '] + l;
    var a, b := |w|, |w| + |d|;
    var r := t[k..];
    if k < a {
      assert r[0] == w[k];
    } else if k == a {
      assert r == d + [' '] + l;
      assert r[1..|d|] == d[1..];
      SplitSuffixDigitsThenSpaces(r, |d| - 1);
    } else if k < b {
      assert r[0] == d[1..][k - a - 1];
    } else {
      assert r == [' '] + l;
      SplitSuffixDoubleSpace(r);
    }
  }
}
