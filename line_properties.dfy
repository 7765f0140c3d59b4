/**
 * What the loop body of `loadDictionary` makes of a single line, stated in
 * terms of the groups of its preferred match.
 */
module LineProperties {
  import opened Wrappers
  import opened Strings
  import opened Pattern
  import opened Dictionary

  /** A line is skipped exactly when it is blank, or its trimmed text still holds a line break. */
  lemma ClassifySkip(line: string)
    ensures Classify(line) == Skip <==> AllSpace(line) || '\n' in TrimSpace(line)
    ensures Classify(line) == Skip <==> LineMatch(line).None?
  {
    MatchLineNone(TrimSpace(line));
  }

  /** The groups a line is split into are those of the preferred match of its trimmed text. */
  lemma LineMatchIsPreferred(line: string, g: Groups)
    ensures LineMatch(line) == Some(g) <==> IsPreferredMatch(TrimSpace(line), g)
  {
    MatchLineIsPreferred(TrimSpace(line), g);
  }

  /**
   * White space at the two ends of a line changes neither its groups nor what
   * the loop makes of it. This covers the line's ends only: white space
   * between the fields does change the groups (ClassifyDoubleSpace).
   */
  lemma LineMatchIgnoresSurroundingSpace(a: string, line: string, b: string)
    requires AllSpace(a) && AllSpace(b)
    ensures LineMatch(a + line + b) == LineMatch(line)
    ensures Classify(a + line + b).Entry? ==> Classify(a + line + b) == Classify(line)
  {
    TrimSpaceSurrounded(a, line, b);
  }

  /**
   * A line stops the load exactly when it has a frequency group whose value
   * does not fit a float64; the error then carries the raw line.
   */
  lemma ClassifyUnconvertible(line: string)
    ensures Classify(line).Unconvertible? <==>
      && LineMatch(line).Some?
      && LineMatch(line).value.freq != []
      && DecimalValue(LineMatch(line).value.freq[1..]) >= Float64Overflow
    ensures Classify(line).Unconvertible? ==> Classify(line).line == line
  {
    var o := LineMatch(line);
    if o.Some? && o.value.freq != [] {
      GroupTrim(o.value.freq);
    }
  }

  /**
   * A matched line whose frequency converts yields a token: its text is the
   * text group cleaned; its frequency is present exactly when the frequency
   * group is, with the group's value; its tag is present exactly when both
   * the frequency group and the tag group are, without the leading space.
   */
  lemma ClassifyEntry(line: string)
    ensures Classify(line).Entry? ==>
      var g := LineMatch(line).value;
      var e := Classify(line);
      && e.text == CleanText(g)
      && e.frequency == (if g.freq == [] then None else Some(DecimalValue(g.freq[1..])))
      && e.pos == (if g.freq == [] || g.pos == [] then None else Some(g.pos[1..]))
  {
    var o := LineMatch(line);
    if o.Some? {
      var g := o.value;
      if g.freq == [] {
        assert Classify(line) == Entry(CleanText(g), None, None);
      } else {
        GroupTrim(g.freq);
        var f := ParseFloat(g.freq[1..]);
        if f.Some? {
          assert f.value == DecimalValue(g.freq[1..]);
          if g.pos != [] {
            GroupTrim(g.pos);
            assert Classify(line) == Entry(CleanText(g), f, Some(g.pos[1..]));
          } else {
            assert Classify(line) == Entry(CleanText(g), f, None);
          }
        }
      }
    }
  }

  /** A line yields a token exactly when it matches and any frequency it has converts. */
  lemma ClassifyEntryWhen(line: string)
    ensures Classify(line).Entry? <==>
      && LineMatch(line).Some?
      && (LineMatch(line).value.freq == [] || DecimalValue(LineMatch(line).value.freq[1..]) < Float64Overflow)
  {
    var o := LineMatch(line);
    if o.Some? && o.value.freq != [] {
      GroupTrim(o.value.freq);
    }
  }

  /** A byte order mark at the head of the text group is dropped, and when it is the only one the text holds none. */
  lemma CleanTextDropsBom(g: Groups, w: string)
    requires g.text == [Bom] + w
    ensures CleanText(g) == TrimSpace(w)
    ensures Bom !in w ==> Bom !in CleanText(g)
  {
    assert IndexOf(g.text, Bom) == 0;
    assert RemoveFirst(g.text, Bom) == w by {
      assert g.text[..0] + g.text[1..] == w;
    }
    if Bom !in w {
      TrimSpaceKeeps(w, Bom);
    }
  }

  /** A text group without a byte order mark, and not starting or ending with white space, is its own token text. */
  lemma CleanWord(g: Groups)
    requires g.text != [] && Bom !in g.text && !IsSpace(g.text[0]) && !IsSpace(g.text[|g.text| - 1])
    ensures CleanText(g) == g.text
  {
    assert g.text[..0] == [] && g.text[|g.text|..] == [] && g.text[0..|g.text|] == g.text;
    TrimSpaceUnique(g.text, 0, |g.text|);
  }

  /** A line that is its own trimmed text. */
  lemma LineMatchTrimmed(t: string)
    requires t != [] && !IsSpace(t[0]) && !IsSpace(t[|t| - 1]) && '\n' !in t
    ensures LineMatch(t) == Some(MatchFrom(t, 1))
  {
    assert t[..0] == [] && t[|t|..] == [] && t[0..|t|] == t;
    TrimSpaceUnique(t, 0, |t|);
  }

  lemma {:induction false} MatchFromWord(w: string, d: string, l: string, n: nat)
    requires 1 <= n <= |w| && forall i :: 0 <= i < |w| ==> !IsSpace(w[i])
    requires FreqGroup(d) && PosGroup(l)
    ensures MatchFrom(w + d + l, n) == Groups(w, d, l)
    decreases |w| - n
  {
    var t := w + d + l;
    if n == |w| {
      assert t[n..] == d + l && t[..n] == w;
      MatchFromStops(t, n, d, l);
    } else {
      assert t[n] == w[n];
      MatchFromSkips(t, n);
      MatchFromWord(w, d, l, n + 1);
    }
  }

  /**
   * A line made of one word without white space followed by the optional
   * groups is split right after the word.
   */
  lemma LineMatchWord(w: string, d: string, l: string)
    requires w != [] && forall i :: 0 <= i < |w| ==> !IsSpace(w[i])
    requires FreqGroup(d) && PosGroup(l)
    ensures LineMatch(w + d + l) == Some(Groups(w, d, l))
  {
    var t := w + d + l;
    assert t[0] == w[0];
    assert !IsSpace(t[|t| - 1]) by {
      if l != [] {
        assert t[|t| - 1] == l[|l| - 1] && IsLower(l[1..][|l| - 2]);
      } else if d != [] {
        assert t[|t| - 1] == d[|d| - 1] && IsDigit(d[1..][|d| - 2]);
      } else {
        assert t[|t| - 1] == w[|w| - 1];
      }
    }
    assert '\n' !in t by {
      forall i | 0 <= i < |t|
        ensures t[i] != '\n'
      {
        if i < |w| {
          assert t[i] == w[i];
        } else if i < |w| + |d| {
          assert t[i] == d[i - |w|];
          if i > |w| { assert d[i - |w|] == d[1..][i - |w| - 1]; }
        } else {
          assert t[i] == l[i - |w| - |d|];
          if i > |w| + |d| { assert l[i - |w| - |d|] == l[1..][i - |w| - |d| - 1]; }
        }
      }
    }
    LineMatchTrimmed(t);
    MatchFromWord(w, d, l, 1);
  }

  /**
   * A line made of one word followed by the optional groups yields the word as
   * its text, the frequency group's value when present, and the tag group when
   * both groups are present.
   */
  lemma ClassifyWordLine(w: string, d: string, l: string)
    requires w != [] && Bom !in w && forall i :: 0 <= i < |w| ==> !IsSpace(w[i])
    requires FreqGroup(d) && PosGroup(l)
    requires d != [] ==> DecimalValue(d[1..]) < Float64Overflow
    ensures Classify(w + d + l) ==
      Entry(w, if d == [] then None else Some(DecimalValue(d[1..])), if d == [] || l == [] then None else Some(l[1..]))
  {
    CleanWord(Groups(w, d, l));
    LineMatchWord(w, d, l);
    ClassifyEntryWhen(w + d + l);
    ClassifyEntry(w + d + l);
  }

  // The examples below take the line as a parameter equal to the literal,
  // rather than naming the literal in their ensures, so that the verifier
  // does not unfold the matcher over a literal argument.

  /** A full entry: text, frequency and tag. */
  lemma ClassifyFullEntry(line: string)
    requires line == "apple 120 n"
    ensures Classify(line) == Entry("apple", Some(120), Some("n"))
  {
    var w, d, l := "apple", " 120", " n";
    assert w + d + l == line;
    assert d[1..] == "120" && l[1..] == "n";
    assert DecimalValue("120") == 120 by {
      assert "120"[..2] == "12" && "12"[..1] == "1" && "1"[..0] == "";
    }
    ClassifyWordLine(w, d, l);
  }

  /** A frequency without a tag. */
  lemma ClassifyFrequencyOnly(line: string)
    requires line == "banana 50"
    ensures Classify(line) == Entry("banana", Some(50), None)
  {
    var w, d, l := "banana", " 50", "";
    assert w + d + l == line;
    assert d[1..] == "50";
    assert DecimalValue("50") == 50 by {
      assert "50"[..1] == "5" && "5"[..0] == "";
    }
    ClassifyWordLine(w, d, l);
  }

  /** A bare word: only the text is present. */
  lemma ClassifyBareWord(line: string)
    requires line == "cherry"
    ensures Classify(line) == Entry("cherry", None, None)
  {
    var w, d, l := "cherry", "", "";
    assert w + d + l == line;
    ClassifyWordLine(w, d, l);
  }

  /**
   * The text group is the shortest one that lets the rest match: in a line
   * without a frequency, a final lower-case word is taken as the tag group,
   * which is then never read.
   */
  lemma ClassifyWordPair(line: string)
    requires line == "hello world"
    ensures LineMatch(line) == Some(Groups("hello", "", " world"))
    ensures Classify(line) == Entry("hello", None, None)
  {
    MatchWordPair(line);
    var w, d, l := "hello", "", " world";
    assert w + d + l == line;
    assert l[1..] == "world";
    ClassifyWordLine(w, d, l);
  }

  lemma MatchWordPair(line: string)
    requires line == "hello world"
    ensures LineMatch(line) == Some(Groups("hello", "", " world"))
  {
    var w, d, l := "hello", "", " world";
    assert w + d + l == line;
    assert l[1..] == "world";
    LineMatchWord(w, d, l);
  }

  /** Such a line is its own trimmed text, so its groups are those MatchFromDoubleSpaceTag finds. */
  lemma LineMatchDoubleSpaceTag(w: string, d: string, l: string)
    requires WordFreqTag(w, d, l) && forall i :: 0 <= i < |w| ==> !IsSpace(w[i])
    ensures LineMatch(w + d + [' '] + l) == Some(Groups(w + d + [' '], [], l))
  {
    var t := w + d + [' '] + l;
    var a, b, c := |w|, |w| + |d|, |w| + |d| + 1;
    assert t[0] == w[0];
    assert t[|t| - 1] == l[1..][|l| - 2];
    assert '\n' !in t by {
      forall i | 0 <= i < |t| ensures t[i] != '\n' {
        if i < a {
          assert t[i] == w[i];
        } else if a < i < b {
          assert t[i] == d[1..][i - a - 1];
        } else if c < i {
          assert t[i] == l[1..][i - c - 1];
        }
      }
    }
    LineMatchTrimmed(t);
    MatchFromDoubleSpaceTag(w, d, l);
  }

  /**
   * A doubled space before the tag: the line yields the word and the
   * frequency as its text, and neither a frequency nor a tag, so both are
   * carried over from the previous token.
   */
  lemma ClassifyDoubleSpaceTag(w: string, d: string, l: string)
    requires WordFreqTag(w, d, l) && Bom !in w && forall i :: 0 <= i < |w| ==> !IsSpace(w[i])
    ensures Classify(w + d + [' '] + l) == Entry(w + d, None, None)
  {
    var t := w + d + [' '] + l;
    LineMatchDoubleSpaceTag(w, d, l);
    CleanWordFreq(w, d, l);
    ClassifyEntryWhen(t);
    ClassifyEntry(t);
  }

  /** The text group `w + d + " "` is cleaned to `w + d`. */
  lemma CleanWordFreq(w: string, d: string, l: string)
    requires WordFreqTag(w, d, l) && Bom !in w && forall i :: 0 <= i < |w| ==> !IsSpace(w[i])
    ensures CleanText(Groups(w + d + [' '], [], l)) == w + d
  {
    var s := w + d + [' '];
    var b := |w| + |d|;
    assert Bom !in s by {
      forall i | 0 <= i < |s| ensures s[i] != Bom {
        if i < |w| {
          assert s[i] == w[i];
        } else if |w| < i < b {
          assert s[i] == d[1..][i - |w| - 1];
        }
      }
    }
    assert s[0] == w[0] && s[b - 1] == d[1..][|d| - 2];
    assert s[..0] == [] && s[b..] == [' '] && s[0..b] == w + d;
    TrimSpaceUnique(s, 0, b);
  }

  /** `apple 120  n` yields the text `apple 120` and no frequency or tag. */
  lemma ClassifyDoubleSpace(line: string)
    requires line == "apple 120  n"
    ensures LineMatch(line) == Some(Groups("apple 120 ", "", " n"))
    ensures Classify(line) == Entry("apple 120", None, None)
  {
    MatchDoubleSpace(line);
    var w, d, l := "apple", " 120", " n";
    assert w + d + [' '] + l == line;
    assert w + d == "apple 120";
    ClassifyDoubleSpaceTag(w, d, l);
  }

  lemma MatchDoubleSpace(line: string)
    requires line == "apple 120  n"
    ensures LineMatch(line) == Some(Groups("apple 120 ", "", " n"))
  {
    var w, d, l := "apple", " 120", " n";
    assert w + d + [' '] + l == line;
    assert w + d + [' '] == "apple 120 ";
    LineMatchDoubleSpaceTag(w, d, l);
  }


  /** A line holding only a byte order mark yields a token with empty text. */
  lemma ClassifyBomOnly(line: string)
    requires line == [Bom]
    ensures LineMatch(line) == Some(Groups(line, "", ""))
    ensures Classify(line) == Entry("", None, None)
  {
    assert !IsSpace(Bom);
    LineMatchTrimmed(line);
    assert MatchFrom(line, 1) == Groups(line, "", "") by {
      assert line[1..] == [] && line[..1] == line;
    }
    CleanTextDropsBom(Groups(line, "", ""), []);
    ClassifyEntryWhen(line);
    ClassifyEntry(line);
  }

  /** The optional groups cannot start at a space followed by digits that run into a letter. */
  lemma SplitSuffixDigitsThenLetter(r: string)
    requires |r| >= 3 && r[0] == ' ' && IsDigit(r[1]) && IsLower(r[2])
    ensures SplitSuffix(r).None?
  {
    DigitRunIs(r[1..], 1);
    assert r[..2][1..] == [r[1]];
    assert r[2..][0] == r[2];
  }

  lemma MatchFromDigitLetter(t: string)
    requires t == "grape 1a"
    ensures MatchFrom(t, 1) == Groups(t, "", "")
  {
    MatchFromSkips(t, 1);
    MatchFromSkips(t, 2);
    MatchFromSkips(t, 3);
    MatchFromSkips(t, 4);
    assert t[5..] == " 1a";
    SplitSuffixDigitsThenLetter(t[5..]);
    assert MatchFrom(t, 5) == MatchFrom(t, 6);
    MatchFromSkips(t, 6);
    MatchFromSkips(t, 7);
    assert t[8..] == "" + "" && t[..8] == t;
    MatchFromStops(t, 8, "", "");
  }

  /**
   * A frequency field with a letter in it is not a frequency group: the whole
   * line is the text group, and the line still yields a token rather than
   * being skipped.
   */
  lemma ClassifyDigitLetter(line: string)
    requires line == "grape 1a"
    ensures LineMatch(line) == Some(Groups(line, "", ""))
    ensures Classify(line) == Entry(line, None, None)
  {
    MatchDigitLetter(line);
    assert Bom !in line && !IsSpace(line[0]) && !IsSpace(line[|line| - 1]);
    ClassifyWholeText(line);
  }

  lemma MatchDigitLetter(line: string)
    requires line == "grape 1a"
    ensures LineMatch(line) == Some(Groups(line, "", ""))
  {
    MatchFromDigitLetter(line);
    LineMatchTrimmed(line);
  }

  /** A line that is its own text group, with no byte order mark, is its own token text. */
  lemma ClassifyWholeText(line: string)
    requires LineMatch(line) == Some(Groups(line, "", ""))
    requires Bom !in line && !IsSpace(line[0]) && !IsSpace(line[|line| - 1])
    ensures Classify(line) == Entry(line, None, None)
  {
    CleanWord(Groups(line, "", ""));
    ClassifyEntryWhen(line);
    ClassifyEntry(line);
  }
}
