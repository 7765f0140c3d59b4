/**
 * What `loadDictionary` promises about the whole input: which lines yield
 * tokens and in what order, what each token's fields are, how the token is
 * carried over between lines, and where and how the load stops.
 */
module LoadProperties {
  import opened Wrappers
  import opened Strings
  import opened Pattern
  import opened Dictionary
  import opened LineProperties

  /** The position of the first line at or after `i` whose frequency does not convert, or the number of lines if there is none. */
  function StopFrom(kinds: seq<LineKind>, i: nat): (k: nat)
    requires i <= |kinds|
    ensures i <= k <= |kinds|
    ensures forall n :: i <= n < k ==> !kinds[n].Unconvertible?
    ensures k < |kinds| ==> kinds[k].Unconvertible?
    decreases |kinds| - i
  {
    if i == |kinds| || kinds[i].Unconvertible? then i else StopFrom(kinds, i + 1)
  }

  /**
   * The positions of the lines at or after `i` that yield a token: exactly the
   * entry lines before the stopping point, in increasing order.
   */
  function EntriesFrom(kinds: seq<LineKind>, i: nat): (ps: seq<nat>)
    requires i <= |kinds|
    ensures forall j :: 0 <= j < |ps| ==> i <= ps[j] < StopFrom(kinds, i) && kinds[ps[j]].Entry?
    ensures forall j :: 0 < j < |ps| ==> ps[j - 1] < ps[j]
    ensures forall n :: i <= n < StopFrom(kinds, i) && kinds[n].Entry? ==> n in ps
    decreases |kinds| - i
  {
    if i == |kinds| || kinds[i].Unconvertible? then []
    else (if kinds[i].Entry? then [i] else []) + EntriesFrom(kinds, i + 1)
  }

  /** The token before the j-th emitted one: `first` for the first. */
  function Previous(tokens: seq<Token>, j: nat, first: Token): Token
    requires j <= |tokens|
  {
    if j == 0 then first else tokens[j - 1]
  }

  /**
   * The run from line i emits one token per entry line before the stopping
   * point, each the token that line makes of the token emitted before it, and
   * reports the raw stopping line, if any.
   */
  lemma {:induction false} RunEmitsEntries(kinds: seq<LineKind>, i: nat, c: Token)
    requires i <= |kinds|
    ensures |Run(kinds[i..], c).tokens| == |EntriesFrom(kinds, i)|
    ensures forall j :: 0 <= j < |Run(kinds[i..], c).tokens| ==>
      Run(kinds[i..], c).tokens[j] == Apply(Previous(Run(kinds[i..], c).tokens, j, c), kinds[EntriesFrom(kinds, i)[j]])
    ensures Run(kinds[i..], c).failedLine ==
      if StopFrom(kinds, i) < |kinds| then Some(kinds[StopFrom(kinds, i)].line) else None
    decreases |kinds| - i
  {
    if i == |kinds| {
      assert kinds[i..] == [];
    } else {
      RunStep(kinds, i, c);
      if !kinds[i].Unconvertible? {
        var next := if kinds[i].Entry? then Apply(c, kinds[i]) else c;
        RunEmitsEntries(kinds, i + 1, next);
        if kinds[i].Entry? {
          ChainCons(kinds, c, i, Run(kinds[i + 1..], next).tokens, EntriesFrom(kinds, i + 1));
          assert EntriesFrom(kinds, i) == [i] + EntriesFrom(kinds, i + 1);
          assert Run(kinds[i..], c).tokens == [next] + Run(kinds[i + 1..], next).tokens;
        }
      }
    }
  }

  /** Each token follows from the one before: preserved when an entry's token is put in front. */
  lemma ChainCons(kinds: seq<LineKind>, c: Token, i: nat, r: seq<Token>, ps: seq<nat>)
    requires i < |kinds| && kinds[i].Entry? && |r| == |ps|
    requires forall j :: 0 <= j < |ps| ==> ps[j] < |kinds| && kinds[ps[j]].Entry?
    requires forall j :: 0 <= j < |r| ==> r[j] == Apply(Previous(r, j, Apply(c, kinds[i])), kinds[ps[j]])
    ensures forall j :: 0 <= j < |r| + 1 ==>
      ([Apply(c, kinds[i])] + r)[j] == Apply(Previous([Apply(c, kinds[i])] + r, j, c), kinds[([i] + ps)[j]])
  {
    var r2, ps2 := [Apply(c, kinds[i])] + r, [i] + ps;
    forall j | 0 < j < |r2|
      ensures r2[j] == Apply(r2[j - 1], kinds[ps2[j]])
    {
      assert r2[j] == r[j - 1] && ps2[j] == ps[j - 1];
      assert r2[j - 1] == Previous(r, j - 1, Apply(c, kinds[i]));
    }
  }

  /** The position of the first line whose frequency does not convert, or the number of lines if there is none. */
  function FirstFailure(lines: seq<string>): nat
  {
    StopFrom(Kinds(lines), 0)
  }

  /** The positions of the lines that send a token. */
  function SendingLines(lines: seq<string>): seq<nat>
  {
    EntriesFrom(Kinds(lines), 0)
  }

  /** The first failure is the first line whose frequency does not convert. */
  lemma FirstFailureIs(lines: seq<string>)
    ensures FirstFailure(lines) <= |lines|
    ensures forall n :: 0 <= n < FirstFailure(lines) ==> !Classify(lines[n]).Unconvertible?
    ensures FirstFailure(lines) < |lines| ==> Classify(lines[FirstFailure(lines)]).Unconvertible?
  {
    forall n | 0 <= n < |lines| {
      KindsAt(lines, n);
    }
  }

  /**
   * The lines that send a token are exactly the lines before the first
   * failure that are not skipped, in increasing order.
   */
  lemma SendingLinesAre(lines: seq<string>)
    ensures forall j :: 0 <= j < |SendingLines(lines)| ==>
      SendingLines(lines)[j] < FirstFailure(lines) && Classify(lines[SendingLines(lines)[j]]).Entry?
    ensures forall j :: 0 < j < |SendingLines(lines)| ==> SendingLines(lines)[j - 1] < SendingLines(lines)[j]
    ensures forall n :: 0 <= n < FirstFailure(lines) && Classify(lines[n]).Entry? ==> n in SendingLines(lines)
  {
    forall n | 0 <= n < |lines| {
      KindsAt(lines, n);
    }
  }

  /**
   * Order preservation: the j-th token sent comes from the j-th sending line,
   * and is what that line makes of the token sent before it (of the zero token
   * for the first).
   */
  lemma LoadTokensFollowLines(lines: seq<string>, readError: Option<string>)
    ensures |Load(lines, readError).tokens| == |SendingLines(lines)|
    ensures forall j :: 0 <= j < |Load(lines, readError).tokens| ==>
      var ts := Load(lines, readError).tokens;
      var n := SendingLines(lines)[j];
      n < |lines| && Classify(lines[n]).Entry? && ts[j] == Apply(Previous(ts, j, ZeroToken), Classify(lines[n]))
  {
    var ks := Kinds(lines);
    assert ks[0..] == ks;
    RunEmitsEntries(ks, 0, ZeroToken);
    SendingLinesAre(lines);
    forall j | 0 <= j < |SendingLines(lines)| {
      KindsAt(lines, SendingLines(lines)[j]);
    }
  }

  /**
   * At most one error, and which: the conversion error with the raw text of the
   * first line whose frequency does not convert, or else the scanner's error.
   */
  lemma LoadReportsError(lines: seq<string>, readError: Option<string>)
    ensures Load(lines, readError).err ==
      if FirstFailure(lines) < |lines| then Some(ConversionError(lines[FirstFailure(lines)]))
      else if readError.Some? then Some(ReadError(readError.value))
      else None
  {
    var ks := Kinds(lines);
    assert ks[0..] == ks;
    RunEmitsEntries(ks, 0, ZeroToken);
    if FirstFailure(lines) < |lines| {
      KindsAt(lines, FirstFailure(lines));
      ClassifyUnconvertible(lines[FirstFailure(lines)]);
    }
  }

  /**
   * Each token's text is its line's text group without the first U+FEFF,
   * trimmed; its frequency and tag are its line's groups where present and
   * otherwise those of the token before it (zero and "" for the first token);
   * the tag group is only read when a frequency group is present.
   */
  lemma LoadTokenFields(lines: seq<string>, readError: Option<string>, j: nat)
    requires j < |SendingLines(lines)|
    ensures j < |Load(lines, readError).tokens| && LineMatch(lines[SendingLines(lines)[j]]).Some?
    ensures j < |Load(lines, readError).tokens| &&
      var ts := Load(lines, readError).tokens;
      var g := LineMatch(lines[SendingLines(lines)[j]]).value;
      var prev := Previous(ts, j, ZeroToken);
      && ts[j].text == CleanText(g)
      && (g.freq == [] ==> ts[j].frequency == prev.frequency && ts[j].pos == prev.pos)
      && (g.freq != [] ==> ts[j].frequency == DecimalValue(g.freq[1..]))
      && (g.freq != [] && g.pos == [] ==> ts[j].pos == prev.pos)
      && (g.freq != [] && g.pos != [] ==> ts[j].pos == g.pos[1..])
  {
    LoadTokensFollowLines(lines, readError);
    SendingLinesAre(lines);
    ClassifyEntry(lines[SendingLines(lines)[j]]);
  }

  /** Nothing after the first line that stops the run is looked at. */
  lemma {:induction false} RunIgnoresRest(kinds: seq<LineKind>, more: seq<LineKind>, n: nat, c: Token)
    requires n < |kinds| && kinds[n].Unconvertible?
    ensures Run(kinds + more, c) == Run(kinds, c)
    decreases n
  {
    assert (kinds + more)[0] == kinds[0];
    if !kinds[0].Unconvertible? {
      assert (kinds + more)[1..] == kinds[1..] + more;
      assert kinds[1..][n - 1] == kinds[n];
      RunIgnoresRest(kinds[1..], more, n - 1, if kinds[0].Entry? then Apply(c, kinds[0]) else c);
    }
  }

  lemma {:induction false} KindsAppend(a: seq<string>, b: seq<string>)
    ensures Kinds(a + b) == Kinds(a) + Kinds(b)
  {
    if a != [] {
      assert (a + b)[0] == a[0] && (a + b)[1..] == a[1..] + b;
      KindsAppend(a[1..], b);
    } else {
      assert a + b == b;
    }
  }

  lemma KindsTake(lines: seq<string>, k: nat)
    requires k <= |lines|
    ensures Kinds(lines[..k]) + Kinds(lines[k..]) == Kinds(lines)
    ensures Kinds(lines[..k]) == Kinds(lines)[..k] && Kinds(lines[k..]) == Kinds(lines)[k..]
  {
    assert lines[..k] + lines[k..] == lines;
    KindsAppend(lines[..k], lines[k..]);
    SplitParts(Kinds(lines[..k]), Kinds(lines[k..]));
  }

  lemma SplitParts(x: seq<LineKind>, y: seq<LineKind>)
    ensures (x + y)[..|x|] == x && (x + y)[|x|..] == y
  {
  }

  /**
   * Early termination: once a line's frequency fails to convert, the lines
   * after it and the scanner's error make no difference to the load.
   */
  lemma LoadStopsAtFirstFailure(lines: seq<string>, readError: Option<string>, rest: seq<string>, otherError: Option<string>)
    requires FirstFailure(lines) < |lines|
    ensures Load(lines[..FirstFailure(lines) + 1] + rest, otherError) == Load(lines, readError)
  {
    var k := FirstFailure(lines);
    var ks := Kinds(lines);
    KindsAppend(lines[..k + 1], rest);
    KindsTake(lines, k + 1);
    RunStopsAt(ks, k, Kinds(rest));
    assert ks[0..] == ks;
    RunEmitsEntries(ks, 0, ZeroToken);
  }

  /** The run up to and including a failing line, followed by anything, is the whole run. */
  lemma RunStopsAt(kinds: seq<LineKind>, k: nat, more: seq<LineKind>)
    requires k < |kinds| && kinds[k].Unconvertible?
    ensures Run(kinds[..k + 1] + more, ZeroToken) == Run(kinds, ZeroToken)
  {
    assert kinds[..k + 1] + kinds[k + 1..] == kinds;
    RunIgnoresRest(kinds[..k + 1], more, k, ZeroToken);
    RunIgnoresRest(kinds[..k + 1], kinds[k + 1..], k, ZeroToken);
  }

  /** A skipped line anywhere in the run changes nothing. */
  lemma {:induction false} RunIgnoresSkip(before: seq<LineKind>, after: seq<LineKind>, c: Token)
    ensures Run(before + [Skip] + after, c) == Run(before + after, c)
    decreases |before|
  {
    var ks, ks' := before + [Skip] + after, before + after;
    if before == [] {
      assert ks[1..] == after && ks' == after;
    } else {
      assert ks[0] == ks'[0] == before[0];
      assert ks[1..] == before[1..] + [Skip] + after;
      assert ks'[1..] == before[1..] + after;
      if !before[0].Unconvertible? {
        RunIgnoresSkip(before[1..], after, if before[0].Entry? then Apply(c, before[0]) else c);
      }
    }
  }

  /** A blank line anywhere in the input changes nothing. */
  lemma LoadIgnoresBlankLine(before: seq<string>, blank: string, after: seq<string>, readError: Option<string>)
    requires AllSpace(blank)
    ensures Load(before + [blank] + after, readError) == Load(before + after, readError)
  {
    assert Kinds([blank]) == [Skip] by {
      ClassifySkip(blank);
      assert [blank][1..] == [];
    }
    KindsAppend(before + [blank], after);
    KindsAppend(before, [blank]);
    KindsAppend(before, after);
    RunIgnoresSkip(Kinds(before), Kinds(after), ZeroToken);
  }

  /** Streaming: the tokens sent for the first lines of the input stay a prefix of everything sent. */
  lemma {:induction false} RunExtends(kinds: seq<LineKind>, more: seq<LineKind>, c: Token)
    ensures Run(kinds, c).tokens <= Run(kinds + more, c).tokens
    decreases |kinds|
  {
    if kinds != [] {
      assert (kinds + more)[0] == kinds[0];
      assert (kinds + more)[1..] == kinds[1..] + more;
      if !kinds[0].Unconvertible? {
        RunExtends(kinds[1..], more, if kinds[0].Entry? then Apply(c, kinds[0]) else c);
      }
    }
  }

  /** Tokens already sent after k lines are never taken back by the lines that follow. */
  lemma LoadDeliversInOrder(lines: seq<string>, k: nat, readError: Option<string>, e: Option<string>)
    requires k <= |lines|
    ensures Load(lines[..k], e).tokens <= Load(lines, readError).tokens
  {
    KindsTake(lines, k);
    assert Kinds(lines)[..k] + Kinds(lines)[k..] == Kinds(lines);
    RunExtends(Kinds(lines)[..k], Kinds(lines)[k..], ZeroToken);
  }

  /**
   * Carry-over across lines: the second line keeps the tag of the first, and
   * the third keeps both the frequency and the tag of the second. The lines
   * are a parameter equal to the literal, so that the verifier does not
   * unfold the load over a literal argument.
   */
  lemma LoadCarryOverExample(lines: seq<string>)
    requires lines == ["apple 120 n", "banana 50", "cherry"]
    ensures Load(lines, None) ==
      Loaded([Token("apple", 120, "n"), Token("banana", 50, "n"), Token("cherry", 50, "n")], None)
  {
    ClassifyFullEntry(lines[0]);
    ClassifyFrequencyOnly(lines[1]);
    ClassifyBareWord(lines[2]);
    KindsOfThree(lines);
    RunCarryOverExample();
  }

  lemma KindsOfThree(lines: seq<string>)
    requires |lines| == 3
    ensures Kinds(lines) == [Classify(lines[0]), Classify(lines[1]), Classify(lines[2])]
  {
    KindsAt(lines, 0);
    KindsAt(lines, 1);
    KindsAt(lines, 2);
  }

  lemma RunCarryOverExample()
    ensures Run([Entry("apple", Some(120), Some("n")), Entry("banana", Some(50), None), Entry("cherry", None, None)], ZeroToken) ==
      Partial([Token("apple", 120, "n"), Token("banana", 50, "n"), Token("cherry", 50, "n")], None)
  {
    var ks := [Entry("apple", Some(120), Some("n")), Entry("banana", Some(50), None), Entry("cherry", None, None)];
    assert ks[1..] == [ks[1], ks[2]] && ks[1..][1..] == [ks[2]] && ks[1..][1..][1..] == [];
  }
}
