/**
 * The dictionary loader of jiebago (dictionary/dictionary.go): each line of a
 * dictionary file is trimmed, matched against `dict_reg`, and turned into a
 * token; the loop stops at the first frequency that does not convert, and
 * otherwise reports the scanner's error, if any, after the last line.
 *
 * The goroutine and its two channels are replaced by a sequence of emitted
 * tokens and at most one error; the scanner by the sequence of lines it yields
 * and the error `scanner.Err()` reports after them.
 */
module Dictionary {
  import opened Wrappers
  import opened Strings
  import opened Pattern

  /**
   * A dictionary entry. The source's frequency is a float64; here it is the
   * exact value of the digit run it was converted from.
   */
  datatype Token = Token(text: string, frequency: nat, pos: string)

  /** The zero value of the token the loop starts from. */
  const ZeroToken := Token("", 0, "")

  /** The one error a load reports: a frequency that does not convert (with the raw line), or the scanner's error. */
  datatype LoadError = ConversionError(line: string) | ReadError(cause: string)

  /** 2^1024 - 2^970: the least value that a float64 conversion rounds to infinity. */
  const Float64Overflow: nat := 179769313486231580793728971405303415079934132710037826936173778980444968292764750946649017977587207096330286416692887910946555547851940402630657488671505820681908902000708383676273854845817711531764475730270069855571366959622842914819860834936475292719074168444365510704342711559699508093042880177904174497792

  /** The value of a decimal digit string. */
  function DecimalValue(d: string): nat
    requires AllDigits(d)
  {
    if d == [] then 0 else 10 * DecimalValue(d[..|d| - 1]) + (d[|d| - 1] as int - '0' as int)
  }

  /**
   * `strconv.ParseFloat(s, 64)` on a non-empty digit run: the value, or a range
   * error when it rounds beyond the largest float64.
   */
  function ParseFloat(s: string): (r: Option<nat>)
    requires s != [] && AllDigits(s)
  {
    if DecimalValue(s) < Float64Overflow then Some(DecimalValue(s)) else None
  }

  function Pow10(n: nat): (p: nat)
    ensures p >= 1
  {
    if n == 0 then 1 else 10 * Pow10(n - 1)
  }

  /** A run of n digits is worth less than 10^n, and at least 10^(n-1) when it does not start with 0. */
  lemma {:induction false} DecimalValueBounds(d: string)
    requires AllDigits(d)
    ensures DecimalValue(d) < Pow10(|d|)
    ensures d != [] && d[0] != '0' ==> Pow10(|d| - 1) <= DecimalValue(d)
  {
    if d != [] {
      var init := d[..|d| - 1];
      DecimalValueBounds(init);
      if |d| > 1 {
        assert init[0] == d[0];
      }
    }
  }

  lemma Pow10Doubles(n: nat)
    ensures Pow10(2 * n) == Pow10(n) * Pow10(n)
    ensures Pow10(2 * n + 1) == 10 * Pow10(n) * Pow10(n)
  {
    Pow10Add(n, n);
  }

  lemma {:induction false} Pow10Add(a: nat, b: nat)
    ensures Pow10(a + b) == Pow10(a) * Pow10(b)
  {
    if b > 0 {
      Pow10Add(a, b - 1);
    }
  }

  /**
   * 10^308 < 2^1024 - 2^970 < 10^309. The exponent is a parameter, rather than
   * the literal 308, so that the verifier does not unfold Pow10 308 times.
   */
  lemma OverflowBetweenPowers(n: nat)
    requires n == 308
    ensures Pow10(n) < Float64Overflow < Pow10(n + 1)
  {
    Pow10At308();
  }

  lemma Pow10At1()
    ensures Pow10(1) == 10
  {
    assert Pow10(0) == 1;
  }

  lemma Pow10At2()
    ensures Pow10(2) == 100
  {
    Pow10At1();
    Pow10Doubles(1);
  }

  lemma Pow10At4()
    ensures Pow10(4) == 10000
  {
    Pow10At2();
    Pow10Doubles(2);
  }

  lemma Pow10At9()
    ensures Pow10(9) == 1000000000
  {
    Pow10At4();
    Pow10Doubles(4);
  }

  lemma Pow10At19()
    ensures Pow10(19) == 10000000000000000000
  {
    Pow10At9();
    Pow10Doubles(9);
  }

  lemma Pow10At38()
    ensures Pow10(38) == 100000000000000000000000000000000000000
  {
    Pow10At19();
    Pow10Doubles(19);
  }

  lemma Pow10At77()
    ensures Pow10(77) == 100000000000000000000000000000000000000000000000000000000000000000000000000000
  {
    Pow10At38();
    Pow10Doubles(38);
  }

  lemma Pow10At154()
    ensures Pow10(154) == 10000000000000000000000000000000000000000000000000000000000000000000000000000000000000000000000000000000000000000000000000000000000000000000000000000000000
  {
    Pow10At77();
    Pow10Doubles(77);
  }

  lemma Pow10At308()
    ensures Pow10(308) == 100000000000000000000000000000000000000000000000000000000000000000000000000000000000000000000000000000000000000000000000000000000000000000000000000000000000000000000000000000000000000000000000000000000000000000000000000000000000000000000000000000000000000000000000000000000000000000000000000000000000000000000
  {
    Pow10At154();
    Pow10Doubles(154);
  }

  /**
   * Every frequency of at most 308 digits converts; one of 310 digits or more
   * that does not start with 0 is out of float64's range.
   */
  lemma ParseFloatRange(s: string)
    requires s != [] && AllDigits(s)
    ensures |s| <= 308 ==> ParseFloat(s).Some?
    ensures |s| >= 310 && s[0] != '0' ==> ParseFloat(s).None?
  {
    // A variable rather than the literal, so that Pow10(308) is not unfolded.
    var n: nat :| n == 308;
    DecimalValueBounds(s);
    OverflowBetweenPowers(n);
    if |s| <= n {
      Pow10Grows(|s|, n);
    } else if |s| > n + 1 {
      Pow10Grows(n + 1, |s| - 1);
    }
  }

  lemma {:induction false} Pow10Grows(a: nat, b: nat)
    requires a <= b
    ensures Pow10(a) <= Pow10(b)
    decreases b
  {
    if a < b {
      Pow10Grows(a, b - 1);
    }
  }

  /** A group that took part in the match, trimmed, loses only its leading space. */
  lemma GroupTrim(s: string)
    requires s != [] && (FreqGroup(s) || PosGroup(s))
    ensures TrimSpace(s) == s[1..]
  {
    assert s[1..|s|] == s[1..];
    TrimSpaceUnique(s, 1, |s|);
  }

  /**
   * What the loop body makes of one line, whatever token it carries in: skip the
   * line, stop with the raw line because its frequency does not convert, or
   * write the fields that are present into the token. The tag is only read when
   * a frequency is present.
   */
  datatype LineKind =
    | Skip
    | Unconvertible(line: string)
    | Entry(text: string, frequency: Option<nat>, pos: Option<string>)

  /** The groups of a raw line, matched after trimming, or None when the line is skipped. */
  function LineMatch(line: string): (o: Option<Groups>)
    ensures o.Some? ==> IsMatch(TrimSpace(line), o.value)
  {
    var t := TrimSpace(line);
    if t == [] || '\n' in t then None else MatchFromIsMatch(t); MatchLine(t)
  }

  /** The token text a matched line yields: the text group without its first U+FEFF, trimmed. */
  function CleanText(g: Groups): string {
    TrimSpace(RemoveFirst(g.text, Bom))
  }

  /** The per-line part of the loop body: the match and the conversion of its groups. */
  function Classify(line: string): LineKind
  {
    match LineMatch(line)
    case None => Skip
    case Some(g) =>
      if g.freq == [] then Entry(CleanText(g), None, None)
      else
        GroupTrim(g.freq);
        match ParseFloat(TrimSpace(g.freq))
        case None => Unconvertible(line)
        case Some(f) =>
          Entry(CleanText(g), Some(f), if g.pos == [] then None else (GroupTrim(g.pos); Some(TrimSpace(g.pos))))
  }

  /** The token after an entry line: the text always overwritten, frequency and tag only when present. */
  function Apply(carry: Token, e: LineKind): Token
    requires e.Entry?
  {
    Token(
      e.text,
      if e.frequency.Some? then e.frequency.value else carry.frequency,
      if e.pos.Some? then e.pos.value else carry.pos)
  }

  /** Every line of the input, classified. */
  function Kinds(lines: seq<string>): (ks: seq<LineKind>)
    ensures |ks| == |lines|
  {
    if lines == [] then [] else [Classify(lines[0])] + Kinds(lines[1..])
  }

  /** The n-th classified line is the classification of the n-th line. */
  lemma {:induction false} KindsAt(lines: seq<string>, n: nat)
    requires n < |lines|
    ensures Kinds(lines)[n] == Classify(lines[n])
  {
    if n > 0 {
      KindsAt(lines[1..], n - 1);
    }
  }

  /** The tokens emitted so far, and the raw line the run stopped at, if it stopped. */
  datatype Partial = Partial(tokens: seq<Token>, failedLine: Option<string>)

  /** The loop over the classified lines `kinds`, starting with token `carry`. */
  function Run(kinds: seq<LineKind>, carry: Token): Partial
    decreases |kinds|
  {
    if kinds == [] then Partial([], None)
    else match kinds[0]
      case Skip => Run(kinds[1..], carry)
      case Unconvertible(line) => Partial([], Some(line))
      case Entry(_, _, _) =>
        var t := Apply(carry, kinds[0]);
        var rest := Run(kinds[1..], t);
        Partial([t] + rest.tokens, rest.failedLine)
  }

  /** One step of Run, taken at position i of `kinds`. */
  lemma RunStep(kinds: seq<LineKind>, i: nat, carry: Token)
    requires i < |kinds|
    ensures Run(kinds[i..], carry) ==
      match kinds[i]
      case Skip => Run(kinds[i + 1..], carry)
      case Unconvertible(line) => Partial([], Some(line))
      case Entry(_, _, _) =>
        Partial([Apply(carry, kinds[i])] + Run(kinds[i + 1..], Apply(carry, kinds[i])).tokens,
          Run(kinds[i + 1..], Apply(carry, kinds[i])).failedLine)
  {
    assert kinds[i..][0] == kinds[i] && kinds[i..][1..] == kinds[i + 1..];
  }

  lemma AppendAssoc(a: seq<Token>, t: Token, b: seq<Token>)
    ensures (a + [t]) + b == a + ([t] + b)
  {
  }

  /** What a load reports: the tokens sent on the token channel, and what is sent on the error channel. */
  datatype Loaded = Loaded(tokens: seq<Token>, err: Option<LoadError>)

  /** `loadDictionary` on the lines a scanner yields, followed by the scanner's error `readError`. */
  function Load(lines: seq<string>, readError: Option<string>): Loaded
  {
    Finish(Run(Kinds(lines), ZeroToken), readError)
  }

  /** The conversion error, when the run stopped; otherwise the scanner's error. */
  function Finish(r: Partial, readError: Option<string>): Loaded
  {
    Loaded(r.tokens,
      if r.failedLine.Some? then Some(ConversionError(r.failedLine.value))
      else if readError.Some? then Some(ReadError(readError.value))
      else None)
  }

  /**
   * The loop of `loadDictionary`: one token value carried across lines, each
   * non-skipped line appending it to the output, and an early return on the
   * first conversion failure.
   */
  method LoadDictionary(lines: seq<string>, readError: Option<string>) returns (tokens: seq<Token>, err: Option<LoadError>)
    ensures Loaded(tokens, err) == Load(lines, readError)
  {
    tokens := [];
    var token := ZeroToken;
    ghost var kinds := Kinds(lines);
    ghost var whole := Run(kinds, ZeroToken);
    assert kinds[0..] == kinds;
    for i := 0 to |lines|
      invariant whole == Partial(tokens + Run(kinds[i..], token).tokens, Run(kinds[i..], token).failedLine)
    {
      var line := lines[i];
      KindsAt(lines, i);
      RunStep(kinds, i, token);
      var next, outcome := HandleLine(token, line);
      if outcome == SkipLine {
        continue;
      } else if outcome == StopLoad {
        err := Some(ConversionError(line));
        assert whole == Partial(tokens, Some(line));
        return;
      }
      AppendAssoc(tokens, next, Run(kinds[i + 1..], next).tokens);
      token := next;
      tokens := tokens + [token];
    }
    assert kinds[|lines|..] == [];
    assert whole == Partial(tokens, None);
    err := if readError.Some? then Some(ReadError(readError.value)) else None;
  }

  /** How the loop body ends for one line. */
  datatype Status = SkipLine | StopLoad | SendToken

  /**
   * The loop body for one line: the fields of `token` are overwritten one by
   * one, the frequency and the tag only when their groups are present.
   */
  method HandleLine(token: Token, line: string) returns (next: Token, status: Status)
    ensures status == SkipLine <==> Classify(line) == Skip
    ensures status == StopLoad <==> Classify(line) == Unconvertible(line)
    ensures status == SendToken <==> Classify(line).Entry?
    ensures status == SendToken ==> next == Apply(token, Classify(line))
  {
    next := token;
    var fields := LineMatch(line);
    if fields.None? {
      return next, SkipLine;
    }
    var g := fields.value;
    next := next.(text := TrimSpace(RemoveFirst(g.text, Bom)));
    if g.freq != [] {
      GroupTrim(g.freq);
      var frequency := ParseFloat(TrimSpace(g.freq));
      if frequency.None? {
        return next, StopLoad;
      }
      next := next.(frequency := frequency.value);
      if g.pos != [] {
        GroupTrim(g.pos);
        next := next.(pos := TrimSpace(g.pos));
      }
    }
    status := SendToken;
  }
}
