# jiebago dictionary loader, in Dafny

This project models the dictionary loader of jiebago (`dictionary/dictionary.go`)
and proves what it does with a dictionary file. The loader reads a file line by
line. It trims each line and matches it against `^(.+?)( [0-9]+)?( [a-z]+)?$`.
From the groups it fills in one `Token` (text, frequency, part-of-speech tag)
and sends it on a channel. It stops at the first frequency that does not
convert, and otherwise reports the scanner's error, if any, after the last line.

Modules:

- `Strings` (`strings.dfy`): Go's `strings.TrimSpace` (with `unicode.IsSpace`)
  and `strings.Replace` removing the first U+FEFF.
- `Pattern` (`pattern.dfy`): the regular expression, as a hand-written matcher
  `MatchLine`. It is proved to return exactly the match Go's leftmost-first
  semantics picks: the one with the shortest text group.
- `Dictionary` (`dictionary.dfy`): the parts of the loop body that depend only on
  the line (`Classify`), the field updates (`Apply`), and the loop itself.
  - `Run` and `Load` are its specification as functions.
  - `LoadDictionary` and `HandleLine` are the imperative loop and its body,
    proved equal to that specification.
- `LineProperties` (`line_properties.dfy`): what a single line yields, in terms
  of its groups, plus worked examples.
- `LoadProperties` (`load_properties.dfy`): what a whole load yields: order,
  carry-over of fields, the error, early stop, blank lines, streaming.

The goroutine and its two channels are replaced by the sequence of tokens
sent plus at most one error. The scanner is replaced by the sequence of lines
it yields and the error that `scanner.Err()` reports after them.

Several behaviours of the code are easy to misread. The model follows the
code in each:

- **Every non-blank line matches.** The text group `.+?` accepts anything, so a
  line is skipped only when its trimmed text is empty (`LineProperties.ClassifySkip`).
  - A line such as `grape 1a` is not skipped: its whole text becomes the token
    text (`LineProperties.ClassifyDigitLetter`).
  - `hello world` yields the text `hello`. The final lower-case word is taken as
    the tag group, and that group is then ignored because there is no frequency
    (`LineProperties.ClassifyWordPair`).
- **White space inside a line matters.** Only the line's ends are trimmed
  (`LineProperties.LineMatchIgnoresSurroundingSpace`). With a doubled space
  before the tag, as in `apple 120  n`, no suffix after `apple` fits the two
  optional groups. The text group grows to `apple 120 ` and only the tag group
  ` n` is matched. As there is no frequency group, the tag is ignored too: the
  token text is `apple 120`, and the frequency and the tag are carried over
  from the previous token (`LineProperties.ClassifyDoubleSpaceTag`,
  `LineProperties.ClassifyDoubleSpace`).
- **A lone byte order mark gives an empty text.** U+FEFF is not white space, so
  a line holding only it matches. Removing it leaves the empty string, and
  that token is still sent (`LineProperties.ClassifyBomOnly`).
- **Missing fields are carried over.** `token` is declared once, outside the
  loop (line 31). The frequency and the tag are only assigned when their groups
  are present (lines 42-50). So a line without them re-sends the previous
  line's values, instead of 0 and "". For `apple 120 n`, `banana 50`, `cherry`,
  the tokens are `(apple, 120, n)`, `(banana, 50, n)`, `(cherry, 50, n)`
  (`LoadProperties.LoadCarryOverExample`).
- **Which frequencies fail.** A digit run fails to convert only when its value
  is too large for a float64. This is a value of at least 2^1024 - 2^970, so
  at least 309 digits (`Dictionary.ParseFloatRange`).

## Model

| member | source | states |
|---|---|---|
| `Pattern.MatchLineIsPreferred` | dictionary/dictionary.go:22 | the matcher returns `g` exactly when `g` is a match of the whole text (non-empty text group without a line break, optional ` digits`, optional ` letters`) whose text group is no longer than that of any other match |
| `Pattern.MatchLineNone` | dictionary/dictionary.go:22 | the matcher finds no match exactly when no match exists, exactly when the text is empty or holds a line break |
| `Pattern.PreferredMatchUnique` | dictionary/dictionary.go:22 | there is at most one preferred match, so the groups Go returns are determined by the text |
| `Pattern.SplitSuffixCorrect` | dictionary/dictionary.go:22 | the two optional groups split a suffix in the way SplitSuffix finds if and only if that split is valid |
| `Pattern.SuffixGroupsUnique` | dictionary/dictionary.go:22 | a suffix splits into a frequency group and a tag group in at most one way |
| `Pattern.DigitRun` | dictionary/dictionary.go:22 | counts the longest run of digits a string starts with (the greedy `[0-9]+`) |
| `Pattern.MatchFromSplits` | dictionary/dictionary.go:22 | the search from any position yields groups that concatenate back to the text and are each of the right shape |
| `Pattern.MatchFromFirst` | dictionary/dictionary.go:22 | no position before the one the search stops at admits the optional groups (lazy `.+?`) |
| `Strings.TrimSpace` | dictionary/dictionary.go:36 | the result is empty exactly when the input is all white space; otherwise it starts and ends with non-space, is a contiguous slice, and only white space is cut off on either side |
| `Strings.TrimSpaceUnique` | dictionary/dictionary.go:36 | any slice with only white space before and after it, and non-space at both of its ends, is the trimmed string |
| `Strings.TrimSpaceIdempotent` | dictionary/dictionary.go:36 | trimming twice is trimming once |
| `Strings.TrimSpaceSurrounded` | dictionary/dictionary.go:36 | adding white space on either side does not change the trimmed string |
| `Strings.IndexOf` | dictionary/dictionary.go:41 | returns -1 exactly when the character is absent, else the position of its first occurrence |
| `Dictionary.LineMatch` | dictionary/dictionary.go:36 | groups found for a raw line always form a match of its trimmed text |
| `Dictionary.GroupTrim` | dictionary/dictionary.go:43-49 | trimming a group that took part in the match removes exactly its leading space |
| `Dictionary.DecimalValueBounds` | dictionary/dictionary.go:43 | a run of n digits is worth less than 10^n, and at least 10^(n-1) when it does not start with 0 |
| `Dictionary.ParseFloatRange` | dictionary/dictionary.go:43-44 | every frequency of at most 308 digits converts; one of 310 digits or more that does not start with 0 is out of range and stops the load |
| `Dictionary.KindsAt` | dictionary/dictionary.go:34-36 | the n-th classified line is the classification of the n-th line read |
| `Dictionary.HandleLine` | dictionary/dictionary.go:35-52 | the loop body skips the line, stops, or sends a token exactly as `Classify` says, and the token it sends is the carried token with the present fields overwritten |
| `Dictionary.LoadDictionary` | dictionary/dictionary.go:24-61 | the loop sends exactly the tokens of `Load` and ends with exactly its error |
| `LineProperties.ClassifySkip` | dictionary/dictionary.go:36-39 | a line is skipped exactly when it is blank (or its trimmed text holds a line break), exactly when no groups are found |
| `LineProperties.LineMatchIsPreferred` | dictionary/dictionary.go:36 | the groups of a raw line are exactly the preferred match of its trimmed text |
| `LineProperties.LineMatchIgnoresSurroundingSpace` | dictionary/dictionary.go:36 | white space at the two ends of a line changes neither its groups nor the token it yields |
| `LineProperties.ClassifyUnconvertible` | dictionary/dictionary.go:42-46 | a line stops the load exactly when it has a frequency group whose value is out of float64 range, and the error then carries the raw line |
| `LineProperties.ClassifyEntryWhen` | dictionary/dictionary.go:37-52 | a line yields a token exactly when it matches and any frequency it has converts |
| `LineProperties.ClassifyEntry` | dictionary/dictionary.go:41-51 | the token's text is the cleaned text group; its frequency is present exactly when the frequency group is, with that group's value; its tag is present exactly when both groups are, without the leading space |
| `LineProperties.CleanTextDropsBom` | dictionary/dictionary.go:41 | a leading U+FEFF is dropped before trimming, and when it is the only one the text holds none |
| `LineProperties.LineMatchWord` | dictionary/dictionary.go:22 | a line of one space-free word followed by the optional groups is split right after the word |
| `LineProperties.ClassifyWordLine` | dictionary/dictionary.go:36-51 | such a line yields the word, the frequency group's value and the tag when present |
| `LineProperties.ClassifyFullEntry` | dictionary/dictionary.go:36-51 | `apple 120 n` yields text `apple`, frequency 120, tag `n` |
| `LineProperties.ClassifyFrequencyOnly` | dictionary/dictionary.go:36-51 | `banana 50` yields text `banana`, frequency 50 and no tag |
| `LineProperties.ClassifyBareWord` | dictionary/dictionary.go:36-51 | `cherry` yields only a text |
| `LineProperties.ClassifyWordPair` | dictionary/dictionary.go:22 | `hello world` is split into text `hello` and tag group ` world`, and yields only the text `hello` |
| `LineProperties.ClassifyDigitLetter` | dictionary/dictionary.go:22 | in `grape 1a` no group follows the text, so the whole line is the token text |
| `Pattern.MatchFromDoubleSpaceTag` | dictionary/dictionary.go:22 | for a space-free word, a frequency group, one more space and a tag group, the lazy text group takes the word, the frequency and one space, and only the tag group is matched |
| `LineProperties.ClassifyDoubleSpaceTag` | dictionary/dictionary.go:36-52 | such a line yields the word and the frequency as its text, with no frequency and no tag, so both are carried over |
| `LineProperties.ClassifyDoubleSpace` | dictionary/dictionary.go:22 | `apple 120  n` is split into text `apple 120 ` and tag group ` n`, and yields only the text `apple 120` |
| `LineProperties.ClassifyBomOnly` | dictionary/dictionary.go:41 | a line holding only U+FEFF yields a token with empty text |
| `LoadProperties.StopFrom` | dictionary/dictionary.go:44-46 | the first line at or after a position whose frequency does not convert, or the end |
| `LoadProperties.EntriesFrom` | dictionary/dictionary.go:37-52 | the positions of the lines that send a token are exactly the entry lines before the stopping point, increasing |
| `LoadProperties.RunEmitsEntries` | dictionary/dictionary.go:34-53 | from any line on, the run sends one token per entry line before the stopping point, each what its line makes of the token sent before it, and reports the raw stopping line |
| `LoadProperties.FirstFailureIs` | dictionary/dictionary.go:44-46 | the load stops at the first line whose frequency does not convert, and no earlier |
| `LoadProperties.SendingLinesAre` | dictionary/dictionary.go:37-52 | the lines that send a token are exactly the non-skipped lines before the first failure, in increasing order |
| `LoadProperties.LoadTokensFollowLines` | dictionary/dictionary.go:31-52 | the j-th token sent comes from the j-th sending line and is what that line makes of the (j-1)-th token, or of the zero token for the first |
| `LoadProperties.LoadTokenFields` | dictionary/dictionary.go:31-52 | each token's text is its line's cleaned text group; frequency and tag come from its groups where present, else from the token before it (0 and "" for the first) |
| `LoadProperties.LoadReportsError` | dictionary/dictionary.go:44-46 | the error is the conversion error with the raw first failing line, or else the scanner's error, or none |
| `LoadProperties.LoadStopsAtFirstFailure` | dictionary/dictionary.go:44-46 | lines after the first failing one, and the scanner's error, make no difference to the load |
| `LoadProperties.RunIgnoresRest` | dictionary/dictionary.go:44-46 | whatever follows a failing line does not change the run |
| `LoadProperties.RunIgnoresSkip` | dictionary/dictionary.go:37-39 | a skipped line anywhere in the run changes nothing |
| `LoadProperties.LoadIgnoresBlankLine` | dictionary/dictionary.go:37-39 | inserting a blank line anywhere does not change the tokens or the error |
| `LoadProperties.RunExtends` | dictionary/dictionary.go:52 | the tokens sent for a prefix of the lines are a prefix of those sent for the whole |
| `LoadProperties.LoadDeliversInOrder` | dictionary/dictionary.go:52 | tokens already sent after k lines are never taken back by the lines that follow |
| `LoadProperties.LoadCarryOverExample` | dictionary/dictionary.go:31-52 | `apple 120 n`, `banana 50`, `cherry` load as `(apple, 120, n)`, `(banana, 50, n)`, `(cherry, 50, n)` with no error |

## Left out

- `DictLoader` (lines 17-20), the exported `LoadDictionary` (lines 64-79) and `dictPath` (lines 81-92) are left out. They open files, resolve paths against the working directory and hand the channel to a consumer. That is file-system I/O and a foreign interface.
- The goroutine and the two channels (lines 25-29, 52, 56) are replaced by a sequence of sent tokens and an optional error. Blocking sends, the one-slot error buffer and the consumer running alongside are not modelled.
- `bufio.Scanner` (lines 30, 34-35, 55) is replaced by the lines it yields and the error it reports afterwards, both given as inputs. Its line splitting, its dropping of a trailing carriage return and its token-size limit are not modelled.
- The `Token` type is defined outside `dictionary/dictionary.go`, and that file is not part of this model. Its field types are taken from their use.
- `Dictionary.ParseFloat`: the frequency is kept as the exact integer value of its digit run. Float64 rounding of large values is not modelled, only the range limit (values of at least 2^1024 - 2^970 overflow).
- The error text built by `fmt.Errorf` (line 45) is not modelled. The error keeps only its kind and the raw line, or the scanner error's cause as a string.
- Go strings are byte sequences, and the regular expression and `TrimSpace` decode them as UTF-8. Here a string is a sequence of Unicode characters, and invalid UTF-8 is not modelled.
- `Dictionary.HandleLine`: on a failing line, the source has already overwritten the token's text and frequency before returning (lines 41-43). That token is never sent, so only the text update is kept and nothing observable depends on it.
