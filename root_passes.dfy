/**
 * The two branches of `script.js` that have no counterpart in `Src/script.js`: the
 * UNKNOWN fallback, which keeps every line that is neither a timing line, a bare number
 * nor blank, and the SBV branch, which reads one block of text after each timing pair.
 *
 * Both branches test each trimmed line against the same few patterns and clean it with
 * `cleanHtmlTags`; `Classify` records those results once per line, and the two passes
 * are specified over the classified lines.
 */
module RootPasses {
  import opened JsString
  import opened Patterns
  import opened TagCleaners
  import opened Cues

  /** What the two branches test of a trimmed line: blank, an SRT/VTT timing line,
      digits only, an exact SBV timing pair; and the line after `cleanHtmlTags`. */
  datatype LineInfo = LineInfo(blank: bool, timing: bool, number: bool, sbvPair: bool, cleaned: string)

  function Classify(line: string): LineInfo {
    LineInfo(line == [], SrtVttTimestamp(line), SequenceNumber(line), SbvPairExact(line), CleanHtmlTags(line))
  }

  /** Each line, trimmed and classified. */
  function ClassifyLines(lines: seq<string>): (infos: seq<LineInfo>)
    ensures |infos| == |lines|
  {
    if lines == [] then [] else ClassifyLines(lines[..|lines| - 1]) + [Classify(Trim(lines[|lines| - 1]))]
  }

  /** `infos` classifies `lines`, line by line. */
  predicate Classified(lines: seq<string>, infos: seq<LineInfo>) {
    |infos| == |lines| && forall k {:trigger lines[k]} :: 0 <= k < |lines| ==> infos[k] == Classify(Trim(lines[k]))
  }

  lemma {:induction false} ClassifyLinesAt(lines: seq<string>, k: nat)
    requires k < |lines|
    ensures ClassifyLines(lines)[k] == Classify(Trim(lines[k]))
  {
    if k < |lines| - 1 {
      ClassifyLinesAt(lines[..|lines| - 1], k);
    }
  }

  lemma ClassifiedLines(lines: seq<string>)
    ensures Classified(lines, ClassifyLines(lines))
  {
    forall k | 0 <= k < |lines| ensures ClassifyLines(lines)[k] == Classify(Trim(lines[k])) {
      ClassifyLinesAt(lines, k);
    }
  }

  /** Every cleaned line is empty or solid, as `cleanHtmlTags` guarantees. */
  predicate CleanOutput(infos: seq<LineInfo>) {
    forall k :: 0 <= k < |infos| ==> infos[k].cleaned == [] || Solid(infos[k].cleaned)
  }

  lemma ClassifiedClean(lines: seq<string>, infos: seq<LineInfo>)
    requires Classified(lines, infos)
    ensures CleanOutput(infos)
  {
    forall k | 0 <= k < |infos| ensures infos[k].cleaned == [] || Solid(infos[k].cleaned) {
      assert infos[k] == Classify(Trim(lines[k]));
    }
  }

  // ---------------------------------------------------------------------------------------
  // UNKNOWN

  /** The fallback keeps a line that is no SRT/VTT timing line, not digits only and not
      blank. */
  predicate Kept(info: LineInfo) {
    !info.timing && !info.number && !info.blank
  }

  /** The `forEach` callback of the fallback for line j: a kept line is pushed cleaned,
      even when cleaning leaves nothing; a blank line finalizes a non-empty buffer. */
  function UnknownStep(infos: seq<LineInfo>, j: nat, acc: Acc): Acc
    requires j < |infos|
  {
    if Kept(infos[j]) then Appended(acc, [infos[j].cleaned])
    else if infos[j].blank && |acc.current| > 0 then Finalize(acc)
    else acc
  }

  /** The accumulator after the callback has run on the first n lines. */
  function UnknownScan(infos: seq<LineInfo>, n: nat): Acc
    requires n <= |infos|
    decreases n, 0
  {
    if n == 0 then Start else UnknownAfter(infos, n - 1)
  }

  /** The accumulator once the callback has run on line j. */
  function UnknownAfter(infos: seq<LineInfo>, j: nat): Acc
    requires j < |infos|
    decreases j, 1
  {
    UnknownStep(infos, j, UnknownScan(infos, j))
  }

  lemma UnknownScanNext(infos: seq<LineInfo>, j: nat)
    requires j < |infos|
    ensures UnknownScan(infos, j + 1) == UnknownStep(infos, j, UnknownScan(infos, j))
  {
    assert UnknownScan(infos, j + 1) == UnknownAfter(infos, j);
  }

  /** The accumulator once the closing `finalizeCue()` has run. */
  function UnknownResult(infos: seq<LineInfo>): Acc {
    Finalize(UnknownScan(infos, |infos|))
  }

  /** What line j contributes: its cleaned text, when it is kept and cleaning leaves
      something. */
  function KeptText(infos: seq<LineInfo>, j: nat): seq<string>
    requires j < |infos|
  {
    if Kept(infos[j]) && infos[j].cleaned != [] then [infos[j].cleaned] else []
  }

  /** Reference: the non-empty cleaned texts of the kept lines among the first n lines,
      in order. */
  function KeptTexts(infos: seq<LineInfo>, n: nat): seq<string>
    requires n <= |infos|
  {
    if n == 0 then [] else KeptTexts(infos, n - 1) + KeptText(infos, n - 1)
  }

  lemma NonEmptySingle(c: string)
    ensures NonEmptyLines([c]) == if c != [] then [c] else []
  {
    assert [c][..0] == [];
  }

  /** Pushing one empty-or-solid line keeps the buffer empty-or-solid and adds the line
      to the non-empty lines held exactly when it is not empty. */
  lemma PushOne(acc: Acc, c: string)
    requires EmptyOrSolid(acc.current) && (c == [] || Solid(c))
    ensures EmptyOrSolid(Appended(acc, [c]).current)
    ensures NonEmptyLines(Flatten(Appended(acc, [c]))) ==
            NonEmptyLines(Flatten(acc)) + if c != [] then [c] else []
  {
    AppendedFlatten(acc, [c]);
    NonEmptyLinesConcat(Flatten(acc), [c]);
    NonEmptySingle(c);
  }

  /** One callback keeps the buffer empty-or-solid. */
  lemma UnknownStepSolid(infos: seq<LineInfo>, j: nat, acc: Acc)
    requires j < |infos| && CleanOutput(infos) && EmptyOrSolid(acc.current)
    ensures EmptyOrSolid(UnknownStep(infos, j, acc).current)
  {
    if Kept(infos[j]) {
      PushOne(acc, infos[j].cleaned);
    }
  }

  /** One callback emits no blank cue. */
  lemma UnknownStepCues(infos: seq<LineInfo>, j: nat, acc: Acc)
    requires j < |infos| && AllCuesNonEmpty(acc.emitted)
    ensures AllCuesNonEmpty(UnknownStep(infos, j, acc).emitted)
  {
    if !Kept(infos[j]) && infos[j].blank && |acc.current| > 0 {
      FinalizeKeepsCuesNonEmpty(acc);
    }
  }

  /** One callback adds the line's reference text to the non-empty lines held. */
  lemma UnknownStepLines(infos: seq<LineInfo>, j: nat, acc: Acc)
    requires j < |infos| && CleanOutput(infos) && EmptyOrSolid(acc.current)
    ensures NonEmptyLines(Flatten(UnknownStep(infos, j, acc))) == NonEmptyLines(Flatten(acc)) + KeptText(infos, j)
  {
    if Kept(infos[j]) {
      PushOne(acc, infos[j].cleaned);
    } else if infos[j].blank && |acc.current| > 0 {
      FinalizeKeepsNonEmptyLines(acc);
    }
  }

  /** After the first n lines the buffer holds cleaner output only. */
  lemma {:induction false} UnknownScanSolid(infos: seq<LineInfo>, n: nat)
    requires n <= |infos| && CleanOutput(infos)
    ensures EmptyOrSolid(UnknownScan(infos, n).current)
  {
    if n > 0 {
      UnknownScanSolid(infos, n - 1);
      UnknownStepSolid(infos, n - 1, UnknownScan(infos, n - 1));
      UnknownScanNext(infos, n - 1);
    }
  }

  /** After the first n lines no blank cue has been emitted. */
  lemma {:induction false} UnknownScanCues(infos: seq<LineInfo>, n: nat)
    requires n <= |infos|
    ensures AllCuesNonEmpty(UnknownScan(infos, n).emitted)
  {
    if n > 0 {
      UnknownScanCues(infos, n - 1);
      UnknownStepCues(infos, n - 1, UnknownScan(infos, n - 1));
      UnknownScanNext(infos, n - 1);
    }
  }

  /** After the first n lines the non-empty lines held are exactly the reference
      texts. */
  lemma {:induction false} UnknownScanLines(infos: seq<LineInfo>, n: nat)
    requires n <= |infos| && CleanOutput(infos)
    ensures NonEmptyLines(Flatten(UnknownScan(infos, n))) == KeptTexts(infos, n)
  {
    if n > 0 {
      var acc := UnknownScan(infos, n - 1);
      UnknownScanLines(infos, n - 1);
      UnknownScanSolid(infos, n - 1);
      UnknownStepKept(infos, n - 1, acc);
      UnknownScanNext(infos, n - 1);
    }
  }

  /** One callback on a buffer holding the reference texts of the lines before j leaves
      one holding those of the lines up to j. */
  lemma UnknownStepKept(infos: seq<LineInfo>, j: nat, acc: Acc)
    requires j < |infos| && CleanOutput(infos) && EmptyOrSolid(acc.current)
    requires NonEmptyLines(Flatten(acc)) == KeptTexts(infos, j)
    ensures NonEmptyLines(Flatten(UnknownStep(infos, j, acc))) == KeptTexts(infos, j + 1)
  {
    UnknownStepLines(infos, j, acc);
  }

  /** The fallback's cues: none is blank, and their non-empty lines are exactly the
      cleaned kept lines, in order; timing lines, bare numbers and blank lines are all
      dropped. */
  lemma UnknownResultLines(lines: seq<string>, infos: seq<LineInfo>)
    requires Classified(lines, infos)
    ensures UnknownResult(infos).current == []
    ensures AllCuesNonEmpty(UnknownResult(infos).emitted)
    ensures NonEmptyLines(Concat(UnknownResult(infos).emitted)) == KeptTexts(infos, |infos|)
  {
    ClassifiedClean(lines, infos);
    UnknownScanSolid(infos, |infos|);
    UnknownScanCues(infos, |infos|);
    UnknownScanLines(infos, |infos|);
    FinalizeKeepsNonEmptyLines(UnknownScan(infos, |infos|));
    FinalizeKeepsCuesNonEmpty(UnknownScan(infos, |infos|));
    assert Flatten(UnknownResult(infos)) == Concat(UnknownResult(infos).emitted);
  }

  /** How line j changes the runs: a blank line opens a new run, a kept line adds its
      cleaned text to the open run, and a timing line or bare number changes nothing. */
  function RunsStep(infos: seq<LineInfo>, j: nat, runs: seq<seq<string>>): (r: seq<seq<string>>)
    requires j < |infos| && runs != []
    ensures r != []
  {
    if infos[j].blank then runs + [[]]
    else if Kept(infos[j]) then runs[..|runs| - 1] + [runs[|runs| - 1] + [infos[j].cleaned]]
    else runs
  }

  /** Reference: the runs of the first n lines, cut at every blank line; each run holds
      the cleaned texts of its kept lines, in order, and the last run is still open. */
  function Runs(infos: seq<LineInfo>, n: nat): (runs: seq<seq<string>>)
    requires n <= |infos|
    ensures runs != []
  {
    if n == 0 then [[]] else RunsStep(infos, n - 1, Runs(infos, n - 1))
  }

  /** What the runs show: each run without the empty texts at either end, joined with LF,
      and nothing for a run where nothing is left. Empty texts inside a run stay, as blank
      output lines. */
  function RunTexts(runs: seq<seq<string>>): seq<string> {
    if runs == [] then []
    else
      var last := Stripped(runs[|runs| - 1]);
      RunTexts(runs[..|runs| - 1]) + if last != [] then [Join(last, '\n')] else []
  }

  /** The buffer is the open run, and the emitted cue texts are the texts of the closed
      runs. */
  predicate HoldsRuns(acc: Acc, runs: seq<seq<string>>) {
    runs != [] && acc.current == runs[|runs| - 1] && Texts(acc.emitted) == RunTexts(runs[..|runs| - 1])
  }

  /** `finalizeCue` emits exactly what the reference shows for the buffer: once it has
      run, the emitted cue texts are the texts of all the runs. */
  lemma FinalizeRun(acc: Acc, runs: seq<seq<string>>)
    requires EmptyOrSolid(acc.current) && HoldsRuns(acc, runs)
    ensures Texts(Finalize(acc).emitted) == RunTexts(runs)
  {
    CueTextStripped(acc.current);
    if |acc.current| > 0 && CueText(acc.current) != [] {
      TextsSnoc(acc.emitted, acc.current);
    }
  }

  /** One callback keeps the buffer equal to the open run and the emitted cue texts equal
      to the texts of the closed runs. */
  lemma UnknownStepRuns(infos: seq<LineInfo>, j: nat, acc: Acc, runs: seq<seq<string>>)
    requires j < |infos| && CleanOutput(infos) && EmptyOrSolid(acc.current) && HoldsRuns(acc, runs)
    ensures HoldsRuns(UnknownStep(infos, j, acc), RunsStep(infos, j, runs))
  {
    var next := RunsStep(infos, j, runs);
    if infos[j].blank {
      assert next[..|next| - 1] == runs;
      FinalizeRun(acc, runs);
      if |acc.current| == 0 {
        assert Stripped(acc.current) == [];
      }
    } else if Kept(infos[j]) {
      assert next[..|next| - 1] == runs[..|runs| - 1];
    }
  }

  /** After the first n lines the buffer is the open run and the emitted cue texts are the
      texts of the closed runs. */
  lemma {:induction false} UnknownScanRuns(infos: seq<LineInfo>, n: nat)
    requires n <= |infos| && CleanOutput(infos)
    ensures HoldsRuns(UnknownScan(infos, n), Runs(infos, n))
  {
    if n > 0 {
      var acc, runs := UnknownScan(infos, n - 1), Runs(infos, n - 1);
      UnknownScanRuns(infos, n - 1);
      UnknownScanSolid(infos, n - 1);
      UnknownStepRuns(infos, n - 1, acc, runs);
      UnknownScanNext(infos, n - 1);
      assert Runs(infos, n) == RunsStep(infos, n - 1, runs);
    }
  }

  /** The fallback's output is the texts of the runs, one per line: a kept line that
      cleaning empties shows as a blank line inside its run, and is dropped at either end
      of it. */
  lemma UnknownOutputRuns(infos: seq<LineInfo>)
    requires CleanOutput(infos)
    ensures Output(UnknownResult(infos)) == Join(RunTexts(Runs(infos, |infos|)), '\n')
  {
    var acc := UnknownScan(infos, |infos|);
    UnknownScanRuns(infos, |infos|);
    UnknownScanSolid(infos, |infos|);
    UnknownScanCues(infos, |infos|);
    FinalizeKeepsCuesNonEmpty(acc);
    FinalizeRun(acc, Runs(infos, |infos|));
    OutputIsJoin(UnknownResult(infos).emitted);
  }

  /** A kept line with cleaned text `c`. */
  function TextLine(c: string): LineInfo {
    LineInfo(false, false, false, false, c)
  }

  const BlankLine := LineInfo(true, false, false, false, [])

  /** Runs after a kept line whose open run was `open`. */
  lemma KeptRun(infos: seq<LineInfo>, j: nat, closed: seq<seq<string>>, open: seq<seq<string>>)
    requires j < |infos| && Kept(infos[j]) && |open| == 1 && Runs(infos, j) == closed + open
    ensures Runs(infos, j + 1) == closed + [open[0] + [infos[j].cleaned]]
  {
    var runs := closed + open;
    assert runs[..|runs| - 1] == closed;
  }

  /** A kept line that cleaning empties (`<i></i>`, say) between two lines of text shows as
      a blank line between them. */
  lemma EmptiedLineShows(x: string, y: string)
    requires Solid(x) && Solid(y)
    ensures Output(UnknownResult([TextLine(x), TextLine([]), TextLine(y)])) == x + "\n\n" + y
  {
    var infos := [TextLine(x), TextLine([]), TextLine(y)];
    assert CleanOutput(infos);
    UnknownOutputRuns(infos);
    EmptiedLineRuns(x, y, infos);
  }

  lemma EmptiedLineRuns(x: string, y: string, infos: seq<LineInfo>)
    requires Solid(x) && Solid(y) && infos == [TextLine(x), TextLine([]), TextLine(y)]
    ensures Join(RunTexts(Runs(infos, |infos|)), '\n') == x + "\n\n" + y
  {
    var run := [x, [], y];
    ThreeKeptRuns(infos);
    StrippedOfSolidEnds(run);
    SingleRunTexts(run);
    JoinAroundEmpty(x, y);
  }

  lemma JoinAroundEmpty(x: string, y: string)
    ensures Join([x, [], y], '\n') == x + "\n\n" + y
  {
    var run: seq<string> := [x, [], y];
    assert run[1..] == [[], y];
    assert run[1..][1..] == [y];
    assert Join(run[1..], '\n') == "\n" + y;
  }

  lemma ThreeKeptRuns(infos: seq<LineInfo>)
    requires |infos| == 3 && Kept(infos[0]) && Kept(infos[1]) && Kept(infos[2])
    ensures Runs(infos, 3) == [[infos[0].cleaned, infos[1].cleaned, infos[2].cleaned]]
  {
    var a, b, c := infos[0].cleaned, infos[1].cleaned, infos[2].cleaned;
    KeptRun(infos, 0, [], [[]]);
    assert [[]][0] + [a] == [a];
    assert Runs(infos, 1) == [[a]];
    KeptRun(infos, 1, [], [[a]]);
    assert [[a]][0] + [b] == [a, b];
    assert Runs(infos, 2) == [[a, b]];
    KeptRun(infos, 2, [], [[a, b]]);
    assert [[a, b]][0] + [c] == [a, b, c];
  }

  /** A run that starts and ends with text is stripped of nothing. */
  lemma StrippedOfSolidEnds(run: seq<string>)
    requires run != [] && run[0] != [] && run[|run| - 1] != []
    ensures Stripped(run) == run
  {
    assert DropLeadingEmpty(run) == run;
  }

  lemma SingleRunTexts(run: seq<string>)
    ensures RunTexts([run]) == if Stripped(run) != [] then [Join(Stripped(run), '\n')] else []
  {
    var none: seq<seq<string>> := [];
    assert [run][..0] == none;
  }

  /** With a blank line after the emptied line, the two lines of text are two cues and
      nothing shows between them. */
  lemma EmptiedLineBeforeBlank(x: string, y: string)
    requires Solid(x) && Solid(y)
    ensures Output(UnknownResult([TextLine(x), TextLine([]), BlankLine, TextLine(y)])) == x + "\n" + y
  {
    var infos := [TextLine(x), TextLine([]), BlankLine, TextLine(y)];
    assert CleanOutput(infos);
    UnknownOutputRuns(infos);
    BlankLineRuns(x, y, infos);
  }

  lemma BlankLineRuns(x: string, y: string, infos: seq<LineInfo>)
    requires Solid(x) && Solid(y) && infos == [TextLine(x), TextLine([]), BlankLine, TextLine(y)]
    ensures Join(RunTexts(Runs(infos, |infos|)), '\n') == x + "\n" + y
  {
    var first: seq<string> := [x, []];
    var runs := [first, [y]];
    BlankLineRunsAre(x, y, infos);
    assert Stripped(first) == [x] by {
      StrippedOfSolidEnds([x]);
      assert DropLeadingEmpty(first) == first;
      assert first[..1] == [x];
    }
    StrippedOfSolidEnds([y]);
    SingleRunTexts(first);
    assert runs[..1] == [first];
    assert RunTexts(runs) == [x, y];
    assert Join([x, y], '\n') == x + "\n" + y by {
      assert [x, y][1..] == [y];
    }
  }

  lemma BlankLineRunsAre(x: string, y: string, infos: seq<LineInfo>)
    requires infos == [TextLine(x), TextLine([]), BlankLine, TextLine(y)]
    ensures Runs(infos, 4) == [[x, []], [y]]
  {
    TwoLinesRun(infos, x, []);
    assert infos[2].blank && Kept(infos[3]) && infos[3].cleaned == y;
    BlankThenLine(infos, 2, [[x, []]]);
  }

  /** Two kept lines open the first run. */
  lemma TwoLinesRun(infos: seq<LineInfo>, a: string, b: string)
    requires |infos| >= 2 && Kept(infos[0]) && Kept(infos[1])
    requires infos[0].cleaned == a && infos[1].cleaned == b
    ensures Runs(infos, 2) == [[a, b]]
  {
    KeptRun(infos, 0, [], [[]]);
    assert [[]][0] + [a] == [a];
    KeptRun(infos, 1, [], [[a]]);
    assert [[a]][0] + [b] == [a, b];
  }

  /** A blank line followed by a kept line opens a new run holding that line. */
  lemma BlankThenLine(infos: seq<LineInfo>, j: nat, runs: seq<seq<string>>)
    requires j + 1 < |infos| && infos[j].blank && Kept(infos[j + 1]) && Runs(infos, j) == runs
    ensures Runs(infos, j + 2) == runs + [[infos[j + 1].cleaned]]
  {
    assert Runs(infos, j + 1) == runs + [[]];
    KeptRun(infos, j + 1, runs, [[]]);
    assert [[]][0] + [infos[j + 1].cleaned] == [infos[j + 1].cleaned];
  }

  // ---------------------------------------------------------------------------------------
  // SBV

  /** A line that ends a text block: blank, or an exact SBV timing pair. */
  predicate StopsBlock(info: LineInfo) {
    info.blank || info.sbvPair
  }

  /** Where the inner `while` started at i stops: the first stopping line at or after i,
      or the end of the lines. */
  function BlockEnd(infos: seq<LineInfo>, i: nat): (e: nat)
    requires i <= |infos|
    ensures i <= e <= |infos|
    ensures e == |infos| || StopsBlock(infos[e])
    ensures forall k :: i <= k < e ==> !StopsBlock(infos[k])
    decreases |infos| - i
  {
    if i == |infos| || StopsBlock(infos[i]) then i else BlockEnd(infos, i + 1)
  }

  /** A line's cleaned text, pushed when it is not empty: a list of at most one line. */
  function Cleaned(info: LineInfo): seq<string> {
    if info.cleaned != [] then [info.cleaned] else []
  }

  /** The `textBlock` read from lines i up to e: each line cleaned, the empty results
      dropped. */
  function BlockText(infos: seq<LineInfo>, i: nat, e: nat): seq<string>
    requires i <= e <= |infos|
    decreases e - i
  {
    if e == i then [] else BlockText(infos, i, e - 1) + Cleaned(infos[e - 1])
  }

  /** One more line that does not stop the block: the block reaches past it and holds
      its cleaned text. */
  lemma BlockStep(infos: seq<LineInfo>, start: nat, i: nat)
    requires start <= i < |infos| && !StopsBlock(infos[i])
    ensures BlockEnd(infos, i) == BlockEnd(infos, i + 1)
    ensures BlockText(infos, start, i + 1) == BlockText(infos, start, i) + Cleaned(infos[i])
  {
  }

  /** What a timing pair does to the accumulator once its block is read: finalize, then
      push the block and finalize again when the block is not empty. */
  function TimingStep(acc: Acc, block: seq<string>): Acc {
    var before := Finalize(acc);
    if block != [] then Finalize(Appended(before, block)) else before
  }

  /** What the loop does from line i on, given the accumulator: a timing pair reads the
      block after it and the loop carries on at the line that stopped the block; any
      other line is passed over. */
  function SbvFrom(infos: seq<LineInfo>, i: nat, acc: Acc): Acc
    requires i <= |infos|
    decreases |infos| - i, 1
  {
    if i == |infos| then acc
    else if infos[i].sbvPair then SbvAtPair(infos, i, acc)
    else SbvFrom(infos, i + 1, acc)
  }

  /** What the loop does from the timing pair at line i on. */
  function SbvAtPair(infos: seq<LineInfo>, i: nat, acc: Acc): Acc
    requires i < |infos|
    decreases |infos| - i, 0
  {
    var e := BlockEnd(infos, i + 1);
    SbvFrom(infos, e, TimingStep(acc, BlockText(infos, i + 1, e)))
  }

  /** The loop at a timing pair. */
  lemma SbvFromPair(infos: seq<LineInfo>, i: nat, acc: Acc)
    requires i < |infos| && infos[i].sbvPair
    ensures SbvFrom(infos, i, acc) ==
            SbvFrom(infos, BlockEnd(infos, i + 1), TimingStep(acc, BlockText(infos, i + 1, BlockEnd(infos, i + 1))))
  {
    assert SbvFrom(infos, i, acc) == SbvAtPair(infos, i, acc);
  }

  /** The loop at any other line. */
  lemma SbvFromOther(infos: seq<LineInfo>, i: nat, acc: Acc)
    requires i < |infos| && !infos[i].sbvPair
    ensures SbvFrom(infos, i, acc) == SbvFrom(infos, i + 1, acc)
  {
  }

  /** The accumulator once the loop and the closing `finalizeCue()` have run. */
  function SbvResult(infos: seq<LineInfo>): Acc {
    Finalize(SbvFrom(infos, 0, Start))
  }

  lemma AllSolidConcat(x: seq<string>, y: seq<string>)
    requires AllSolid(x) && AllSolid(y)
    ensures AllSolid(x + y)
  {
  }

  /** A block holds cleaner output that is not empty, so every line of it is solid. */
  lemma {:induction false} BlockTextSolid(infos: seq<LineInfo>, i: nat, e: nat)
    requires i <= e <= |infos| && CleanOutput(infos)
    ensures AllSolid(BlockText(infos, i, e))
    decreases e - i
  {
    if e > i {
      BlockTextSolid(infos, i, e - 1);
      var c := infos[e - 1].cleaned;
      assert c == [] || Solid(c);
      assert AllSolid(Cleaned(infos[e - 1])) by {
        if c != [] {
          assert Cleaned(infos[e - 1]) == [c];
        }
      }
      AllSolidConcat(BlockText(infos, i, e - 1), Cleaned(infos[e - 1]));
    }
  }

  /** The block a line j opens, as the loop emits it: for a timing pair followed by a
      non-empty block, that block. */
  function PairBlock(infos: seq<LineInfo>, j: nat): seq<seq<string>>
    requires j < |infos|
  {
    if infos[j].sbvPair then
      var block := BlockText(infos, j + 1, BlockEnd(infos, j + 1));
      if block != [] then [block] else []
    else []
  }

  /** The blocks opened by the lines from i on, in order. */
  function PairBlocks(infos: seq<LineInfo>, i: nat): seq<seq<string>>
    requires i <= |infos|
    decreases |infos| - i
  {
    if i == |infos| then [] else PairBlock(infos, i) + PairBlocks(infos, i + 1)
  }

  /** The lines a block passes over open no block: jumping from its first line to its
      end loses none. */
  lemma {:induction false} NoPairInBlock(infos: seq<LineInfo>, k: nat)
    requires k <= |infos|
    ensures PairBlocks(infos, k) == PairBlocks(infos, BlockEnd(infos, k))
    decreases |infos| - k
  {
    if k < |infos| && !StopsBlock(infos[k]) {
      NoPairInBlock(infos, k + 1);
    }
  }

  /** A timing pair with its block read, from an empty buffer, emits the block the pair
      opens. */
  lemma PairStep(infos: seq<LineInfo>, i: nat, acc: Acc)
    requires i < |infos| && infos[i].sbvPair && CleanOutput(infos) && acc.current == []
    ensures TimingStep(acc, BlockText(infos, i + 1, BlockEnd(infos, i + 1))) ==
            Acc(acc.emitted + PairBlock(infos, i), [])
  {
    var block := BlockText(infos, i + 1, BlockEnd(infos, i + 1));
    if block != [] {
      BlockTextSolid(infos, i + 1, BlockEnd(infos, i + 1));
      FinalizeBlock(acc, block);
    } else {
      assert acc.emitted + [] == acc.emitted;
    }
  }

  /** The loop at a timing pair, from an empty buffer: the block the pair opens is
      emitted and the loop carries on where the block stopped. */
  lemma SbvFromPairBlock(infos: seq<LineInfo>, i: nat, acc: Acc)
    requires i < |infos| && infos[i].sbvPair && CleanOutput(infos) && acc.current == []
    ensures SbvFrom(infos, i, acc) ==
            SbvFrom(infos, BlockEnd(infos, i + 1), Acc(acc.emitted + PairBlock(infos, i), []))
  {
    PairStep(infos, i, acc);
  }

  /** The blocks opened from a timing pair on: its own, then those from where its block
      stopped. */
  lemma PairBlocksAtPair(infos: seq<LineInfo>, i: nat)
    requires i < |infos| && infos[i].sbvPair
    ensures PairBlocks(infos, i) == PairBlock(infos, i) + PairBlocks(infos, BlockEnd(infos, i + 1))
  {
    NoPairInBlock(infos, i + 1);
  }

  lemma AppendAssoc<T>(a: seq<T>, b: seq<T>, c: seq<T>)
    ensures a + b + c == a + (b + c)
  {
  }

  /** The step of `SbvFromBlocks` at a timing pair, given its claim where the pair's
      block stopped. */
  lemma SbvFromBlocksPair(infos: seq<LineInfo>, i: nat, acc: Acc)
    requires i < |infos| && infos[i].sbvPair && CleanOutput(infos) && acc.current == []
    requires SbvFrom(infos, BlockEnd(infos, i + 1), Acc(acc.emitted + PairBlock(infos, i), [])) ==
             Acc(acc.emitted + PairBlock(infos, i) + PairBlocks(infos, BlockEnd(infos, i + 1)), [])
    ensures SbvFrom(infos, i, acc) == Acc(acc.emitted + PairBlocks(infos, i), [])
  {
    SbvFromPairBlock(infos, i, acc);
    PairBlocksAtPair(infos, i);
    AppendAssoc(acc.emitted, PairBlock(infos, i), PairBlocks(infos, BlockEnd(infos, i + 1)));
  }

  /** The step of `SbvFromBlocks` at any other line, given its claim from the next line. */
  lemma SbvFromBlocksOther(infos: seq<LineInfo>, i: nat, acc: Acc)
    requires i < |infos| && !infos[i].sbvPair
    requires SbvFrom(infos, i + 1, acc) == Acc(acc.emitted + PairBlocks(infos, i + 1), [])
    ensures SbvFrom(infos, i, acc) == Acc(acc.emitted + PairBlocks(infos, i), [])
  {
    SbvFromOther(infos, i, acc);
    assert PairBlocks(infos, i) == PairBlocks(infos, i + 1);
  }

  /** From line i on, with the buffer empty, the loop emits exactly the blocks the
      timing pairs open and leaves the buffer empty. */
  lemma {:induction false} SbvFromBlocks(infos: seq<LineInfo>, i: nat, acc: Acc)
    requires i <= |infos| && CleanOutput(infos) && acc.current == []
    ensures SbvFrom(infos, i, acc) == Acc(acc.emitted + PairBlocks(infos, i), [])
    decreases |infos| - i
  {
    if i == |infos| {
      assert acc.emitted + [] == acc.emitted;
    } else if infos[i].sbvPair {
      SbvFromBlocks(infos, BlockEnd(infos, i + 1), Acc(acc.emitted + PairBlock(infos, i), []));
      SbvFromBlocksPair(infos, i, acc);
    } else {
      SbvFromBlocks(infos, i + 1, acc);
      SbvFromBlocksOther(infos, i, acc);
    }
  }

  /** Every block the loop emits is non-empty and made of solid lines. */
  lemma {:induction false} PairBlocksSolid(infos: seq<LineInfo>, i: nat)
    requires i <= |infos| && CleanOutput(infos)
    ensures SolidBlocks(PairBlocks(infos, i))
    decreases |infos| - i
  {
    if i < |infos| {
      var first, rest := PairBlock(infos, i), PairBlocks(infos, i + 1);
      PairBlocksSolid(infos, i + 1);
      if first != [] {
        BlockTextSolid(infos, i + 1, BlockEnd(infos, i + 1));
      }
      assert PairBlocks(infos, i) == first + rest;
      forall k | 0 <= k < |first + rest| ensures (first + rest)[k] != [] && AllSolid((first + rest)[k]) {
        if k >= |first| {
          assert (first + rest)[k] == rest[k - |first|];
        }
      }
    }
  }

  /** The SBV output: the branch emits exactly the blocks that follow timing pairs and
      are not empty, in order, each as one line holding the block's cleaned lines joined
      with LF. */
  lemma SbvOutput(lines: seq<string>, infos: seq<LineInfo>)
    requires Classified(lines, infos)
    ensures SbvResult(infos) == Acc(PairBlocks(infos, 0), [])
    ensures Texts(SbvResult(infos).emitted) == JoinedBlocks(PairBlocks(infos, 0))
    ensures Output(SbvResult(infos)) == Join(JoinedBlocks(PairBlocks(infos, 0)), '\n')
  {
    ClassifiedClean(lines, infos);
    SbvFromBlocks(infos, 0, Start);
    assert [] + PairBlocks(infos, 0) == PairBlocks(infos, 0);
    PairBlocksSolid(infos, 0);
    SolidBlocksTexts(PairBlocks(infos, 0));
    OutputIsJoin(PairBlocks(infos, 0));
  }

  // ---------------------------------------------------------------------------------------
  // The loops

  /** The fallback's callback for line `index`. */
  method UnknownLine(buf: CueBuffer, lines: seq<string>, ghost infos: seq<LineInfo>, index: nat)
    requires buf.Valid() && index < |lines| && Classified(lines, infos)
    requires buf.Model() == UnknownScan(infos, index)
    modifies buf
    ensures buf.Valid() && buf.Model() == UnknownScan(infos, index + 1)
  {
    var line := Trim(lines[index]);
    if !SrtVttTimestamp(line) && !SequenceNumber(line) && line != [] {
      buf.Push(CleanHtmlTags(line));
    } else if line == [] && |buf.currentTextLines| > 0 {
      buf.FinalizeCue();
    }
  }

  /** `lines.forEach(...)` of the fallback followed by `finalizeCue()`. */
  method ScanUnknown(buf: CueBuffer, lines: seq<string>, ghost infos: seq<LineInfo>)
    requires buf.Valid() && buf.Model() == Start && Classified(lines, infos)
    modifies buf
    ensures buf.Valid() && buf.Model() == UnknownResult(infos)
  {
    var index := 0;
    while index < |lines|
      invariant 0 <= index <= |lines|
      invariant buf.Valid() && buf.Model() == UnknownScan(infos, index)
    {
      UnknownLine(buf, lines, infos, index);
      index := index + 1;
    }
    buf.FinalizeCue();
  }

  /** `cleanHtmlTags(lines[i].trim())`. */
  method CleanLine(lines: seq<string>, ghost infos: seq<LineInfo>, i: nat) returns (cleaned: string)
    requires i < |lines| && Classified(lines, infos)
    ensures cleaned == infos[i].cleaned
  {
    cleaned := CleanHtmlTags(Trim(lines[i]));
  }

  /** The inner loop's test: `lines[i].trim()` is empty or an exact SBV timing pair. */
  method StopsAt(lines: seq<string>, ghost infos: seq<LineInfo>, i: nat) returns (stop: bool)
    requires i < |lines| && Classified(lines, infos)
    ensures stop == StopsBlock(infos[i])
  {
    var line := Trim(lines[i]);
    stop := line == [] || SbvPairExact(line);
  }

  /** The outer loop's test: `lines[i].trim()` is an exact SBV timing pair. */
  method PairAt(lines: seq<string>, ghost infos: seq<LineInfo>, i: nat) returns (pair: bool)
    requires i < |lines| && Classified(lines, infos)
    ensures pair == infos[i].sbvPair
  {
    pair := SbvPairExact(Trim(lines[i]));
  }

  /** The inner `while` of the SBV branch: reads the block that starts at line `start`
      and returns it with the index of the line that stopped it. */
  method ReadBlock(lines: seq<string>, ghost infos: seq<LineInfo>, start: nat) returns (textBlock: seq<string>, i: nat)
    requires start <= |lines| && Classified(lines, infos)
    ensures i == BlockEnd(infos, start)
    ensures textBlock == BlockText(infos, start, i)
  {
    textBlock := [];
    i := start;
    while i < |lines|
      invariant start <= i <= |lines|
      invariant BlockEnd(infos, start) == BlockEnd(infos, i)
      invariant textBlock == BlockText(infos, start, i)
      decreases |lines| - i
    {
      var stop := StopsAt(lines, infos, i);
      if stop {
        break;
      }
      var cleaned := CleanLine(lines, infos, i);
      BlockStep(infos, start, i);
      if cleaned != [] {
        textBlock := textBlock + [cleaned];
      }
      i := i + 1;
    }
  }

  /** The body of the SBV `for` loop at a timing pair: finalize, read the block, emit it
      as one cue when it is not empty; returns where the block stopped. */
  method TimingBlock(buf: CueBuffer, lines: seq<string>, ghost infos: seq<LineInfo>, i: nat) returns (e: nat)
    requires buf.Valid() && i < |lines| && Classified(lines, infos)
    modifies buf
    ensures e == BlockEnd(infos, i + 1)
    ensures buf.Valid() && buf.Model() == TimingStep(old(buf.Model()), BlockText(infos, i + 1, e))
  {
    buf.FinalizeCue();
    var textBlock;
    textBlock, e := ReadBlock(lines, infos, i + 1);
    if |textBlock| > 0 {
      buf.PushAll(textBlock);
      buf.FinalizeCue();
    }
  }

  /** The `for` loop of the SBV branch followed by `finalizeCue()`. After a timing pair
      the source moves the index back by one and lets the loop's increment move it on, so
      the next line examined is the one that stopped the block; the loop here goes
      straight there. */
  method ScanSbv(buf: CueBuffer, lines: seq<string>, ghost infos: seq<LineInfo>)
    requires buf.Valid() && buf.Model() == Start && Classified(lines, infos)
    modifies buf
    ensures buf.Valid() && buf.Model() == SbvResult(infos)
  {
    var i := 0;
    while i < |lines|
      invariant 0 <= i <= |lines| == |infos|
      invariant buf.Valid() && SbvFrom(infos, i, buf.Model()) == SbvFrom(infos, 0, Start)
      decreases |lines| - i
    {
      var pair := PairAt(lines, infos, i);
      if pair {
        ghost var before := buf.Model();
        var e := TimingBlock(buf, lines, infos, i);
        SbvFromPair(infos, i, before);
        i := e;
      } else {
        SbvFromOther(infos, i, buf.Model());
        i := i + 1;
      }
    }
    buf.FinalizeCue();
  }
}
