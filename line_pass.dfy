/**
 * The per-line pass that `script.js` runs for SRT and VTT content and `Src/script.js`
 * runs for SRT, VTT, SBV and UNKNOWN content. Its loop body is the same text in both
 * files except for one clause, the exact SBV timing pair, which can only fire when the
 * format is SBV and so never fires in `script.js`.
 *
 * The pass is specified as a fold over the line index (`PassScan`) and implemented by
 * `ScanLines`, the `forEach` loop with its `inVttStyleBlock` flag.
 */
module LinePass {
  import opened JsString
  import opened Patterns
  import opened TagCleaners
  import opened Cues
  import opened Formats
  import opened LineRules

  /** The cue accumulator together with `inVttStyleBlock`. */
  datatype PassState = PassState(acc: Acc, inStyle: bool)

  const PassStart := PassState(Start, false)

  /** A line that closes the current cue and is itself dropped: a timing line, or for SBV
      an exact SBV timing pair. */
  predicate EndsCue(fmt: Format, line: string) {
    SrtVttTimestamp(line) || (fmt == Sbv && SbvPairExact(line))
  }

  /** The `forEach` callback for line j, with its early returns in source order: first
      the STYLE block, then `CueStep`. */
  function PassStep(fmt: Format, ts: seq<string>, j: nat, st: PassState): PassState
    requires j < |ts|
  {
    var line := ts[j];
    var style := st.inStyle || OpensStyle(fmt, line);
    if line == [] && style then PassState(st.acc, false)
    else if style then PassState(st.acc, true)
    else PassState(CueStep(fmt, ts, j, st.acc), false)
  }

  /** WebVTT metadata, which the callback drops without touching the buffer. */
  predicate IsMetadata(fmt: Format, line: string) {
    fmt == Vtt && VttMetadata(line)
  }

  /** Line j finalizes the cue: it ends a cue, it is an SRT sequence number before a
      timing line, or it is blank. */
  predicate Closes(fmt: Format, ts: seq<string>, j: nat)
    requires j < |ts|
  {
    EndsCue(fmt, ts[j]) || (fmt == Srt && NumbersTiming(ts, j)) || ts[j] == []
  }

  /** The rest of the callback, outside a STYLE block: metadata is dropped, a closing
      line finalizes the cue, and any other line adds its cleaned text. */
  function CueStep(fmt: Format, ts: seq<string>, j: nat, acc: Acc): Acc
    requires j < |ts|
  {
    if IsMetadata(fmt, ts[j]) then acc
    else if Closes(fmt, ts, j) then Finalize(acc)
    else AddCleaned(acc, ts[j])
  }

  /** `const cleaned = cleanHtmlTags(line); if (cleaned) currentTextLines.push(cleaned);` */
  function AddCleaned(acc: Acc, line: string): Acc {
    if CleanHtmlTags(line) != [] then Appended(acc, [CleanHtmlTags(line)]) else acc
  }

  /** The state after the callback has run on the first n lines. */
  function PassScan(fmt: Format, ts: seq<string>, n: nat): PassState
    requires n <= |ts|
    decreases n, 0
  {
    if n == 0 then PassStart else PassAfter(fmt, ts, n - 1)
  }

  /** The callback for line j applied to the state before it. */
  function PassAfter(fmt: Format, ts: seq<string>, j: nat): PassState
    requires j < |ts|
    decreases j, 1
  {
    PassStep(fmt, ts, j, PassScan(fmt, ts, j))
  }

  /** One more line is one more callback. */
  lemma PassScanNext(fmt: Format, ts: seq<string>, j: nat)
    requires j < |ts|
    ensures PassScan(fmt, ts, j + 1) == PassStep(fmt, ts, j, PassScan(fmt, ts, j))
  {
    assert PassScan(fmt, ts, j + 1) == PassAfter(fmt, ts, j);
  }

  /** The accumulator after the loop and the closing `finalizeCue()`. */
  function PassResult(fmt: Format, ts: seq<string>): Acc {
    Finalize(PassScan(fmt, ts, |ts|).acc)
  }

  // ---------------------------------------------------------------------------------------
  // Which lines reach the output

  /** Line j is skipped as part of a WebVTT STYLE block. */
  predicate Skipped(fmt: Format, ts: seq<string>, j: nat)
    requires j < |ts|
  {
    fmt == Vtt && InStyleBlock(ts, j)
  }

  /** Line j is cue text: not in a STYLE block, not WebVTT metadata, not a line that ends
      a cue, not an SRT sequence number, not blank. */
  predicate IsTextLine(fmt: Format, ts: seq<string>, j: nat)
    requires j < |ts|
  {
    !Skipped(fmt, ts, j) && !IsMetadata(fmt, ts[j]) && !Closes(fmt, ts, j)
  }

  /** What line j contributes to the cues: its cleaned text, if it is a text line and
      the cleaned text is not empty. */
  function LineText(fmt: Format, ts: seq<string>, j: nat): seq<string>
    requires j < |ts|
  {
    if IsTextLine(fmt, ts, j) && CleanHtmlTags(ts[j]) != [] then
      [CleanHtmlTags(ts[j])]
    else []
  }

  /** Reference: the cleaned text lines among the first n lines, in order. */
  function TextLines(fmt: Format, ts: seq<string>, n: nat): seq<string>
    requires n <= |ts|
  {
    if n == 0 then [] else TextLines(fmt, ts, n - 1) + LineText(fmt, ts, n - 1)
  }

  /** After the first n lines the flag is set exactly when the last of them lies in a
      STYLE block and is not the blank line that closes it. */
  lemma {:induction false} PassStyleFlag(fmt: Format, ts: seq<string>, n: nat)
    requires n <= |ts|
    ensures PassScan(fmt, ts, n).inStyle <==>
            fmt == Vtt && n > 0 && InStyleBlock(ts, n - 1) && ts[n - 1] != []
  {
    if n > 0 {
      PassStyleFlag(fmt, ts, n - 1);
      StyleEntering(fmt, ts, n - 1, PassScan(fmt, ts, n - 1));
      PassScanNext(fmt, ts, n - 1);
    }
  }

  /** The `style` value the callback computes for line j is `Skipped`. */
  lemma StyleEntering(fmt: Format, ts: seq<string>, j: nat, st: PassState)
    requires j < |ts|
    requires st.inStyle <==> fmt == Vtt && j > 0 && InStyleBlock(ts, j - 1) && ts[j - 1] != []
    ensures st.inStyle || OpensStyle(fmt, ts[j]) <==> Skipped(fmt, ts, j)
  {
    assert fmt == Vtt ==> OpensStyle(fmt, ts[j]) == StyleAt(ts, j);
  }

  /** A cleaned line that is not empty is solid. */
  lemma CleanedSolid(line: string)
    requires CleanHtmlTags(line) != []
    ensures Solid(CleanHtmlTags(line))
  {
  }

  /** Outside a STYLE block, the callback appends the line's contribution, and a buffer
      it finalizes loses nothing. */
  lemma CueStepLines(fmt: Format, ts: seq<string>, j: nat, acc: Acc)
    requires j < |ts| && !Skipped(fmt, ts, j)
    requires AllSolid(acc.current) && AllCuesNonEmpty(acc.emitted) && SolidBlocks(acc.emitted)
    ensures AllSolid(CueStep(fmt, ts, j, acc).current)
    ensures AllCuesNonEmpty(CueStep(fmt, ts, j, acc).emitted)
    ensures SolidBlocks(CueStep(fmt, ts, j, acc).emitted)
    ensures Flatten(CueStep(fmt, ts, j, acc)) == Flatten(acc) + LineText(fmt, ts, j)
  {
    var line := ts[j];
    if IsMetadata(fmt, line) {
    } else if Closes(fmt, ts, j) {
      FinalizeKeepsSolidLines(acc);
      FinalizeKeepsSolidBlocks(acc);
    } else if CleanHtmlTags(line) != [] {
      CleanedSolid(line);
      AppendedFlatten(acc, [CleanHtmlTags(line)]);
    }
  }

  /** One callback: the text it appends is the line's contribution, and a buffer it
      finalizes loses nothing. */
  lemma PassStepLines(fmt: Format, ts: seq<string>, j: nat, st: PassState)
    requires j < |ts|
    requires st.inStyle <==> fmt == Vtt && j > 0 && InStyleBlock(ts, j - 1) && ts[j - 1] != []
    requires AllSolid(st.acc.current) && AllCuesNonEmpty(st.acc.emitted) && SolidBlocks(st.acc.emitted)
    ensures AllSolid(PassStep(fmt, ts, j, st).acc.current)
    ensures AllCuesNonEmpty(PassStep(fmt, ts, j, st).acc.emitted)
    ensures SolidBlocks(PassStep(fmt, ts, j, st).acc.emitted)
    ensures Flatten(PassStep(fmt, ts, j, st).acc) == Flatten(st.acc) + LineText(fmt, ts, j)
  {
    StyleEntering(fmt, ts, j, st);
    if !Skipped(fmt, ts, j) {
      CueStepLines(fmt, ts, j, st.acc);
    }
  }

  /** After the first n lines every buffered and every emitted line is a cleaned text
      line, all of them are there, in order, and every emitted cue has text. */
  lemma {:induction false} PassScanLines(fmt: Format, ts: seq<string>, n: nat)
    requires n <= |ts|
    ensures AllSolid(PassScan(fmt, ts, n).acc.current)
    ensures AllCuesNonEmpty(PassScan(fmt, ts, n).acc.emitted)
    ensures SolidBlocks(PassScan(fmt, ts, n).acc.emitted)
    ensures Flatten(PassScan(fmt, ts, n).acc) == TextLines(fmt, ts, n)
  {
    if n > 0 {
      PassScanLines(fmt, ts, n - 1);
      PassStyleFlag(fmt, ts, n - 1);
      PassStepLines(fmt, ts, n - 1, PassScan(fmt, ts, n - 1));
      PassScanNext(fmt, ts, n - 1);
    }
  }

  /** The cues of the pass hold exactly the cleaned text lines, in order, and the
      output is those lines joined with LF: one LF between two lines, whether or not a
      cue boundary falls between them. */
  lemma PassResultLines(fmt: Format, ts: seq<string>)
    ensures PassResult(fmt, ts).current == []
    ensures Concat(PassResult(fmt, ts).emitted) == TextLines(fmt, ts, |ts|)
    ensures Output(PassResult(fmt, ts)) == Join(TextLines(fmt, ts, |ts|), '\n')
  {
    var acc := PassScan(fmt, ts, |ts|).acc;
    PassScanLines(fmt, ts, |ts|);
    FinalizeKeepsSolidLines(acc);
    FinalizeKeepsSolidBlocks(acc);
    OutputIsJoin(PassResult(fmt, ts).emitted);
    SolidBlocksJoin(PassResult(fmt, ts).emitted);
  }

  // ---------------------------------------------------------------------------------------
  // Cue boundaries

  /** A timing line starts with a digit. */
  lemma TimestampStartsWithDigit(line: string)
    requires SrtVttTimestamp(line)
    ensures line != [] && IsDigit(line[0])
  {
  }

  /** A timing line outside a STYLE block closes the cue: the buffer is empty after it,
      and it is not text. */
  lemma TimingLineEndsCue(fmt: Format, ts: seq<string>, j: nat)
    requires j < |ts| && !Skipped(fmt, ts, j) && SrtVttTimestamp(ts[j])
    ensures PassScan(fmt, ts, j + 1).acc.current == []
    ensures !IsTextLine(fmt, ts, j)
  {
    PassStyleFlag(fmt, ts, j);
    StyleEntering(fmt, ts, j, PassScan(fmt, ts, j));
    PassScanNext(fmt, ts, j);
    TimestampStartsWithDigit(ts[j]);
    DigitStartNotMetadata(ts[j]);
  }

  /** In SRT, a digits-only line followed by a timing line closes the cue and is
      dropped. */
  lemma SrtSequenceNumberDropped(ts: seq<string>, j: nat)
    requires j < |ts| && NumbersTiming(ts, j)
    ensures PassScan(Srt, ts, j + 1).acc.current == []
    ensures LineText(Srt, ts, j) == []
  {
    PassStyleFlag(Srt, ts, j);
    PassScanNext(Srt, ts, j);
    assert Closes(Srt, ts, j);
  }

  /** A digits-only line is neither a timing line nor an SBV timing pair. */
  lemma DigitsNotTiming(line: string)
    requires SequenceNumber(line)
    ensures !SrtVttTimestamp(line) && !SbvPairExact(line)
  {
    if |line| > 2 {
      assert IsDigit(line[2]);
    }
  }

  /** Outside SRT, a digits-only line outside a STYLE block is cue text, kept as it is:
      a WebVTT cue identifier, or a number in SBV or UNKNOWN content, reaches the
      output. */
  lemma DigitsKeptUnlessSrt(fmt: Format, ts: seq<string>, j: nat)
    requires j < |ts| && fmt != Srt && !Skipped(fmt, ts, j) && SequenceNumber(ts[j])
    ensures IsTextLine(fmt, ts, j)
    ensures LineText(fmt, ts, j) == [ts[j]]
  {
    var line := ts[j];
    DigitsNotTiming(line);
    DigitStartNotMetadata(line);
    assert '<' !in line && '&' !in line by {
      forall k | 0 <= k < |line| ensures line[k] != '<' && line[k] != '&' {
        assert IsDigit(line[k]);
      }
    }
    CleanHtmlTagsOfPlainText(line);
  }

  /** In SBV content an exact SBV timing pair outside a STYLE block closes the cue and
      is dropped. */
  lemma SbvPairEndsSbvCue(ts: seq<string>, j: nat)
    requires j < |ts| && !Skipped(Sbv, ts, j) && SbvPairExact(ts[j])
    ensures PassScan(Sbv, ts, j + 1).acc.current == [] && LineText(Sbv, ts, j) == []
  {
    SbvPairShape(ts[j]);
    PassStyleFlag(Sbv, ts, j);
    PassScanNext(Sbv, ts, j);
    assert Closes(Sbv, ts, j);
  }

  /** In any other format an exact SBV timing pair outside a STYLE block is cue text,
      kept as it is. */
  lemma SbvPairKeptOtherwise(fmt: Format, ts: seq<string>, j: nat)
    requires j < |ts| && fmt != Sbv && !Skipped(fmt, ts, j) && SbvPairExact(ts[j])
    ensures IsTextLine(fmt, ts, j) && LineText(fmt, ts, j) == [ts[j]]
  {
    var line := ts[j];
    SbvPairShape(line);
    DigitStartNotMetadata(line);
    CleanHtmlTagsOfPlainText(line);
  }

  /** A line that starts with `<` is no timing line, no SBV pair, no sequence number and
      no WebVTT metadata: outside a STYLE block it is cue text. */
  lemma TagStartIsText(fmt: Format, ts: seq<string>, j: nat)
    requires j < |ts| && !Skipped(fmt, ts, j) && ts[j] != [] && ts[j][0] == '<'
    ensures IsTextLine(fmt, ts, j)
  {
    var line := ts[j];
    assert !SrtVttTimestamp(line) by {
      if SrtVttTimestamp(line) {
        TimestampStartsWithDigit(line);
      }
    }
    assert !SbvPairExact(line) by {
      if SbvPairExact(line) {
        SbvPairShape(line);
      }
    }
    assert !SequenceNumber(line);
    assert !VttMetadata(line) by {
      assert ToUpper(line)[0] == '<';
      forall k | 0 <= k < |VttKeywords| ensures !StartsWith(ToUpper(line), VttKeywords[k]) {
        assert VttKeywords[k][0] != '<';
      }
    }
  }

  /** The timing test looks at the raw line, before any cleaning: a timing line wrapped in
      `<b>…</b>` is not recognised, so it is cue text, and cleaning leaves the bare timing
      line in the output. */
  lemma WrappedTimingLineKept(fmt: Format, ts: seq<string>, j: nat, y: string)
    requires j < |ts| && !Skipped(fmt, ts, j) && ts[j] == "<b>" + y + "</b>"
    requires SrtVttTimestamp(y) && '<' !in y && '&' !in y && Trimmed(y)
    ensures IsTextLine(fmt, ts, j) && LineText(fmt, ts, j) == [y]
  {
    assert ts[j][0] == '<';
    TagStartIsText(fmt, ts, j);
    CleanHtmlTagsBoldLine(y);
    TimestampStartsWithDigit(y);
  }

  // ---------------------------------------------------------------------------------------
  // The loop

  /** `cleaned = cleanHtmlTags(line)`, pushed when not empty. */
  method PushCleaned(buf: CueBuffer, line: string)
    requires buf.Valid()
    modifies buf
    ensures buf.Valid() && buf.Model() == AddCleaned(old(buf.Model()), line)
  {
    var cleaned := CleanHtmlTags(line);
    if cleaned != [] {
      buf.Push(cleaned);
    }
  }

  /** The three tests of the callback that end in `finalizeCue(); return;`, in source
      order: a timing line (or, for SBV, an exact timing pair), an SRT sequence number
      before a timing line, a blank line. */
  method ClosesCue(fmt: Format, lines: seq<string>, ghost ts: seq<string>, index: nat, line: string)
    returns (closes: bool)
    requires index < |lines| && ts == TrimLines(lines) && line == ts[index]
    ensures closes == Closes(fmt, ts, index)
  {
    assert Closes(fmt, ts, index) ==
           (EndsCue(fmt, line) || (fmt == Srt && NumbersTiming(ts, index)) || line == []);
    if SrtVttTimestamp(line) || (fmt == Sbv && SbvPairExact(line)) {
      return true;
    }
    if SequenceNumber(line) {
      if fmt == Srt && index + 1 < |lines| {
        TrimLinesAt(lines, index + 1);
        if SrtVttTimestamp(Trim(lines[index + 1])) {
          return true;
        }
      }
    }
    return line == [];
  }

  /** The callback after the STYLE checks. */
  method CueLine(buf: CueBuffer, fmt: Format, lines: seq<string>, ghost ts: seq<string>, index: nat)
    requires buf.Valid() && index < |lines| && ts == TrimLines(lines)
    modifies buf
    ensures buf.Valid() && buf.Model() == CueStep(fmt, ts, index, old(buf.Model()))
  {
    var line := Trim(lines[index]);
    TrimLinesAt(lines, index);
    if VttMetadata(line) && fmt == Vtt {
      return;
    }
    var closes := ClosesCue(fmt, lines, ts, index, line);
    if closes {
      buf.FinalizeCue();
      return;
    }
    PushCleaned(buf, line);
  }

  /** The `forEach` callback for line `index`: updates the buffer and returns the new
      `inVttStyleBlock`. */
  method PassLine(buf: CueBuffer, fmt: Format, lines: seq<string>, ghost ts: seq<string>, index: nat, inVttStyleBlock: bool)
    returns (inStyle: bool)
    requires buf.Valid() && index < |lines| && ts == TrimLines(lines)
    requires PassState(buf.Model(), inVttStyleBlock) == PassScan(fmt, ts, index)
    modifies buf
    ensures buf.Valid() && PassState(buf.Model(), inStyle) == PassScan(fmt, ts, index + 1)
  {
    PassScanNext(fmt, ts, index);
    inStyle := inVttStyleBlock;
    var line := Trim(lines[index]);
    TrimLinesAt(lines, index);
    if StartsWith(ToUpper(line), "STYLE") && fmt == Vtt {
      inStyle := true;
    }
    if line == [] && inStyle {
      inStyle := false;
      return;
    }
    if inStyle {
      return;
    }
    CueLine(buf, fmt, lines, ts, index);
  }

  /** `lines.forEach(...)`: returns the final `inVttStyleBlock`. */
  method ForEachLine(buf: CueBuffer, fmt: Format, lines: seq<string>) returns (inVttStyleBlock: bool)
    requires buf.Valid() && buf.Model() == Start
    modifies buf
    ensures buf.Valid() && PassState(buf.Model(), inVttStyleBlock) == PassScan(fmt, TrimLines(lines), |lines|)
  {
    ghost var ts := TrimLines(lines);
    inVttStyleBlock := false;
    var index := 0;
    while index < |lines|
      invariant 0 <= index <= |lines|
      invariant buf.Valid() && PassState(buf.Model(), inVttStyleBlock) == PassScan(fmt, ts, index)
    {
      inVttStyleBlock := PassLine(buf, fmt, lines, ts, index, inVttStyleBlock);
      index := index + 1;
    }
  }

  /** `lines.forEach(...)` followed by `finalizeCue()`. */
  method ScanLines(buf: CueBuffer, fmt: Format, lines: seq<string>)
    requires buf.Valid() && buf.Model() == Start
    modifies buf
    ensures buf.Valid() && buf.Model() == PassResult(fmt, TrimLines(lines))
  {
    var _ := ForEachLine(buf, fmt, lines);
    buf.FinalizeCue();
  }
}
