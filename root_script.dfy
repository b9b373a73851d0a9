/**
 * The single-file extractor of `script.js`: `detectFormat`, which consults the content
 * before the file name, and the extraction body of `processSubtitleContent`, one
 * line-driven state machine per format.
 */
module RootScript {
  import opened Wrappers
  import opened JsString
  import opened Patterns
  import opened TagCleaners
  import opened Cues
  import opened Formats
  import opened Sami
  import opened LineRules
  import opened LinePass
  import opened AssEvents
  import opened RootPasses

  // ---------------------------------------------------------------------------------------
  // detectFormat

  /** The SBV confirmation: there are at least two lines, the trimmed first one is
      exactly a timing pair and the second one is not blank. */
  predicate SbvConfirmed(content: string) {
    var lines := SplitLines(content);
    |lines| > 1 && SbvPairExact(Trim(lines[0])) && Trim(lines[1]) != []
  }

  /** The extension rules at the end of `detectFormat`; `.sbv` is not among them. */
  function FallbackFormat(ext: string): Format {
    if ext == ".srt" then Srt
    else if ext == ".vtt" then Vtt
    else if ext == ".ass" || ext == ".ssa" then AssSsa
    else if ext == ".smi" then Smi
    else Unknown
  }

  /** `detectFormat(content, fileName)`. */
  function DetectFormat(content: string, fileName: string): Format {
    var ext := Extension(fileName);
    if HasSamiTag(content) then Smi
    else if HasAssSections(content) then AssSsa
    else if StartsWebVtt(content) then Vtt
    else if (ext == ".sbv" || SbvPairAtLineStart(content)) && SbvConfirmed(content) then Sbv
    else if HasArrow(content) then Srt
    else FallbackFormat(ext)
  }

  /** The content rules come first, in this order, and whatever the file name is:
      `<SAMI>` gives SMI, the two ASS section headers give ASS_SSA, a `WEBVTT` prefix
      gives VTT, and `-->` gives SRT unless the content is confirmed SBV. */
  lemma ContentRulesFirst(content: string, fileName: string)
    ensures HasSamiTag(content) ==> DetectFormat(content, fileName) == Smi
    ensures !HasSamiTag(content) && HasAssSections(content) ==> DetectFormat(content, fileName) == AssSsa
    ensures (!HasSamiTag(content) && !HasAssSections(content) && StartsWebVtt(content))
            ==> DetectFormat(content, fileName) == Vtt
    ensures (!HasSamiTag(content) && !HasAssSections(content) && !StartsWebVtt(content)
             && HasArrow(content) && !SbvConfirmed(content)) ==> DetectFormat(content, fileName) == Srt
  {
  }

  /** When no content rule applies, only the extension decides: `.sbv` still needs the
      confirmation, and any other name gives the fallback, UNKNOWN included. */
  lemma ExtensionOnlyAsFallback(content: string, fileName: string)
    requires !HasSamiTag(content) && !HasAssSections(content) && !StartsWebVtt(content)
    requires !HasArrow(content) && !SbvPairAtLineStart(content)
    ensures DetectFormat(content, fileName) ==
            if Extension(fileName) == ".sbv" && SbvConfirmed(content) then Sbv
            else FallbackFormat(Extension(fileName))
  {
  }

  /** SBV is returned only for confirmed content: the trimmed first line is exactly a
      timing pair and the second line is not blank. */
  lemma SbvOnlyWhenConfirmed(content: string, fileName: string)
    requires DetectFormat(content, fileName) == Sbv
    ensures SbvConfirmed(content)
    ensures Extension(fileName) == ".sbv" || SbvPairAtLineStart(content)
  {
  }

  /** A `.sbv` file that fails the confirmation falls through: without `-->` and without
      the other content markers it is UNKNOWN. */
  lemma UnconfirmedSbvFile(content: string, fileName: string)
    requires Extension(fileName) == ".sbv" && !SbvConfirmed(content)
    requires !HasSamiTag(content) && !HasAssSections(content) && !StartsWebVtt(content)
    ensures DetectFormat(content, fileName) == if HasArrow(content) then Srt else Unknown
  {
  }

  /** The trimmed first line of content that does not start with white space is a prefix
      of the content. */
  lemma TrimmedFirstLinePrefix(content: string)
    requires content != [] && !IsSpace(content[0])
    ensures |Trim(SplitLines(content)[0])| <= |content|
    ensures content[..|Trim(SplitLines(content)[0])|] == Trim(SplitLines(content)[0])
  {
    var first := SplitLines(content)[0];
    if first != [] {
      assert first[0] == content[0];
      TrimKeepsStart(first);
    }
  }

  /** The first line of confirmed SBV content that does not start with white space is an
      SBV timing pair at the start of the content. */
  lemma ConfirmedPairAtLineStart(content: string)
    requires SbvConfirmed(content) && content != [] && !IsSpace(content[0])
    ensures SbvPairAtLineStart(content)
  {
    var t := Trim(SplitLines(content)[0]);
    TrimmedFirstLinePrefix(content);
    ExactPairStarts(t);
    var rest := content[|t|..];
    assert content == t + rest;
    PairStartsInExtension(t, rest, 0);
    assert SbvPairStartsAt(content, 0);
  }

  /** Confirmed SBV content whose first character is not white space is SBV whatever the
      file is called: its first line already satisfies the multi-line test. */
  lemma ConfirmedSbvAnyName(content: string, fileName: string)
    requires SbvConfirmed(content) && content != [] && !IsSpace(content[0])
    requires !HasSamiTag(content) && !HasAssSections(content) && !StartsWebVtt(content)
    ensures DetectFormat(content, fileName) == Sbv
  {
    ConfirmedPairAtLineStart(content);
  }

  // ---------------------------------------------------------------------------------------
  // processSubtitleContent

  /** What one call leaves in the output box: for SMI content that fails to parse the
      function returns early and the box keeps what it held; otherwise it shows the
      trimmed `extractedText` of the detected format. */
  datatype Outcome = SmiParseError | Shown(format: Format, text: string)

  /** The extraction body of `processSubtitleContent(content, fileName)`; `doc` stands
      for what `DOMParser` makes of the content, which only the SMI branch reads. */
  function RootExtraction(content: string, fileName: string, doc: SamiDocument): Outcome {
    var format := DetectFormat(content, fileName);
    var lines := SplitLines(content);
    match format
    case Unknown => Shown(Unknown, Output(UnknownResult(ClassifyLines(lines))))
    case Srt => Shown(Srt, Output(PassResult(Srt, TrimLines(lines))))
    case Vtt => Shown(Vtt, Output(PassResult(Vtt, TrimLines(lines))))
    case AssSsa => Shown(AssSsa, Output(AssScan(false, TrimLines(lines), |lines|).acc))
    case Sbv => Shown(Sbv, Output(SbvResult(ClassifyLines(lines))))
    case Smi =>
      if doc.ParseError? then SmiParseError
      else Shown(Smi, Output(SamiScan(doc.paragraphs, |doc.paragraphs|)))
  }

  /** SRT and VTT content shows its cleaned text lines, one per line: the lines that are
      not timing lines, SRT sequence numbers, WebVTT metadata or STYLE blocks. */
  lemma RootSrtVttText(content: string, fileName: string, doc: SamiDocument)
    requires DetectFormat(content, fileName) in {Srt, Vtt}
    ensures var format := DetectFormat(content, fileName);
            var ts := TrimLines(SplitLines(content));
            RootExtraction(content, fileName, doc) == Shown(format, Join(TextLines(format, ts, |ts|), '\n'))
  {
    var ts := TrimLines(SplitLines(content));
    if DetectFormat(content, fileName) == Srt {
      PassResultLines(Srt, ts);
    } else {
      PassResultLines(Vtt, ts);
    }
  }

  /** ASS/SSA content shows the texts of the `Dialogue:` lines of its events section, one
      per line; `Comment:` lines are not taken. */
  lemma RootAssText(content: string, fileName: string, doc: SamiDocument)
    requires DetectFormat(content, fileName) == AssSsa
    ensures var ts := TrimLines(SplitLines(content));
            RootExtraction(content, fileName, doc) == Shown(AssSsa, Join(EventTexts(false, ts, |ts|), '\n'))
  {
    AssOutput(false, TrimLines(SplitLines(content)));
  }

  /** SBV content shows one line per non-empty block after a timing pair, the block's
      cleaned lines joined with LF. */
  lemma RootSbvText(content: string, fileName: string, doc: SamiDocument)
    requires DetectFormat(content, fileName) == Sbv
    ensures var infos := ClassifyLines(SplitLines(content));
            RootExtraction(content, fileName, doc) == Shown(Sbv, Join(JoinedBlocks(PairBlocks(infos, 0)), '\n'))
  {
    ClassifiedLines(SplitLines(content));
    SbvOutput(SplitLines(content), ClassifyLines(SplitLines(content)));
  }

  /** UNKNOWN content shows the texts of its runs, one per line: the kept lines between
      two blank lines form one run, shown as their cleaned texts joined with LF, without
      the empty texts at either end; and the non-empty lines shown are exactly the kept
      lines, cleaned: no timing line, bare number or blank line. */
  lemma RootUnknownText(content: string, fileName: string, doc: SamiDocument)
    requires DetectFormat(content, fileName) == Unknown
    ensures var infos := ClassifyLines(SplitLines(content));
            && RootExtraction(content, fileName, doc) == Shown(Unknown, Join(RunTexts(Runs(infos, |infos|)), '\n'))
            && NonEmptyLines(Concat(UnknownResult(infos).emitted)) == KeptTexts(infos, |infos|)
  {
    var infos := ClassifyLines(SplitLines(content));
    ClassifiedLines(SplitLines(content));
    ClassifiedClean(SplitLines(content), infos);
    UnknownResultLines(SplitLines(content), infos);
    UnknownOutputRuns(infos);
  }

  /** SMI content that parses shows its non-blank paragraphs, one per line; content that
      does not parse leaves the output box untouched. */
  lemma RootSmiText(content: string, fileName: string, doc: SamiDocument)
    requires DetectFormat(content, fileName) == Smi
    ensures RootExtraction(content, fileName, doc) ==
            if doc.ParseError? then SmiParseError
            else Shown(Smi, Join(NonBlankTexts(doc.paragraphs, |doc.paragraphs|), '\n'))
  {
    if doc.Parsed? {
      SamiScanCues(doc.paragraphs, |doc.paragraphs|);
      OutputIsJoin(SamiScan(doc.paragraphs, |doc.paragraphs|).emitted);
    }
  }

  /** `processSubtitleContent(content, fileName)` up to the point where the output box is
      filled: detect, split, run the branch of the detected format on a fresh buffer. */
  method ProcessSubtitleContent(content: string, fileName: string, doc: SamiDocument) returns (outcome: Outcome)
    ensures outcome == RootExtraction(content, fileName, doc)
  {
    var format := DetectFormat(content, fileName);
    var lines := SplitLines(content);
    var buf := new CueBuffer();
    if format == Unknown {
      ClassifiedLines(lines);
      ScanUnknown(buf, lines, ClassifyLines(lines));
    } else if format == Srt || format == Vtt {
      ScanLines(buf, format, lines);
    } else if format == AssSsa {
      ScanEvents(buf, false, lines);
    } else if format == Sbv {
      ClassifiedLines(lines);
      ScanSbv(buf, lines, ClassifyLines(lines));
    } else {
      if doc.ParseError? {
        return SmiParseError;
      }
      ExtractParagraphs(buf, doc.paragraphs);
    }
    var text := buf.Result();
    outcome := Shown(format, text);
  }
}
