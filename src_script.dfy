/**
 * The batch extractor of `Src/script.js`: `detectFormat`, which consults the file name
 * before the content, `extractTextFromContent`, in which SRT, VTT, SBV and UNKNOWN
 * content share one line pass and ASS/SSA takes `Comment:` events too, the file-name
 * filter of `handleFiles` and the name `downloadTextFile` gives its download.
 */
module SrcScript {
  import opened Wrappers
  import opened JsString
  import opened Patterns
  import opened Cues
  import opened Formats
  import opened Sami
  import opened LineRules
  import opened LinePass
  import opened AssEvents
  import RootScript

  // ---------------------------------------------------------------------------------------
  // detectFormat

  /** `detectFormat(content, fileName)`: the five extension rules first, `.sbv` among
      them; then the content rules, where any line that starts with an SBV timing pair
      gives SBV without further confirmation. */
  function DetectFormat(content: string, fileName: string): Format {
    var ext := Extension(fileName);
    if ext == ".srt" then Srt
    else if ext == ".vtt" then Vtt
    else if ext == ".ass" || ext == ".ssa" then AssSsa
    else if ext == ".smi" then Smi
    else if ext == ".sbv" then Sbv
    else if HasSamiTag(content) then Smi
    else if HasAssSections(content) then AssSsa
    else if StartsWebVtt(content) then Vtt
    else if SbvPairAtLineStart(content) then Sbv
    else if HasArrow(content) then Srt
    else Unknown
  }

  /** Every name the file filter accepts has its format fixed by the name alone: the
      content never changes it, and it is never UNKNOWN. */
  lemma AcceptedNameDecides(content: string, other: string, fileName: string)
    requires IsAccepted(fileName)
    ensures DetectFormat(content, fileName) == DetectFormat(other, fileName)
    ensures DetectFormat(content, fileName) != Unknown
  {
    AcceptedIffExtension(fileName);
  }

  /** Without an accepted extension and without an SBV timing pair at the start of a line,
      the two front-ends detect the same format. */
  lemma AgreesWithRootOtherwise(content: string, fileName: string)
    requires Extension(fileName) !in AcceptedFileTypes && !SbvPairAtLineStart(content)
    ensures DetectFormat(content, fileName) == RootScript.DetectFormat(content, fileName)
  {
  }

  /** Without an accepted extension, a line that starts with an SBV timing pair is enough
      for SBV here, while `script.js` also wants the first line to be exactly a pair and
      the second not blank, and otherwise reads the content as SRT or UNKNOWN. */
  lemma SbvWithoutConfirmation(content: string, fileName: string)
    requires Extension(fileName) !in AcceptedFileTypes
    requires !HasSamiTag(content) && !HasAssSections(content) && !StartsWebVtt(content)
    requires SbvPairAtLineStart(content)
    ensures DetectFormat(content, fileName) == Sbv
    ensures RootScript.DetectFormat(content, fileName) ==
            if RootScript.SbvConfirmed(content) then Sbv else if HasArrow(content) then Srt else Unknown
  {
  }

  /** A file name with an accepted extension beats the content here, while `script.js`
      lets a `<SAMI>` tag win over any name. */
  lemma NameBeatsSamiTag(content: string, fileName: string)
    requires IsAccepted(fileName) && HasSamiTag(content)
    ensures RootScript.DetectFormat(content, fileName) == Smi
    ensures Extension(fileName) == ".srt" ==> DetectFormat(content, fileName) == Srt
    ensures Extension(fileName) == ".sbv" ==> DetectFormat(content, fileName) == Sbv
  {
    AcceptedIffExtension(fileName);
  }

  // ---------------------------------------------------------------------------------------
  // extractTextFromContent

  /** The accumulator the branch of the detected format leaves behind; `doc` stands for
      what `DOMParser` makes of the content, which only the SMI branch reads. SMI content
      that does not parse leaves none: the function returns there. */
  function BranchResult(content: string, fileName: string, doc: SamiDocument): Option<Acc> {
    var format := DetectFormat(content, fileName);
    var lines := SplitLines(content);
    match format
    case AssSsa => Some(AssScan(true, TrimLines(lines), |lines|).acc)
    case Smi =>
      if doc.ParseError? then None
      else Some(SamiScan(doc.paragraphs, |doc.paragraphs|))
    case _ => Some(PassResult(format, TrimLines(lines)))
  }

  /** `extractTextFromContent(content, fileName)`: the trimmed `extractedText` of the
      branch, or the empty string after a parse error; either way a trimmed string. */
  function SrcExtraction(content: string, fileName: string, doc: SamiDocument): (r: string)
    ensures r == [] || (!IsSpace(r[0]) && !IsSpace(r[|r| - 1]))
  {
    match BranchResult(content, fileName, doc)
    case None => []
    case Some(acc) => Output(acc)
  }

  /** SRT, VTT, SBV and UNKNOWN content gives its cleaned text lines joined with LF;
      which lines those are depends on the format only through the STYLE block and
      metadata (VTT), the sequence numbers (SRT) and the exact timing pairs (SBV). */
  lemma SrcPassText(content: string, fileName: string, doc: SamiDocument)
    requires DetectFormat(content, fileName) in {Srt, Vtt, Sbv, Unknown}
    ensures var format := DetectFormat(content, fileName);
            var ts := TrimLines(SplitLines(content));
            SrcExtraction(content, fileName, doc) == Join(TextLines(format, ts, |ts|), '\n')
  {
    var format := DetectFormat(content, fileName);
    var ts := TrimLines(SplitLines(content));
    assert SrcExtraction(content, fileName, doc) == Output(PassResult(format, ts));
    PassResultLines(format, ts);
  }

  /** ASS/SSA content gives the texts of the `Dialogue:` and `Comment:` lines of its
      events section, one per line. */
  lemma SrcAssText(content: string, fileName: string, doc: SamiDocument)
    requires DetectFormat(content, fileName) == AssSsa
    ensures var ts := TrimLines(SplitLines(content));
            SrcExtraction(content, fileName, doc) == Join(EventTexts(true, ts, |ts|), '\n')
  {
    AssOutput(true, TrimLines(SplitLines(content)));
  }

  /** SMI content gives its non-blank paragraphs, one per line, or nothing at all when
      the markup does not parse. */
  lemma SrcSmiText(content: string, fileName: string, doc: SamiDocument)
    requires DetectFormat(content, fileName) == Smi
    ensures SrcExtraction(content, fileName, doc) ==
            if doc.ParseError? then [] else Join(NonBlankTexts(doc.paragraphs, |doc.paragraphs|), '\n')
  {
    if doc.Parsed? {
      SamiScanCues(doc.paragraphs, |doc.paragraphs|);
      OutputIsJoin(SamiScan(doc.paragraphs, |doc.paragraphs|).emitted);
    }
  }

  /** `extractTextFromContent(content, fileName)`: detect, split, run the branch of the
      detected format on a fresh buffer and return the trimmed text. */
  method ExtractTextFromContent(content: string, fileName: string, doc: SamiDocument) returns (text: string)
    ensures text == SrcExtraction(content, fileName, doc)
  {
    var format := DetectFormat(content, fileName);
    var lines := SplitLines(content);
    var buf := new CueBuffer();
    if format == Srt || format == Vtt || format == Sbv || format == Unknown {
      ScanLines(buf, format, lines);
    } else if format == AssSsa {
      ScanEvents(buf, true, lines);
    } else {
      if doc.ParseError? {
        return [];
      }
      ExtractParagraphs(buf, doc.paragraphs);
    }
    text := buf.Result();
  }

  // ---------------------------------------------------------------------------------------
  // handleFiles and downloadTextFile

  /** `Array.prototype.filter`: the elements `keep` accepts, in their order. */
  function Filter(names: seq<string>, keep: string -> bool): (r: seq<string>)
    ensures |r| <= |names|
  {
    if names == [] then []
    else
      var rest := Filter(names[1..], keep);
      if keep(names[0]) then [names[0]] + rest else rest
  }

  /** The filter keeps every accepted element as often as it occurs, and no other. */
  lemma {:induction false} FilterCount(names: seq<string>, keep: string -> bool, x: string)
    ensures multiset(Filter(names, keep))[x] == if keep(x) then multiset(names)[x] else 0
  {
    if names != [] {
      FilterCount(names[1..], keep, x);
      assert names == [names[0]] + names[1..];
    }
  }

  lemma FilterCons(name: string, rest: seq<string>, keep: string -> bool)
    ensures Filter([name] + rest, keep) == Filter([name], keep) + Filter(rest, keep)
  {
    assert ([name] + rest)[1..] == rest;
    assert [name][1..] == [];
  }

  /** The filter keeps the order: filtering two lists one after the other is filtering
      each and putting the results one after the other. */
  lemma {:induction false} FilterConcat(a: seq<string>, b: seq<string>, keep: string -> bool)
    ensures Filter(a + b, keep) == Filter(a, keep) + Filter(b, keep)
  {
    if a == [] {
      assert a + b == b;
    } else {
      FilterConcat(a[1..], b, keep);
      assert a + b == [a[0]] + (a[1..] + b);
      assert a == [a[0]] + a[1..];
      FilterCons(a[0], a[1..] + b, keep);
      FilterCons(a[0], a[1..], keep);
    }
  }

  /** The filter at the start of `handleFiles`: the names with an accepted extension. */
  function ValidFiles(names: seq<string>): (r: seq<string>)
    ensures |r| <= |names|
  {
    Filter(names, IsAccepted)
  }

  /** The filter keeps every accepted name as often as it occurs, and no other name; so
      `validFiles.length` counts the accepted files. */
  lemma ValidFilesCount(names: seq<string>, x: string)
    ensures multiset(ValidFiles(names))[x] == if IsAccepted(x) then multiset(names)[x] else 0
  {
    FilterCount(names, IsAccepted, x);
  }

  /** The filter keeps exactly the accepted names. */
  lemma ValidFilesMembers(names: seq<string>)
    ensures forall x :: x in ValidFiles(names) <==> x in names && IsAccepted(x)
  {
    forall x ensures x in ValidFiles(names) <==> x in names && IsAccepted(x) {
      ValidFilesCount(names, x);
    }
  }

  /** The filter keeps the order of the names. */
  lemma ValidFilesConcat(a: seq<string>, b: seq<string>)
    ensures ValidFiles(a + b) == ValidFiles(a) + ValidFiles(b)
  {
    FilterConcat(a, b, IsAccepted);
  }

  /** The name of the download: the original name up to its last `.`, or the whole
      name when it has none, followed by `.txt`. */
  function DownloadName(originalFileName: string): string {
    var baseName :=
      if '.' in originalFileName then originalFileName[..LastIndexOf(originalFileName, '.')]
      else originalFileName;
    baseName + ".txt"
  }

  /** `downloadTextFile(text, originalFileName)`: no download for empty or blank text,
      otherwise one under `DownloadName`. */
  function Download(text: string, originalFileName: string): Option<string> {
    if text == [] || Trim(text) == [] then None else Some(DownloadName(originalFileName))
  }

  /** The download name ends in `.txt`; what comes before is the name itself when it has
      no `.`, and otherwise the part of the name before a `.` that is followed by no
      other `.`. */
  lemma DownloadNameParts(name: string)
    ensures var r := DownloadName(name);
            |r| >= 4 && r[|r| - 4..] == ".txt" &&
            var base := r[..|r| - 4];
            ('.' !in name ==> base == name) &&
            ('.' in name ==> |base| < |name| && name == base + "." + name[|base| + 1..] && '.' !in name[|base| + 1..])
  {
    var r := DownloadName(name);
    if '.' in name {
      var dot := LastIndexOf(name, '.');
      assert dot >= 0 by {
        var k :| 0 <= k < |name| && name[k] == '.';
      }
      var base := name[..dot];
      assert r[..|r| - 4] == base;
      assert name == base + "." + name[dot + 1..];
      var tail := name[dot + 1..];
      forall k | 0 <= k < |tail| ensures tail[k] != '.' {
        assert tail[k] == name[dot + 1 + k];
      }
    } else {
      assert r[..|r| - 4] == name;
    }
  }

  /** A download happens exactly for text that is not blank. */
  lemma DownloadIffNotBlank(text: string, name: string)
    ensures Download(text, name).Some? <==> Trim(text) != []
    ensures Download(text, name).Some? ==> Download(text, name).value == DownloadName(name)
  {
    if text == [] {
      TrimEmpty(text);
    }
  }

  /** The extracted text of a file is downloaded exactly when it is not empty. */
  lemma DownloadIffExtracted(content: string, fileName: string, doc: SamiDocument)
    ensures var text := SrcExtraction(content, fileName, doc);
            Download(text, fileName).Some? <==> text != []
  {
    var text := SrcExtraction(content, fileName, doc);
    TrimTrimmed(text);
    DownloadIffNotBlank(text, fileName);
  }
}
