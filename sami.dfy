/**
 * The SAMI branch, which both front-ends carry in identical form. The XML parse is
 * abstracted: the document arrives as either a parse error or, for each `SYNC` element
 * in document order, the `innerHTML` of the first `P` element below it (`None` when there is none).
 */
module Sami {
  import opened Wrappers
  import opened JsString
  import opened TagCleaners
  import opened Cues

  datatype SamiDocument = ParseError | Parsed(paragraphs: seq<Option<string>>)

  /** A paragraph's markup with `<br>` turned into line feeds, then cleaned. */
  function ParagraphText(html: string): string {
    CleanHtmlTags(BreaksToNewlines(html))
  }

  /** The loop body for one `SYNC`: a paragraph whose trimmed text is not blank becomes a
      cue of its own. */
  function SamiStep(a: Acc, p: Option<string>): Acc {
    if p.Some? && Trim(ParagraphText(p.value)) != [] then
      Finalize(Appended(a, [Trim(ParagraphText(p.value))]))
    else a
  }

  /** The accumulator after the first n `SYNC` elements. */
  function SamiScan(paragraphs: seq<Option<string>>, n: nat): Acc
    requires n <= |paragraphs|
  {
    if n == 0 then Start else SamiStep(SamiScan(paragraphs, n - 1), paragraphs[n - 1])
  }

  /** The cue texts one `SYNC` element adds to an empty-buffered accumulator. */
  function StepTexts(p: Option<string>): seq<string> {
    if p.Some? && ParagraphText(p.value) != [] then [ParagraphText(p.value)] else []
  }

  /** Reference: the non-blank paragraph texts of the first n `SYNC` elements, in order. */
  function NonBlankTexts(paragraphs: seq<Option<string>>, n: nat): seq<string>
    requires n <= |paragraphs|
  {
    if n == 0 then []
    else
      NonBlankTexts(paragraphs, n - 1) + StepTexts(paragraphs[n - 1])
  }

  /** One `SYNC` element adds at most one cue, the cleaned paragraph, and leaves the
      buffer empty. */
  lemma SamiStepCue(a: Acc, p: Option<string>)
    requires a.current == [] && AllCuesNonEmpty(a.emitted)
    ensures SamiStep(a, p).current == []
    ensures AllCuesNonEmpty(SamiStep(a, p).emitted)
    ensures Texts(SamiStep(a, p).emitted) == Texts(a.emitted) + StepTexts(p)
  {
    if p.Some? {
      var t := ParagraphText(p.value);
      TrimTrimmed(t);
      if t != [] {
        FinalizeSingle(a, t);
      }
    }
  }

  /** Every `SYNC` with a non-blank paragraph yields exactly one cue, whose text is the
      cleaned paragraph, and nothing is left in the buffer. */
  lemma {:induction false} SamiScanCues(paragraphs: seq<Option<string>>, n: nat)
    requires n <= |paragraphs|
    ensures SamiScan(paragraphs, n).current == []
    ensures AllCuesNonEmpty(SamiScan(paragraphs, n).emitted)
    ensures Texts(SamiScan(paragraphs, n).emitted) == NonBlankTexts(paragraphs, n)
  {
    if n > 0 {
      SamiScanCues(paragraphs, n - 1);
      SamiStepCue(SamiScan(paragraphs, n - 1), paragraphs[n - 1]);
    }
  }

  /** The body of the `for` loop for one `SYNC` element. */
  method ExtractParagraph(buf: CueBuffer, pElement: Option<string>)
    requires buf.Valid()
    modifies buf
    ensures buf.Valid() && buf.Model() == SamiStep(old(buf.Model()), pElement)
  {
    if pElement.Some? {
      var textContent := CleanHtmlTags(BreaksToNewlines(pElement.value));
      if Trim(textContent) != [] {
        buf.Push(Trim(textContent));
        buf.FinalizeCue();
      }
    }
  }

  /** The `for` loop over the `SYNC` elements. */
  method ExtractParagraphs(buf: CueBuffer, paragraphs: seq<Option<string>>)
    requires buf.Valid() && buf.Model() == Start
    modifies buf
    ensures buf.Valid() && buf.Model() == SamiScan(paragraphs, |paragraphs|)
  {
    var i := 0;
    while i < |paragraphs|
      invariant 0 <= i <= |paragraphs|
      invariant buf.Valid() && buf.Model() == SamiScan(paragraphs, i)
    {
      ExtractParagraph(buf, paragraphs[i]);
      i := i + 1;
    }
  }
}
