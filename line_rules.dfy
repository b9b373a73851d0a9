/**
 * Line classifications that both front-ends apply in identical form: the WebVTT STYLE
 * block, the SRT sequence-number rule, the ASS section headers and the ASS text field.
 * The flags the extractors keep while walking the lines are characterised here by
 * what the earlier lines contain. Every callback starts with `line = line.trim()`, so
 * the rules here take the trimmed lines `ts`, as `TrimLines` computes them.
 */
module LineRules {
  import opened JsString
  import opened Patterns
  import opened TagCleaners
  import opened Formats

  /** Each line trimmed, as every callback does first. */
  function TrimLines(lines: seq<string>): (ts: seq<string>)
    ensures |ts| == |lines|
  {
    if lines == [] then [] else TrimLines(lines[..|lines| - 1]) + [Trim(lines[|lines| - 1])]
  }

  /** Line k of the trimmed lines is line k, trimmed. */
  lemma {:induction false} TrimLinesAt(lines: seq<string>, k: nat)
    requires k < |lines|
    ensures TrimLines(lines)[k] == Trim(lines[k])
  {
    if k < |lines| - 1 {
      TrimLinesAt(lines[..|lines| - 1], k);
    }
  }

  /** `line.toUpperCase().startsWith('STYLE') && format === 'VTT'`. */
  predicate OpensStyle(fmt: Format, line: string) {
    fmt == Vtt && StartsWith(ToUpper(line), "STYLE")
  }

  /** The SRT sequence-number rule: the trimmed line is digits only and the next trimmed
      line is a timing line. */
  predicate NumbersTiming(ts: seq<string>, j: nat)
    requires j < |ts|
  {
    SequenceNumber(ts[j]) && j + 1 < |ts| && SrtVttTimestamp(ts[j + 1])
  }

  /** Line i, trimmed, opens a WebVTT STYLE block. */
  predicate StyleAt(ts: seq<string>, i: nat)
    requires i < |ts|
  {
    OpensStyle(Vtt, ts[i])
  }

  /** No line in `ts[lo..hi]` is blank. */
  predicate NoBlankBetween(ts: seq<string>, lo: nat, hi: nat)
    requires lo <= hi <= |ts|
  {
    forall m :: lo <= m < hi ==> ts[m] != []
  }

  lemma NoBlankExtend(ts: seq<string>, lo: nat, hi: nat)
    requires lo <= hi < |ts|
    ensures NoBlankBetween(ts, lo, hi + 1) <==> NoBlankBetween(ts, lo, hi) && ts[hi] != []
  {
  }

  /** Line j lies in a WebVTT STYLE block: a line at or before it starts with `STYLE` and
      no line from that one up to (not including) j is blank. */
  predicate StyleBlockCovers(ts: seq<string>, j: nat)
    requires j < |ts|
  {
    exists i :: 0 <= i <= j && StyleAt(ts, i) && NoBlankBetween(ts, i, j)
  }

  lemma StyleBlockCoversBack(ts: seq<string>, j: nat)
    requires j < |ts| && StyleBlockCovers(ts, j) && !StyleAt(ts, j)
    ensures j > 0 && StyleBlockCovers(ts, j - 1) && ts[j - 1] != []
  {
    var i :| 0 <= i <= j && StyleAt(ts, i) && NoBlankBetween(ts, i, j);
    assert i != j;
    NoBlankExtend(ts, i, j - 1);
  }

  lemma StyleWitness(ts: seq<string>, i: nat, j: nat)
    requires i <= j < |ts| && StyleAt(ts, i) && NoBlankBetween(ts, i, j)
    ensures StyleBlockCovers(ts, j)
  {
  }

  lemma StyleBlockCoversForward(ts: seq<string>, k: nat)
    requires k + 1 < |ts| && StyleBlockCovers(ts, k) && ts[k] != []
    ensures StyleBlockCovers(ts, k + 1)
  {
    var i :| 0 <= i <= k && StyleAt(ts, i) && NoBlankBetween(ts, i, k);
    NoBlankExtend(ts, i, k);
    StyleWitness(ts, i, k + 1);
  }

  /** The first line lies in a STYLE block exactly when it opens one. */
  lemma StyleBlockCoversFirst(ts: seq<string>)
    requires 0 < |ts|
    ensures StyleBlockCovers(ts, 0) <==> StyleAt(ts, 0)
  {
    if StyleAt(ts, 0) {
      StyleWitness(ts, 0, 0);
    }
  }

  /** A STYLE block covers line k + 1 exactly when that line opens one, or the block
      covers line k and line k is not blank. */
  lemma StyleBlockCoversNext(ts: seq<string>, k: nat)
    requires k + 1 < |ts|
    ensures StyleBlockCovers(ts, k + 1) <==> StyleAt(ts, k + 1) || (StyleBlockCovers(ts, k) && ts[k] != [])
  {
    if StyleBlockCovers(ts, k + 1) && !StyleAt(ts, k + 1) {
      StyleBlockCoversBack(ts, k + 1);
    }
    if StyleBlockCovers(ts, k) && ts[k] != [] {
      StyleBlockCoversForward(ts, k);
    }
    if StyleAt(ts, k + 1) {
      StyleWitness(ts, k + 1, k + 1);
    }
  }

  /** The flag the extractor keeps, as a recursion over the lines: line j is in a STYLE
      block when it opens one, or when the line before it is in one and is not blank. */
  predicate InStyleBlock(ts: seq<string>, j: nat)
    requires j < |ts|
  {
    StyleAt(ts, j) || (j > 0 && ts[j - 1] != [] && InStyleBlock(ts, j - 1))
  }

  /** The recursion agrees with the description by an opening line and the non-blank
      lines after it. */
  lemma {:induction false} InStyleBlockCovers(ts: seq<string>, j: nat)
    requires j < |ts|
    ensures InStyleBlock(ts, j) <==> StyleBlockCovers(ts, j)
  {
    if j == 0 {
      StyleBlockCoversFirst(ts);
    } else {
      InStyleBlockCovers(ts, j - 1);
      StyleBlockCoversNext(ts, j - 1);
    }
  }

  /** A line that starts with a digit is never a WebVTT metadata line. */
  lemma DigitStartNotMetadata(line: string)
    requires line != [] && IsDigit(line[0])
    ensures !VttMetadata(line)
  {
    var first := ToUpper(line)[0];
    assert IsDigit(first);
    forall k | 0 <= k < |VttKeywords| ensures !StartsWith(ToUpper(line), VttKeywords[k]) {
      assert !IsDigit(VttKeywords[k][0]);
    }
  }

  /** `line.startsWith('[') && line.endsWith(']')`. */
  predicate IsSectionHeader(line: string) {
    StartsWith(line, "[") && EndsWith(line, "]")
  }

  /** `line.toLowerCase() === '[events]'`. */
  predicate IsEventsHeader(line: string) {
    ToLower(line) == "[events]"
  }

  /** No line in `ts[lo..hi]` is a section header. */
  predicate NoHeaderBetween(ts: seq<string>, lo: nat, hi: nat)
    requires lo <= hi <= |ts|
  {
    forall m :: lo <= m < hi ==> !IsSectionHeader(ts[m])
  }

  lemma NoHeaderExtend(ts: seq<string>, lo: nat, hi: nat)
    requires lo <= hi < |ts|
    ensures NoHeaderBetween(ts, lo, hi + 1) <==> NoHeaderBetween(ts, lo, hi) && !IsSectionHeader(ts[hi])
  {
  }

  /** Before line j the extractor is inside the events section: some earlier line is an
      `[events]` header (in any letter case) and no line after it, before j, is another
      section header. */
  predicate EventsCovers(ts: seq<string>, j: nat)
    requires j <= |ts|
  {
    exists i :: 0 <= i < j && IsEventsHeader(ts[i]) && NoHeaderBetween(ts, i + 1, j)
  }

  /** After line j the section is the events section exactly when line j is its header,
      or line j is no header at all and the section was already open. */
  lemma EventsCoversStep(ts: seq<string>, j: nat)
    requires j < |ts|
    ensures EventsCovers(ts, j + 1) <==>
            IsEventsHeader(ts[j]) || (!IsSectionHeader(ts[j]) && EventsCovers(ts, j))
  {
    if EventsCovers(ts, j + 1) && !IsEventsHeader(ts[j]) {
      var i :| 0 <= i < j + 1 && IsEventsHeader(ts[i]) && NoHeaderBetween(ts, i + 1, j + 1);
      assert i != j;
      NoHeaderExtend(ts, i + 1, j);
      assert EventsCovers(ts, j);
    }
    if !IsSectionHeader(ts[j]) && EventsCovers(ts, j) {
      var i :| 0 <= i < j && IsEventsHeader(ts[i]) && NoHeaderBetween(ts, i + 1, j);
      NoHeaderExtend(ts, i + 1, j);
    }
    if IsEventsHeader(ts[j]) {
      assert NoHeaderBetween(ts, j + 1, j + 1);
    }
  }

  /** The flag the extractor keeps, as a recursion over the lines: after the first n
      lines the events section is open when the last one is its header, or is no header
      at all and the section was already open. */
  predicate InEvents(ts: seq<string>, n: nat)
    requires n <= |ts|
  {
    n > 0 &&
    (IsEventsHeader(ts[n - 1]) || (!IsSectionHeader(ts[n - 1]) && InEvents(ts, n - 1)))
  }

  /** The recursion agrees with the description by the last section header. */
  lemma {:induction false} InEventsCovers(ts: seq<string>, n: nat)
    requires n <= |ts|
    ensures InEvents(ts, n) <==> EventsCovers(ts, n)
  {
    if n > 0 {
      InEventsCovers(ts, n - 1);
      EventsCoversStep(ts, n - 1);
    }
  }

  /** An event line has a text field: it splits at `,` into more than nine fields. */
  predicate HasTextField(line: string) {
    |Split(line, ',')| > 9
  }

  /** `parts.slice(9).join(',').trim()`: the fields from the tenth on, re-joined with
      their commas and trimmed. */
  function TextField(line: string): string
    requires HasTextField(line)
  {
    Trim(Join(Split(line, ',')[9..], ','))
  }

  /** `cleanSsaAssTags(text)` of the text field. */
  function EventText(line: string): string
    requires HasTextField(line)
  {
    CleanSsaAssTags(TextField(line))
  }

  /** Nine comma-free fields followed by any text: the text field is the whole text,
      commas included. */
  lemma EventTextKeepsCommas(fields: seq<string>, text: string)
    requires |fields| == 9 && forall k :: 0 <= k < 9 ==> ',' !in fields[k]
    ensures HasTextField(Join(fields + [text], ','))
    ensures EventText(Join(fields + [text], ',')) == CleanSsaAssTags(Trim(text))
  {
    var tail := Split(text, ',');
    var parts := fields + tail;
    JoinSplit(text, ',');
    JoinConcat(fields, tail, ',');
    JoinAppend(fields, text, ',');
    assert Join(parts, ',') == Join(fields + [text], ',');
    assert forall k :: 0 <= k < |parts| ==> ',' !in parts[k] by {
      forall k | 0 <= k < |parts| ensures ',' !in parts[k] {
        if k >= 9 {
          assert parts[k] == tail[k - 9];
        }
      }
    }
    SplitJoin(parts, ',');
    assert parts[9..] == tail;
  }
}
