/**
 * The ASS/SSA branch of both front-ends: a `forEach` over the lines that tracks whether
 * the `[Events]` section is open and turns each event line there into a cue of its
 * own. `script.js` takes `Dialogue:` lines only; `Src/script.js` also takes `Comment:`
 * lines, which is the `withComments` switch here.
 */
module AssEvents {
  import opened JsString
  import opened TagCleaners
  import opened Cues
  import opened LineRules

  /** The cue accumulator together with `inEventsSection`. */
  datatype EventsState = EventsState(acc: Acc, inEvents: bool)

  const EventsStart := EventsState(Start, false)

  /** The lower-cased line starts with `dialogue:`, or, with comments taken, with
      `comment:`. */
  predicate IsEventLine(withComments: bool, line: string) {
    StartsWith(ToLower(line), "dialogue:") || (withComments && StartsWith(ToLower(line), "comment:"))
  }

  /** The body for an event line: finalize, then, when the line has a text field, push
      its cleaned text if it is not empty and finalize again. */
  function EventStep(acc: Acc, line: string): Acc {
    var before := Finalize(acc);
    if HasTextField(line) then
      Finalize(if EventText(line) != [] then Appended(before, [EventText(line)]) else before)
    else before
  }

  /** The `forEach` callback for line j. */
  function AssStep(withComments: bool, ts: seq<string>, j: nat, st: EventsState): EventsState
    requires j < |ts|
  {
    var line := ts[j];
    if IsEventsHeader(line) then EventsState(st.acc, true)
    else if IsSectionHeader(line) then EventsState(st.acc, false)
    else if st.inEvents && IsEventLine(withComments, line) then st.(acc := EventStep(st.acc, line))
    else st
  }

  /** The state after the callback has run on the first n lines. */
  function AssScan(withComments: bool, ts: seq<string>, n: nat): EventsState
    requires n <= |ts|
    decreases n, 0
  {
    if n == 0 then EventsStart else AssAfter(withComments, ts, n - 1)
  }

  /** The callback for line j applied to the state before it. */
  function AssAfter(withComments: bool, ts: seq<string>, j: nat): EventsState
    requires j < |ts|
    decreases j, 1
  {
    AssStep(withComments, ts, j, AssScan(withComments, ts, j))
  }

  /** One more line is one more callback. */
  lemma AssScanNext(withComments: bool, ts: seq<string>, j: nat)
    requires j < |ts|
    ensures AssScan(withComments, ts, j + 1) == AssStep(withComments, ts, j, AssScan(withComments, ts, j))
  {
    assert AssScan(withComments, ts, j + 1) == AssAfter(withComments, ts, j);
  }

  // ---------------------------------------------------------------------------------------
  // Which lines become cues

  /** What line j contributes: the cleaned text of an event line inside the events
      section, when it has a text field and that text is not empty. */
  function EventLineText(withComments: bool, ts: seq<string>, j: nat): seq<string>
    requires j < |ts|
  {
    var line := ts[j];
    if InEvents(ts, j) && !IsSectionHeader(line) && IsEventLine(withComments, line)
       && HasTextField(line) && EventText(line) != []
    then [EventText(line)]
    else []
  }

  /** Reference: the texts of the event lines among the first n lines, in order. */
  function EventTexts(withComments: bool, ts: seq<string>, n: nat): seq<string>
    requires n <= |ts|
  {
    if n == 0 then [] else EventTexts(withComments, ts, n - 1) + EventLineText(withComments, ts, n - 1)
  }

  /** An `[events]` header is in particular a section header. */
  lemma EventsHeaderIsSection(line: string)
    requires IsEventsHeader(line)
    ensures IsSectionHeader(line)
  {
    assert ToLower(line)[0] == '[' && ToLower(line)[7] == ']';
  }

  /** One event line, with the buffer empty, adds exactly its text as a cue and leaves
      the buffer empty. */
  lemma EventStepCue(acc: Acc, line: string)
    requires acc.current == [] && AllCuesNonEmpty(acc.emitted)
    ensures EventStep(acc, line).current == []
    ensures AllCuesNonEmpty(EventStep(acc, line).emitted)
    ensures Texts(EventStep(acc, line).emitted) ==
            Texts(acc.emitted) + if HasTextField(line) && EventText(line) != [] then [EventText(line)] else []
  {
    if HasTextField(line) && EventText(line) != [] {
      FinalizeSingle(acc, EventText(line));
    }
  }

  /** One callback moves the flag as `InEvents` says. */
  lemma AssStepFlag(withComments: bool, ts: seq<string>, j: nat, st: EventsState)
    requires j < |ts| && (st.inEvents <==> InEvents(ts, j))
    ensures AssStep(withComments, ts, j, st).inEvents <==> InEvents(ts, j + 1)
  {
  }

  /** One callback keeps the buffer empty and adds the line's contribution. */
  lemma AssStepCue(withComments: bool, ts: seq<string>, j: nat, st: EventsState)
    requires j < |ts| && (st.inEvents <==> InEvents(ts, j))
    requires st.acc.current == [] && AllCuesNonEmpty(st.acc.emitted)
    ensures AssStep(withComments, ts, j, st).acc.current == []
    ensures AllCuesNonEmpty(AssStep(withComments, ts, j, st).acc.emitted)
    ensures Texts(AssStep(withComments, ts, j, st).acc.emitted) ==
            Texts(st.acc.emitted) + EventLineText(withComments, ts, j)
  {
    var line := ts[j];
    if IsEventsHeader(line) {
      EventsHeaderIsSection(line);
    } else if !IsSectionHeader(line) && st.inEvents && IsEventLine(withComments, line) {
      EventStepCue(st.acc, line);
    }
  }

  /** After the first n lines the flag says whether the events section is open. */
  lemma {:induction false} AssScanFlag(withComments: bool, ts: seq<string>, n: nat)
    requires n <= |ts|
    ensures AssScan(withComments, ts, n).inEvents <==> InEvents(ts, n)
  {
    if n > 0 {
      AssScanFlag(withComments, ts, n - 1);
      AssStepFlag(withComments, ts, n - 1, AssScan(withComments, ts, n - 1));
      AssScanNext(withComments, ts, n - 1);
    }
  }

  /** After the first n lines the buffer is empty, and the cues are exactly the event
      texts, one cue per event line, in order. */
  lemma {:induction false} AssScanCues(withComments: bool, ts: seq<string>, n: nat)
    requires n <= |ts|
    ensures AssScan(withComments, ts, n).acc.current == []
    ensures AllCuesNonEmpty(AssScan(withComments, ts, n).acc.emitted)
    ensures Texts(AssScan(withComments, ts, n).acc.emitted) == EventTexts(withComments, ts, n)
  {
    if n > 0 {
      var st := AssScan(withComments, ts, n - 1);
      AssScanCues(withComments, ts, n - 1);
      AssScanFlag(withComments, ts, n - 1);
      AssStepCue(withComments, ts, n - 1, st);
      AssScanNext(withComments, ts, n - 1);
    }
  }

  /** The output of the branch is the event texts, one per line. */
  lemma AssOutput(withComments: bool, ts: seq<string>)
    ensures Output(AssScan(withComments, ts, |ts|).acc) == Join(EventTexts(withComments, ts, |ts|), '\n')
  {
    AssScanCues(withComments, ts, |ts|);
    OutputIsJoin(AssScan(withComments, ts, |ts|).acc.emitted);
  }

  /** A `Comment:` event is taken only with comments: with them it is a cue, without
      them it is not. */
  lemma CommentOnlyWithComments(ts: seq<string>, j: nat)
    requires j < |ts| && InEvents(ts, j) && !IsSectionHeader(ts[j])
    requires StartsWith(ToLower(ts[j]), "comment:")
    requires HasTextField(ts[j]) && EventText(ts[j]) != []
    ensures EventLineText(true, ts, j) == [EventText(ts[j])]
    ensures EventLineText(false, ts, j) == []
  {
    StartsWithOther(ToLower(ts[j]), "comment:", "dialogue:");
  }

  // ---------------------------------------------------------------------------------------
  // The loop

  /** The body for an event line. */
  method EventLine(buf: CueBuffer, line: string)
    requires buf.Valid()
    modifies buf
    ensures buf.Valid() && buf.Model() == EventStep(old(buf.Model()), line)
  {
    buf.FinalizeCue();
    var parts := Split(line, ',');
    if |parts| > 9 {
      var text := Trim(Join(parts[9..], ','));
      var cleaned := CleanSsaAssTags(text);
      if cleaned != [] {
        buf.Push(cleaned);
      }
      buf.FinalizeCue();
    }
  }

  /** The `forEach` callback for line `index`: returns the new `inEventsSection`. */
  method AssLine(buf: CueBuffer, withComments: bool, lines: seq<string>, ghost ts: seq<string>, index: nat,
                 inEventsSection: bool)
    returns (inEvents: bool)
    requires buf.Valid() && index < |lines| && ts == TrimLines(lines)
    requires EventsState(buf.Model(), inEventsSection) == AssScan(withComments, ts, index)
    modifies buf
    ensures buf.Valid() && EventsState(buf.Model(), inEvents) == AssScan(withComments, ts, index + 1)
  {
    AssScanNext(withComments, ts, index);
    inEvents := inEventsSection;
    var line := Trim(lines[index]);
    TrimLinesAt(lines, index);
    if ToLower(line) == "[events]" {
      inEvents := true;
      return;
    }
    if StartsWith(line, "[") && EndsWith(line, "]") {
      inEvents := false;
      return;
    }
    if inEvents && IsEventLine(withComments, line) {
      EventLine(buf, line);
    }
  }

  /** `lines.forEach(...)` of the ASS/SSA branch, which has no closing `finalizeCue()`. */
  method ScanEvents(buf: CueBuffer, withComments: bool, lines: seq<string>)
    requires buf.Valid() && buf.Model() == Start
    modifies buf
    ensures buf.Valid() && buf.Model() == AssScan(withComments, TrimLines(lines), |lines|).acc
  {
    ghost var ts := TrimLines(lines);
    var inEventsSection := false;
    var index := 0;
    while index < |lines|
      invariant 0 <= index <= |lines|
      invariant buf.Valid() && EventsState(buf.Model(), inEventsSection) == AssScan(withComments, ts, index)
    {
      inEventsSection := AssLine(buf, withComments, lines, ts, index, inEventsSection);
      index := index + 1;
    }
  }
}
