/**
 * The cue accumulator shared by every extraction branch: the `extractedText` string,
 * the `currentTextLines` buffer and `finalizeCue`, which moves the buffer into the text.
 */
module Cues {
  import opened JsString

  /** What `finalizeCue` makes of a buffer: its lines joined with LF, then trimmed. */
  function CueText(lines: seq<string>): string {
    Trim(Join(lines, '\n'))
  }

  /** The accumulator as a value: the buffers `finalizeCue` has emitted so far, oldest
      first, and the buffer still being filled. */
  datatype Acc = Acc(emitted: seq<seq<string>>, current: seq<string>)

  const Start := Acc([], [])

  /** `currentTextLines.push(...lines)`. */
  function Appended(a: Acc, lines: seq<string>): Acc {
    a.(current := a.current + lines)
  }

  /** `finalizeCue()`: a non-empty buffer whose text is not blank is emitted; the buffer
      is empty afterwards in every case. */
  function Finalize(a: Acc): (r: Acc)
    ensures r.current == []
    ensures |a.current| > 0 && CueText(a.current) != [] ==> r.emitted == a.emitted + [a.current]
    ensures !(|a.current| > 0 && CueText(a.current) != []) ==> r.emitted == a.emitted
  {
    if |a.current| > 0 then
      Acc(if CueText(a.current) != [] then a.emitted + [a.current] else a.emitted, [])
    else a
  }

  /** Text made of each of `texts` followed by one LF: how `extractedText` grows. */
  function Lines(texts: seq<string>): string {
    if texts == [] then []
    else Lines(texts[..|texts| - 1]) + texts[|texts| - 1] + "\n"
  }

  /** The `extractedText` that a sequence of emitted buffers has produced. */
  function Render(emitted: seq<seq<string>>): string
    decreases |emitted|, 0
  {
    if emitted == [] then [] else RenderLast(emitted)
  }

  /** `Render` of a non-empty run: the run before the last buffer, then the last
      buffer's cue text and its LF. */
  function RenderLast(emitted: seq<seq<string>>): string
    requires emitted != []
    decreases |emitted| - 1, 1
  {
    Render(emitted[..|emitted| - 1]) + CueText(emitted[|emitted| - 1]) + "\n"
  }

  /** The rendered text is the cue texts, each followed by one LF. */
  lemma {:induction false} RenderIsLines(emitted: seq<seq<string>>)
    ensures Render(emitted) == Lines(Texts(emitted))
  {
    if emitted != [] {
      RenderIsLines(emitted[..|emitted| - 1]);
      assert Render(emitted) == RenderLast(emitted);
    }
  }

  /** The texts of the emitted cues, in order. */
  function Texts(emitted: seq<seq<string>>): (r: seq<string>)
    ensures |r| == |emitted|
  {
    if emitted == [] then []
    else Texts(emitted[..|emitted| - 1]) + [CueText(emitted[|emitted| - 1])]
  }

  /** Every emitted cue has a non-blank text: `finalizeCue` never emits anything else. */
  predicate AllCuesNonEmpty(emitted: seq<seq<string>>) {
    forall k :: 0 <= k < |emitted| ==> CueText(emitted[k]) != []
  }

  /** The final `extractedText.trim()`. */
  function Output(a: Acc): string {
    Trim(Render(a.emitted))
  }

  /** Non-empty, with no white space at either end: what a non-blank `trim` result is. */
  predicate Solid(x: string) {
    x != [] && !IsSpace(x[0]) && !IsSpace(x[|x| - 1])
  }

  /** Trimming removes a trailing LF from solid text. */
  lemma TrimTrailingBreak(x: string)
    requires Solid(x)
    ensures Trim(x + "\n") == x
  {
    var y := x + "\n";
    assert TrimEndIndex(y, |y|) == |x|;
    assert y[..|x|] == x;
  }

  /** A join of solid parts is solid. */
  lemma {:induction false} JoinSolid(parts: seq<string>, sep: char)
    requires parts != []
    requires forall k :: 0 <= k < |parts| ==> Solid(parts[k])
    ensures Solid(Join(parts, sep))
  {
    if |parts| > 1 {
      JoinSolid(parts[1..], sep);
      var j := Join(parts, sep);
      assert j == parts[0] + [sep] + Join(parts[1..], sep);
      assert j[0] == parts[0][0];
      assert j[|j| - 1] == Join(parts[1..], sep)[|Join(parts[1..], sep)| - 1];
    }
  }

  /** The text of a cue that `finalizeCue` emits is solid. */
  lemma CueTextSolid(lines: seq<string>)
    requires CueText(lines) != []
    ensures Solid(CueText(lines))
  {
  }

  lemma {:induction false} TextsSolid(emitted: seq<seq<string>>)
    requires AllCuesNonEmpty(emitted)
    ensures forall k :: 0 <= k < |emitted| ==> Solid(Texts(emitted)[k])
  {
    if emitted != [] {
      var init := emitted[..|emitted| - 1];
      assert AllCuesNonEmpty(init) by {
        forall k | 0 <= k < |init| ensures CueText(init[k]) != [] {
          assert init[k] == emitted[k];
        }
      }
      TextsSolid(init);
      CueTextSolid(emitted[|emitted| - 1]);
    }
  }

  /** Lines of texts are the texts joined with LF, plus one final LF. */
  lemma {:induction false} LinesIsJoin(texts: seq<string>)
    requires texts != []
    ensures Lines(texts) == Join(texts, '\n') + "\n"
  {
    var init := texts[..|texts| - 1];
    var last := texts[|texts| - 1];
    if init == [] {
      assert texts == [last];
    } else {
      LinesIsJoin(init);
      JoinAppend(init, last, '\n');
      assert init + [last] == texts;
    }
  }

  /** The cues of the output are separated by exactly one LF: the trimmed `extractedText`
      is the cue texts joined with LF. */
  lemma OutputIsJoin(emitted: seq<seq<string>>)
    requires AllCuesNonEmpty(emitted)
    ensures Trim(Render(emitted)) == Join(Texts(emitted), '\n')
  {
    RenderIsLines(emitted);
    if emitted != [] {
      LinesIsJoin(Texts(emitted));
      TextsSolid(emitted);
      JoinSolid(Texts(emitted), '\n');
      TrimTrailingBreak(Join(Texts(emitted), '\n'));
    }
  }

  /** A buffer holding one solid line is emitted as a cue with exactly that text. */
  lemma FinalizeSingle(a: Acc, t: string)
    requires a.current == [] && AllCuesNonEmpty(a.emitted) && Solid(t)
    ensures Finalize(Appended(a, [t])) == Acc(a.emitted + [[t]], [])
    ensures AllCuesNonEmpty(a.emitted + [[t]])
    ensures Texts(a.emitted + [[t]]) == Texts(a.emitted) + [t]
  {
    TrimTrimmed(t);
    assert a.current + [t] == [t];
    assert Join([t], '\n') == t;
    assert CueText([t]) == t;
    var e := a.emitted + [[t]];
    assert e[..|e| - 1] == a.emitted;
    assert forall k :: 0 <= k < |a.emitted| ==> e[k] == a.emitted[k];
  }

  /** The cue text of a block of solid lines is its lines joined with LF, and is solid. */
  lemma SolidCue(block: seq<string>)
    requires block != [] && AllSolid(block)
    ensures CueText(block) == Join(block, '\n') && Solid(CueText(block))
  {
    JoinSolid(block, '\n');
    TrimTrimmed(Join(block, '\n'));
  }

  /** A block of solid lines pushed onto an empty buffer is emitted whole as one cue. */
  lemma FinalizeBlock(a: Acc, block: seq<string>)
    requires a.current == [] && block != [] && AllSolid(block)
    ensures Finalize(Appended(a, block)) == Acc(a.emitted + [block], [])
  {
    SolidCue(block);
    assert a.current + block == block;
  }

  /** Blocks that are not empty and hold solid lines only. */
  predicate SolidBlocks(blocks: seq<seq<string>>) {
    forall k :: 0 <= k < |blocks| ==> blocks[k] != [] && AllSolid(blocks[k])
  }

  /** Each block's lines joined with LF. */
  function JoinedBlocks(blocks: seq<seq<string>>): (r: seq<string>)
    ensures |r| == |blocks|
  {
    if blocks == [] then [] else JoinedBlocks(blocks[..|blocks| - 1]) + [Join(blocks[|blocks| - 1], '\n')]
  }

  /** Solid blocks emitted as cues: none is blank, and each text is the block's lines
      joined with LF. */
  lemma {:induction false} SolidBlocksTexts(blocks: seq<seq<string>>)
    requires SolidBlocks(blocks)
    ensures AllCuesNonEmpty(blocks)
    ensures Texts(blocks) == JoinedBlocks(blocks)
  {
    if blocks != [] {
      var init, last := blocks[..|blocks| - 1], blocks[|blocks| - 1];
      assert SolidBlocks(init) by {
        forall k | 0 <= k < |init| ensures init[k] != [] && AllSolid(init[k]) {
          assert init[k] == blocks[k];
        }
      }
      SolidBlocksTexts(init);
      SolidCue(last);
      forall k | 0 <= k < |blocks| ensures CueText(blocks[k]) != [] {
        if k < |init| {
          assert blocks[k] == init[k];
        }
      }
    }
  }

  /** Joining the blocks' joins with LF is joining all their lines with LF: between two
      cues there is one LF, as between two lines of a cue. */
  lemma {:induction false} JoinedBlocksJoin(blocks: seq<seq<string>>)
    requires forall k :: 0 <= k < |blocks| ==> blocks[k] != []
    ensures Join(JoinedBlocks(blocks), '\n') == Join(Concat(blocks), '\n')
  {
    if |blocks| == 1 {
      assert blocks[..0] == [];
      assert Concat(blocks) == blocks[0];
      assert JoinedBlocks(blocks) == [Join(blocks[0], '\n')];
    } else if |blocks| > 1 {
      var init, last := blocks[..|blocks| - 1], blocks[|blocks| - 1];
      assert forall k :: 0 <= k < |init| ==> init[k] == blocks[k];
      JoinedBlocksJoin(init);
      JoinAppend(JoinedBlocks(init), Join(last, '\n'), '\n');
      assert Concat(init) != [] by {
        assert Concat(init) == Concat(init[..|init| - 1]) + init[|init| - 1];
      }
      JoinConcat(Concat(init), last, '\n');
    }
  }

  /** The cue texts of solid blocks, joined with LF, are the blocks' lines joined with
      LF. */
  lemma SolidBlocksJoin(blocks: seq<seq<string>>)
    requires SolidBlocks(blocks)
    ensures Join(Texts(blocks), '\n') == Join(Concat(blocks), '\n')
  {
    SolidBlocksTexts(blocks);
    JoinedBlocksJoin(blocks);
  }

  /** `finalizeCue` on a buffer of solid lines emits a solid block, if anything. */
  lemma FinalizeKeepsSolidBlocks(a: Acc)
    requires SolidBlocks(a.emitted) && AllSolid(a.current)
    ensures SolidBlocks(Finalize(a).emitted)
  {
    var e := Finalize(a).emitted;
    if e != a.emitted {
      assert forall k :: 0 <= k < |a.emitted| ==> e[k] == a.emitted[k];
    }
  }

  /** The texts of two runs of cues, one after the other. */
  lemma {:induction false} TextsConcat(x: seq<seq<string>>, y: seq<seq<string>>)
    ensures Texts(x + y) == Texts(x) + Texts(y)
  {
    if y == [] {
      assert x + y == x;
    } else {
      var init, last := y[..|y| - 1], y[|y| - 1];
      assert y == init + [last];
      assert x + y == (x + init) + [last];
      TextsConcat(x, init);
      TextsSnoc(x + init, last);
      TextsSnoc(init, last);
    }
  }

  /** Every line of every block, in order. */
  function Concat(blocks: seq<seq<string>>): seq<string> {
    if blocks == [] then [] else Concat(blocks[..|blocks| - 1]) + blocks[|blocks| - 1]
  }

  /** Every line the accumulator holds, emitted or still buffered, in push order. */
  function Flatten(a: Acc): seq<string> {
    Concat(a.emitted) + a.current
  }

  predicate AllSolid(lines: seq<string>) {
    forall k :: 0 <= k < |lines| ==> Solid(lines[k])
  }

  /** The non-empty lines of a sequence, in order. */
  function NonEmptyLines(lines: seq<string>): seq<string> {
    if lines == [] then []
    else NonEmptyLines(lines[..|lines| - 1]) + if lines[|lines| - 1] != [] then [lines[|lines| - 1]] else []
  }

  lemma {:induction false} NonEmptyLinesConcat(x: seq<string>, y: seq<string>)
    ensures NonEmptyLines(x + y) == NonEmptyLines(x) + NonEmptyLines(y)
  {
    if y != [] {
      NonEmptyLinesConcat(x, y[..|y| - 1]);
      assert (x + y)[..|x + y| - 1] == x + y[..|y| - 1];
    } else {
      assert x + y == x;
    }
  }

  lemma ConcatSnoc(blocks: seq<seq<string>>, b: seq<string>)
    ensures Concat(blocks + [b]) == Concat(blocks) + b
  {
    assert (blocks + [b])[..|blocks|] == blocks;
  }

  lemma TextsSnoc(blocks: seq<seq<string>>, b: seq<string>)
    ensures Texts(blocks + [b]) == Texts(blocks) + [CueText(b)]
  {
    assert (blocks + [b])[..|blocks|] == blocks;
  }

  /** Appending lines to the buffer appends them to the flattened accumulator. */
  lemma AppendedFlatten(a: Acc, lines: seq<string>)
    ensures Flatten(Appended(a, lines)) == Flatten(a) + lines
  {
  }

  /** `finalizeCue` keeps the non-blank-cue invariant. */
  lemma FinalizeKeepsCuesNonEmpty(a: Acc)
    requires AllCuesNonEmpty(a.emitted)
    ensures AllCuesNonEmpty(Finalize(a).emitted)
  {
    var e := Finalize(a).emitted;
    if e != a.emitted {
      assert forall k :: 0 <= k < |a.emitted| ==> e[k] == a.emitted[k];
    }
  }

  /** A buffer of solid lines is never dropped: `finalizeCue` moves it whole into the
      emitted cues, so no line is lost. */
  lemma FinalizeKeepsSolidLines(a: Acc)
    requires AllSolid(a.current) && AllCuesNonEmpty(a.emitted)
    ensures Flatten(Finalize(a)) == Flatten(a)
    ensures AllCuesNonEmpty(Finalize(a).emitted)
  {
    FinalizeKeepsCuesNonEmpty(a);
    if a.current != [] {
      JoinSolid(a.current, '\n');
      TrimTrimmed(Join(a.current, '\n'));
      ConcatSnoc(a.emitted, a.current);
    }
  }

  /** The joined buffer contains the first character of each of its non-empty lines. */
  lemma {:induction false} JoinHas(lines: seq<string>, k: nat, sep: char) returns (i: nat)
    requires k < |lines| && lines[k] != []
    ensures i < |Join(lines, sep)| && Join(lines, sep)[i] == lines[k][0]
  {
    if |lines| == 1 {
      i := 0;
    } else if k == 0 {
      i := 0;
    } else {
      var j := JoinHas(lines[1..], k - 1, sep);
      i := |lines[0]| + 1 + j;
    }
  }

  /** Every line is either empty or solid, as the output of a cleaner is. */
  predicate EmptyOrSolid(lines: seq<string>) {
    forall k :: 0 <= k < |lines| ==> lines[k] == [] || Solid(lines[k])
  }

  /** A buffer with a solid line has a non-blank cue text. */
  lemma CueTextOfSolidLine(lines: seq<string>, k: nat)
    requires k < |lines| && Solid(lines[k])
    ensures CueText(lines) != []
  {
    var i := JoinHas(lines, k, '\n');
    TrimEmpty(Join(lines, '\n'));
  }

  /** Lines that are empty or solid (trimmed output of a cleaner): if `finalizeCue`
      drops the buffer, it held only empty lines, so the non-empty lines survive. */
  lemma FinalizeKeepsNonEmptyLines(a: Acc)
    requires EmptyOrSolid(a.current)
    ensures NonEmptyLines(Flatten(Finalize(a))) == NonEmptyLines(Flatten(a))
  {
    if a.current != [] {
      if CueText(a.current) != [] {
        ConcatSnoc(a.emitted, a.current);
        assert Flatten(Finalize(a)) == Concat(a.emitted + [a.current]) + [];
        assert Flatten(Finalize(a)) == Flatten(a);
      } else {
        OnlyEmptyLines(a.current);
        NonEmptyLinesConcat(Concat(a.emitted), a.current);
        assert Concat(a.emitted) + [] == Concat(a.emitted);
      }
    }
  }

  /** A buffer of empty-or-solid lines whose cue text is blank holds only empty lines. */
  lemma {:induction false} OnlyEmptyLines(lines: seq<string>)
    requires EmptyOrSolid(lines)
    requires CueText(lines) == []
    ensures NonEmptyLines(lines) == []
  {
    if lines != [] {
      var n := |lines| - 1;
      if lines[n] != [] {
        CueTextOfSolidLine(lines, n);
      }
      forall k | 0 <= k < n ensures lines[..n][k] == [] {
        if lines[k] != [] {
          CueTextOfSolidLine(lines, k);
        }
      }
      NoneNonEmpty(lines[..n]);
    }
  }

  lemma {:induction false} NoneNonEmpty(lines: seq<string>)
    requires forall k :: 0 <= k < |lines| ==> lines[k] == []
    ensures NonEmptyLines(lines) == []
  {
    if lines != [] {
      NoneNonEmpty(lines[..|lines| - 1]);
    }
  }

  /** Every line is empty. */
  predicate AllEmpty(lines: seq<string>) {
    forall k :: 0 <= k < |lines| ==> lines[k] == []
  }

  /** The lines without the empty lines at the front. */
  function DropLeadingEmpty(lines: seq<string>): (r: seq<string>)
    ensures r == [] || r[0] != []
  {
    if lines != [] && lines[0] == [] then DropLeadingEmpty(lines[1..]) else lines
  }

  /** The lines without the empty lines at the back. */
  function DropTrailingEmpty(lines: seq<string>): (r: seq<string>)
    ensures r == [] || r[|r| - 1] != []
  {
    if lines != [] && lines[|lines| - 1] == [] then DropTrailingEmpty(lines[..|lines| - 1]) else lines
  }

  /** The lines without the empty lines at either end. */
  function Stripped(lines: seq<string>): seq<string> {
    DropTrailingEmpty(DropLeadingEmpty(lines))
  }

  /** What `DropLeadingEmpty` drops is a run of empty lines in front of what it keeps. */
  lemma {:induction false} LeadingSplit(lines: seq<string>) returns (e: seq<string>)
    ensures AllEmpty(e) && lines == e + DropLeadingEmpty(lines)
  {
    if lines != [] && lines[0] == [] {
      var rest := LeadingSplit(lines[1..]);
      e := [[]] + rest;
      assert lines == [lines[0]] + lines[1..];
    } else {
      e := [];
    }
  }

  /** What `DropTrailingEmpty` drops is a run of empty lines after what it keeps. */
  lemma {:induction false} TrailingSplit(lines: seq<string>) returns (e: seq<string>)
    ensures AllEmpty(e) && lines == DropTrailingEmpty(lines) + e
  {
    if lines != [] && lines[|lines| - 1] == [] {
      var init := lines[..|lines| - 1];
      var rest := TrailingSplit(init);
      e := rest + [[]];
      assert lines == init + [lines[|lines| - 1]];
    } else {
      e := [];
    }
  }

  /** A join of empty lines is made of separators only. */
  lemma {:induction false} JoinEmptyBlank(lines: seq<string>)
    requires AllEmpty(lines)
    ensures IsBlank(Join(lines, '\n'))
  {
    if |lines| > 1 {
      JoinEmptyBlank(lines[1..]);
      assert Join(lines, '\n') == "\n" + Join(lines[1..], '\n');
    }
  }

  lemma BlankConcat(a: string, b: string)
    requires IsBlank(a) && IsBlank(b)
    ensures IsBlank(a + b)
  {
    forall k | 0 <= k < |a + b| ensures IsSpace((a + b)[k]) {
      if k >= |a| {
        assert (a + b)[k] == b[k - |a|];
      }
    }
  }

  /** White space around text that neither starts nor ends with white space is exactly
      what `trim` removes. */
  lemma TrimAround(a: string, m: string, b: string)
    requires IsBlank(a) && IsBlank(b) && (m == [] || (!IsSpace(m[0]) && !IsSpace(m[|m| - 1])))
    ensures Trim(a + m + b) == m
  {
    var s := a + m + b;
    var t := Trim(s);
    var start := TrimIsSlice(s);
    if m == [] {
      assert s == a + b;
      BlankConcat(a, b);
      TrimEmpty(s);
    } else {
      assert s[|a|] == m[0];
      assert s[|a| + |m| - 1] == m[|m| - 1];
      TrimEmpty(s);
      assert t != [];
      assert s[start] == t[0];
      assert start == |a|;
      var end := start + |t|;
      assert s[end - 1] == t[|t| - 1];
      assert end == |a| + |m|;
      assert s[|a|..|a| + |m|] == m;
    }
  }

  /** A join whose first and last parts are not empty starts with the first part's first
      character and ends with the last part's last character. */
  lemma JoinEnds(parts: seq<string>, sep: char)
    requires parts != [] && parts[0] != [] && parts[|parts| - 1] != []
    ensures var j := Join(parts, sep);
            j != [] && j[0] == parts[0][0] && j[|j| - 1] == parts[|parts| - 1][|parts[|parts| - 1]| - 1]
  {
    if |parts| > 1 {
      var init, last := parts[..|parts| - 1], parts[|parts| - 1];
      JoinAppend(init, last, sep);
      assert init + [last] == parts;
      assert Join(parts, sep) == parts[0] + [sep] + Join(parts[1..], sep);
    }
  }

  /** Empty lines around a run of lines add only white space around its join. */
  lemma JoinAround(e1: seq<string>, core: seq<string>, e2: seq<string>) returns (pre: string, post: string)
    requires AllEmpty(e1) && AllEmpty(e2) && core != []
    ensures IsBlank(pre) && IsBlank(post)
    ensures Join(e1 + core + e2, '\n') == pre + Join(core, '\n') + post
  {
    var jc := Join(core, '\n');
    if e1 != [] {
      pre := Join(e1, '\n') + "\n";
      JoinEmptyBlank(e1);
      BlankConcat(Join(e1, '\n'), "\n");
      JoinConcat(e1, core, '\n');
    } else {
      pre := [];
      assert e1 + core == core;
    }
    assert Join(e1 + core, '\n') == pre + jc;
    if e2 != [] {
      post := "\n" + Join(e2, '\n');
      JoinEmptyBlank(e2);
      BlankConcat("\n", Join(e2, '\n'));
      JoinConcat(e1 + core, e2, '\n');
    } else {
      post := [];
      assert e1 + core + e2 == e1 + core;
    }
  }

  /** A buffer is its stripped lines with runs of empty lines around them. */
  lemma StrippedSplit(lines: seq<string>) returns (e1: seq<string>, e2: seq<string>)
    ensures AllEmpty(e1) && AllEmpty(e2) && lines == e1 + Stripped(lines) + e2
    ensures Stripped(lines) != [] ==> Stripped(lines)[0] != [] && Stripped(lines)[|Stripped(lines)| - 1] != []
  {
    e1 := LeadingSplit(lines);
    var mid := DropLeadingEmpty(lines);
    e2 := TrailingSplit(mid);
    if Stripped(lines) != [] {
      assert Stripped(lines)[0] == mid[0];
    }
  }

  /** The cue text of a buffer of empty-or-solid lines is its lines without the empty
      ones at either end, joined with LF; it is blank exactly when nothing is left. */
  lemma CueTextStripped(lines: seq<string>)
    requires EmptyOrSolid(lines)
    ensures CueText(lines) == Join(Stripped(lines), '\n')
    ensures CueText(lines) != [] <==> Stripped(lines) != []
  {
    var core := Stripped(lines);
    var e1, e2 := StrippedSplit(lines);
    if core == [] {
      assert lines == e1 + e2;
      assert AllEmpty(lines);
      JoinEmptyBlank(lines);
      TrimAround(Join(lines, '\n'), [], []);
      assert Join(lines, '\n') + [] + [] == Join(lines, '\n');
    } else {
      assert Solid(core[0]) by {
        assert core[0] == lines[|e1|];
      }
      assert Solid(core[|core| - 1]) by {
        assert core[|core| - 1] == lines[|e1| + |core| - 1];
      }
      JoinEnds(core, '\n');
      var pre, post := JoinAround(e1, core, e2);
      TrimAround(pre, Join(core, '\n'), post);
    }
  }

  /**
   * The closure state of one extraction: `extractedText`, `currentTextLines` and
   * `finalizeCue`. The ghost field records which buffers have been emitted.
   */
  class CueBuffer {
    var extractedText: string
    var currentTextLines: seq<string>
    ghost var emitted: seq<seq<string>>

    ghost predicate Valid()
      reads this
    {
      extractedText == Render(emitted)
    }

    ghost function Model(): Acc
      reads this
    {
      Acc(emitted, currentTextLines)
    }

    constructor ()
      ensures Valid() && Model() == Start
    {
      extractedText := [];
      currentTextLines := [];
      emitted := [];
    }

    /** `currentTextLines.push(line)`. */
    method Push(line: string)
      requires Valid()
      modifies this
      ensures Valid() && Model() == Appended(old(Model()), [line])
    {
      currentTextLines := currentTextLines + [line];
    }

    /** `currentTextLines.push(...lines)`. */
    method PushAll(lines: seq<string>)
      requires Valid()
      modifies this
      ensures Valid() && Model() == Appended(old(Model()), lines)
    {
      currentTextLines := currentTextLines + lines;
    }

    /** `finalizeCue()`. */
    method FinalizeCue()
      requires Valid()
      modifies this
      ensures Valid() && Model() == Finalize(old(Model()))
    {
      if |currentTextLines| > 0 {
        var cueText := Trim(Join(currentTextLines, '\n'));
        if cueText != [] {
          extractedText := extractedText + cueText + "\n";
          ghost var before := emitted;
          emitted := emitted + [currentTextLines];
          assert emitted[..|emitted| - 1] == before;
          assert Render(emitted) == RenderLast(emitted);
        }
        currentTextLines := [];
      }
    }

    /** `extractedText.trim()`. */
    method Result() returns (text: string)
      requires Valid()
      ensures text == Output(Model())
    {
      text := Trim(extractedText);
    }
  }
}
