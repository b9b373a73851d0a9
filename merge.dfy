/**
 * The text transform of `handleMerge`, the same in both front-ends: collapse every run
 * of blank lines to a single line break, trim, then join the lines with the separator
 * the user typed.
 */
module Merge {
  import opened Wrappers
  import opened JsString

  // ---------------------------------------------------------------------------------------
  // replace(/\n\s*\n/g, '\n')

  /** The regex replacement from index i on. At a line break the greedy `\s*` takes the
      whole white-space run after it and backs off to the last line break in that run;
      when there is one the match ends just after it and becomes a single line break,
      otherwise nothing matches here and the scan moves one character on. */
  function CollapseFrom(s: string, i: nat): string
    requires i <= |s|
    decreases |s| - i, 1
  {
    if i == |s| then [] else CollapseAt(s, i)
  }

  /** The replacement from index i on, with a character at i. */
  function CollapseAt(s: string, i: nat): string
    requires i < |s|
    decreases |s| - i, 0
  {
    if s[i] == '\n' then
      var j := SkipSpace(s, i + 1);
      var k := LastIndexOf(s[i + 1..j], '\n');
      if k >= 0 then "\n" + CollapseFrom(s, i + 1 + k + 1) else [s[i]] + CollapseFrom(s, i + 1)
    else [s[i]] + CollapseFrom(s, i + 1)
  }

  /** Any character but a line break is copied. */
  lemma CollapseCopiesOne(s: string, i: nat)
    requires i < |s| && s[i] != '\n'
    ensures CollapseFrom(s, i) == [s[i]] + CollapseFrom(s, i + 1)
  {
    assert CollapseFrom(s, i) == CollapseAt(s, i);
  }

  /** A line break whose white-space run holds the last line break at index e - 1 (or
      none, with e the index after it) becomes one line break followed by the
      replacement from e on. */
  lemma CollapseBreak(s: string, i: nat) returns (e: nat, j: nat)
    requires i < |s| && s[i] == '\n'
    ensures i < e <= j <= |s| && j == SkipSpace(s, i + 1)
    ensures forall k :: i + 1 <= k < j ==> IsSpace(s[k])
    ensures forall k :: e <= k < j ==> s[k] != '\n'
    ensures CollapseFrom(s, i) == "\n" + CollapseFrom(s, e)
  {
    assert CollapseFrom(s, i) == CollapseAt(s, i);
    j := SkipSpace(s, i + 1);
    SkipSpaceSkips(s, i + 1);
    var x := s[i + 1..j];
    var k := LastIndexOf(x, '\n');
    e := if k >= 0 then i + 1 + k + 1 else i + 1;
    forall m | e <= m < j ensures s[m] != '\n' {
      assert x[m - (i + 1)] == s[m];
    }
  }

  function Collapse(s: string): string {
    CollapseFrom(s, 0)
  }

  /** `parts.join(separator)` for a separator of any length. */
  function JoinWith(parts: seq<string>, separator: string): string {
    if parts == [] then []
    else if |parts| == 1 then parts[0]
    else parts[0] + separator + JoinWith(parts[1..], separator)
  }

  /** The merged text: collapsed, trimmed, split at line breaks and joined with the
      separator. */
  function MergeText(text: string, separator: string): string {
    JoinWith(Split(Trim(Collapse(text)), '\n'), separator)
  }

  /** `handleMerge` on the text of the output box: nothing to merge (the box keeps its
      text) when that text is blank, otherwise the merged text. */
  function HandleMerge(current: string, separator: string): Option<string> {
    if Trim(current) == [] then None else Some(MergeText(current, separator))
  }

  // ---------------------------------------------------------------------------------------
  // No blank line survives

  /** The white-space run at the start of x holds no line break. */
  predicate LeadFree(x: string)
    decreases |x|
  {
    x == [] || !IsSpace(x[0]) || (x[0] != '\n' && LeadFree(x[1..]))
  }

  /** Every line break in x is followed by a white-space run without another line
      break: no line after the first is blank. */
  predicate NoBlank(x: string)
    decreases |x|
  {
    x == [] || ((x[0] == '\n' ==> LeadFree(x[1..])) && NoBlank(x[1..]))
  }

  /** Text without line breaks is copied unchanged. */
  lemma {:induction false} CollapseCopies(s: string, i: nat, j: nat)
    requires i <= j <= |s|
    requires forall k :: i <= k < j ==> s[k] != '\n'
    ensures CollapseFrom(s, i) == s[i..j] + CollapseFrom(s, j)
    decreases j - i
  {
    if i < j {
      CollapseCopies(s, i + 1, j);
      CollapseCopiesOne(s, i);
      assert s[i..j] == [s[i]] + s[i + 1..j];
    }
  }

  lemma {:induction false} LeadFreeRun(x: string, y: string)
    requires '\n' !in x && LeadFree(y)
    ensures LeadFree(x + y)
    decreases |x|
  {
    if x != [] {
      assert (x + y)[0] == x[0] && (x + y)[1..] == x[1..] + y;
      assert '\n' !in x[1..] by {
        forall k | 0 <= k < |x[1..]| ensures x[1..][k] != '\n' {
          assert x[1..][k] == x[k + 1];
        }
      }
      LeadFreeRun(x[1..], y);
    } else {
      assert x + y == y;
    }
  }

  lemma {:induction false} NoBlankRun(x: string, y: string)
    requires '\n' !in x && NoBlank(y)
    ensures NoBlank(x + y)
    decreases |x|
  {
    if x != [] {
      assert (x + y)[0] == x[0] && (x + y)[1..] == x[1..] + y;
      assert '\n' !in x[1..] by {
        forall k | 0 <= k < |x[1..]| ensures x[1..][k] != '\n' {
          assert x[1..][k] == x[k + 1];
        }
      }
      NoBlankRun(x[1..], y);
    } else {
      assert x + y == y;
    }
  }

  /** What is left of a blank-line run after its replacement: white space without a line
      break, then the end or a character that is not white space. */
  lemma CollapseAfterBreak(s: string, e: nat, j: nat)
    requires e <= j <= |s| && (j == |s| || !IsSpace(s[j]))
    requires forall k :: e <= k < j ==> s[k] != '\n'
    requires NoBlank(CollapseFrom(s, e))
    ensures NoBlank("\n" + CollapseFrom(s, e))
  {
    CollapseCopies(s, e, j);
    if j < |s| {
      CollapseCopiesOne(s, j);
    }
    assert '\n' !in s[e..j] by {
      forall k | 0 <= k < |s[e..j]| ensures s[e..j][k] != '\n' {
        assert s[e..j][k] == s[e + k];
      }
    }
    LeadFreeRun(s[e..j], CollapseFrom(s, j));
    assert ("\n" + CollapseFrom(s, e))[1..] == CollapseFrom(s, e);
  }

  /** The replacement leaves no blank line behind. */
  lemma {:induction false} CollapseNoBlank(s: string, i: nat)
    requires i <= |s|
    ensures NoBlank(CollapseFrom(s, i))
    decreases |s| - i
  {
    if i < |s| {
      if s[i] == '\n' {
        var e, j := CollapseBreak(s, i);
        CollapseNoBlank(s, e);
        CollapseAfterBreak(s, e, j);
      } else {
        CollapseNoBlank(s, i + 1);
        CollapseCopiesOne(s, i);
        assert ([s[i]] + CollapseFrom(s, i + 1))[1..] == CollapseFrom(s, i + 1);
      }
    }
  }

  lemma {:induction false} NoBlankDrop(x: string, a: nat)
    requires a <= |x| && NoBlank(x)
    ensures NoBlank(x[a..])
    decreases a
  {
    if a > 0 {
      NoBlankDrop(x, a - 1);
      assert x[a..] == x[a - 1..][1..];
    }
  }

  lemma {:induction false} LeadFreeTake(x: string, b: nat)
    requires b <= |x| && LeadFree(x)
    ensures LeadFree(x[..b])
    decreases |x|
  {
    if b > 0 && IsSpace(x[0]) {
      LeadFreeTake(x[1..], b - 1);
      assert x[..b][1..] == x[1..][..b - 1];
    }
  }

  lemma {:induction false} NoBlankTake(x: string, b: nat)
    requires b <= |x| && NoBlank(x)
    ensures NoBlank(x[..b])
    decreases |x|
  {
    if b > 0 {
      NoBlankTake(x[1..], b - 1);
      assert x[..b][1..] == x[1..][..b - 1];
      if x[0] == '\n' {
        LeadFreeTake(x[1..], b - 1);
      }
    }
  }

  /** Split into lines, text with no blank line after the first that ends in a
      character that is not white space has no blank line after the first, and its
      first line is not blank either when it does not start with a blank run. */
  lemma {:induction false} SplitNoBlank(x: string)
    requires NoBlank(x) && (x == [] || !IsSpace(x[|x| - 1]))
    ensures forall k :: 1 <= k < |Split(x, '\n')| ==> !IsBlank(Split(x, '\n')[k])
    ensures x != [] && LeadFree(x) ==> !IsBlank(Split(x, '\n')[0])
    decreases |x|
  {
    if x != [] {
      var rest := Split(x[1..], '\n');
      assert |x| >= 2 || !IsSpace(x[0]);
      if |x| >= 2 {
        assert x[1..][|x[1..]| - 1] == x[|x| - 1];
      }
      SplitNoBlank(x[1..]);
      if x[0] != '\n' && LeadFree(x) {
        var first := [x[0]] + rest[0];
        if IsSpace(x[0]) {
          var m :| 0 <= m < |rest[0]| && !IsSpace(rest[0][m]);
          assert first[m + 1] == rest[0][m];
        } else {
          assert first[0] == x[0];
        }
      }
    }
  }

  /** A character that is not white space survives the replacement. */
  lemma {:induction false} CollapseKeepsSolid(s: string, i: nat, m: nat)
    requires i <= m < |s| && !IsSpace(s[m])
    ensures !IsBlank(CollapseFrom(s, i))
    decreases m - i
  {
    if i == m {
      CollapseCopiesOne(s, i);
      assert CollapseFrom(s, i)[0] == s[m];
    } else {
      var next: nat, head: string;
      if s[i] == '\n' {
        var e, j := CollapseBreak(s, i);
        next, head := e, "\n";
      } else {
        CollapseCopiesOne(s, i);
        next, head := i + 1, [s[i]];
      }
      assert next <= m;
      CollapseKeepsSolid(s, next, m);
      var r := CollapseFrom(s, next);
      var p :| 0 <= p < |r| && !IsSpace(r[p]);
      assert (head + r)[p + 1] == r[p];
    }
  }

  /** Text that is not blank stays so after the replacement and the trim. */
  lemma CollapsedNotEmpty(text: string)
    requires !IsBlank(text)
    ensures Trim(Collapse(text)) != []
  {
    var m :| 0 <= m < |text| && !IsSpace(text[m]);
    CollapseKeepsSolid(text, 0, m);
    TrimEmpty(Collapse(text));
  }

  /** Trimming keeps text free of blank lines. */
  lemma TrimNoBlank(c: string)
    requires NoBlank(c)
    ensures NoBlank(Trim(c))
  {
    var start := TrimIsSlice(c);
    var t := Trim(c);
    NoBlankDrop(c, start);
    NoBlankTake(c[start..], |t|);
    assert c[start..][..|t|] == t;
  }

  /** Whenever `handleMerge` merges, every line of the text it splits is non-blank:
      blank lines, also those made of spaces, are gone. */
  lemma MergedLinesNotBlank(text: string)
    requires Trim(text) != []
    ensures var lines := Split(Trim(Collapse(text)), '\n');
            forall k :: 0 <= k < |lines| ==> !IsBlank(lines[k])
  {
    TrimEmpty(text);
    CollapsedNotEmpty(text);
    CollapseNoBlank(text, 0);
    TrimNoBlank(Collapse(text));
    SplitNoBlank(Trim(Collapse(text)));
  }

  // ---------------------------------------------------------------------------------------
  // The separator

  /** With a separator without line breaks the merged text is a single line. */
  lemma {:induction false} JoinWithFree(parts: seq<string>, separator: string)
    requires forall k :: 0 <= k < |parts| ==> '\n' !in parts[k]
    requires '\n' !in separator
    ensures '\n' !in JoinWith(parts, separator)
    decreases |parts|
  {
    if |parts| > 1 {
      JoinWithFree(parts[1..], separator);
    }
  }

  lemma MergeSingleLine(text: string, separator: string)
    requires '\n' !in separator
    ensures '\n' !in MergeText(text, separator)
  {
    JoinWithFree(Split(Trim(Collapse(text)), '\n'), separator);
  }

  /** A one-character separator is `Join`. */
  lemma {:induction false} JoinWithChar(parts: seq<string>, c: char)
    ensures JoinWith(parts, [c]) == Join(parts, c)
    decreases |parts|
  {
    if |parts| > 1 {
      JoinWithChar(parts[1..], c);
    }
  }

  /** With a line break as separator, merging only collapses and trims. */
  lemma MergeWithLineBreak(text: string)
    ensures MergeText(text, "\n") == Trim(Collapse(text))
  {
    var t := Trim(Collapse(text));
    JoinWithChar(Split(t, '\n'), '\n');
    JoinSplit(t, '\n');
  }

  /** Text with no line break followed by white space reaching another line break is
      left unchanged by the replacement. */
  lemma {:induction false} CollapseIdentity(s: string, i: nat)
    requires i <= |s| && NoBlank(s[i..])
    ensures CollapseFrom(s, i) == s[i..]
    decreases |s| - i
  {
    if i < |s| {
      assert s[i..][1..] == s[i + 1..];
      CollapseIdentity(s, i + 1);
      if s[i] == '\n' {
        var j := SkipSpace(s, i + 1);
        LeadFreeNoBreak(s, i + 1);
        assert LastIndexOf(s[i + 1..j], '\n') < 0;
      }
      assert s[i..] == [s[i]] + s[i + 1..];
    }
  }

  /** A line-break-free leading run: no line break before the first character that is
      not white space. */
  lemma {:induction false} LeadFreeNoBreak(s: string, i: nat)
    requires i <= |s| && LeadFree(s[i..])
    ensures '\n' !in s[i..SkipSpace(s, i)]
    decreases |s| - i
  {
    if i < |s| && IsSpace(s[i]) {
      assert s[i..][1..] == s[i + 1..];
      LeadFreeNoBreak(s, i + 1);
      assert s[i..SkipSpace(s, i)] == [s[i]] + s[i + 1..SkipSpace(s, i)];
    }
  }

  /** `handleMerge` does nothing exactly for blank text. */
  lemma HandleMergeIffNotBlank(current: string, separator: string)
    ensures HandleMerge(current, separator).None? <==> IsBlank(current)
    ensures HandleMerge(current, separator).Some? ==>
            var r := HandleMerge(current, separator).value;
            ('\n' !in separator ==> '\n' !in r) && (separator == "\n" ==> r == Trim(Collapse(current)))
  {
    TrimEmpty(current);
    if HandleMerge(current, separator).Some? {
      if '\n' !in separator {
        MergeSingleLine(current, separator);
      }
      if separator == "\n" {
        MergeWithLineBreak(current);
      }
    }
  }
}
