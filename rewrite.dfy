/**
 * `String.prototype.replace` with a global regular expression, for the handful of pattern
 * shapes the tag cleaners use. Matching is tried at each index from left to right; a match
 * is replaced and the search resumes after it, so replacements never overlap and replaced
 * text is never searched again.
 */
module Rewrite {
  import opened JsString
  import opened Wrappers

  /** Two texts of the same length that agree character by character up to ASCII letter
      case, as the regex flag `i` compares them. */
  predicate SameUpToCase(a: string, b: string) {
    |a| == |b| && (a == [] || (LowerChar(a[0]) == LowerChar(b[0]) && SameUpToCase(a[1..], b[1..])))
  }

  /** `s[i..]` begins with `lit`, compared exactly or, under the regex flag `i`, ignoring
      ASCII letter case. */
  predicate LiteralAt(s: string, i: nat, lit: string, fold: bool) {
    i + |lit| <= |s| &&
    if fold then SameUpToCase(s[i..i + |lit|], lit) else s[i..i + |lit|] == lit
  }

  /** Comparing up to case is comparing the lower-cased texts. */
  lemma {:induction false} SameUpToCaseLower(a: string, b: string)
    ensures SameUpToCase(a, b) <==> ToLower(a) == ToLower(b)
  {
    if |a| == |b| && a != [] {
      SameUpToCaseLower(a[1..], b[1..]);
      if ToLower(a) == ToLower(b) {
        assert ToLower(a)[0] == ToLower(b)[0];
        assert ToLower(a[1..]) == ToLower(b[1..]) by {
          forall k | 0 <= k < |a| - 1 ensures ToLower(a[1..])[k] == ToLower(b[1..])[k] {
            assert ToLower(a)[k + 1] == ToLower(b)[k + 1];
          }
        }
      }
      if SameUpToCase(a, b) {
        forall k | 0 <= k < |a| ensures ToLower(a)[k] == ToLower(b)[k] {
          if k > 0 {
            assert ToLower(a[1..])[k - 1] == ToLower(b[1..])[k - 1];
          }
        }
      }
    } else if |a| != |b| {
      assert |ToLower(a)| != |ToLower(b)|;
    }
  }

  /** Texts that agree up to case agree up to case at each position. */
  lemma {:induction false} SameUpToCaseAt(a: string, b: string, k: nat)
    requires SameUpToCase(a, b) && k < |a|
    ensures LowerChar(a[k]) == LowerChar(b[k])
    decreases k
  {
    if k > 0 {
      SameUpToCaseAt(a[1..], b[1..], k - 1);
    }
  }

  /** Every text agrees with itself up to case. */
  lemma {:induction false} SameUpToCaseRefl(a: string)
    ensures SameUpToCase(a, a)
  {
    if a != [] {
      SameUpToCaseRefl(a[1..]);
    }
  }

  /** The first index at or after i holding c, or |s|. */
  function FindChar(s: string, i: nat, c: char): (j: nat)
    requires i <= |s|
    ensures i <= j <= |s|
    ensures j < |s| ==> s[j] == c
    ensures forall k :: i <= k < j ==> s[k] != c
    decreases |s| - i
  {
    if i == |s| || s[i] == c then i else FindChar(s, i + 1, c)
  }

  /** The first index at or after i where `lit` occurs, ignoring ASCII case. */
  function FindLiteral(s: string, i: nat, lit: string): (r: Option<nat>)
    requires i <= |s|
    ensures r.Some? ==> i <= r.value && LiteralAt(s, r.value, lit, true)
    decreases |s| - i
  {
    if LiteralAt(s, i, lit, true) then Some(i)
    else if i == |s| then None
    else FindLiteral(s, i + 1, lit)
  }

  /** The occurrence `FindLiteral` finds is the first one at or after i, and it finds
      none only when there is none. */
  lemma {:induction false} FindLiteralFirst(s: string, i: nat, lit: string)
    requires i <= |s|
    ensures var r := FindLiteral(s, i, lit);
            (r.Some? ==> forall k :: i <= k < r.value ==> !LiteralAt(s, k, lit, true)) &&
            (r.None? ==> forall k :: i <= k <= |s| ==> !LiteralAt(s, k, lit, true))
    decreases |s| - i
  {
    if !LiteralAt(s, i, lit, true) && i < |s| {
      FindLiteralFirst(s, i + 1, lit);
    }
  }

  /** The shapes of regular expression the cleaners use. */
  datatype Pattern =
      /** a fixed text, e.g. `<\/c>`, or `&amp;` under the `i` flag */
    | Literal(text: string, fold: bool)
      /** `prefix`, at least `minBody` characters other than `close`, then `close`:
          `<c\.[^>]+>`, `<v\s*[^>]*>`, `<[^>]+>`, `{\\[^}]+}` */
    | Delimited(prefix: string, fold: bool, close: char, minBody: nat)
      /** `first|second` */
    | Either(first: Pattern, second: Pattern)
      /** `<open[^>]*>([\s\S]*?)<\/close>` under `i`: an opening tag, then the shortest
          run up to the closing tag; the run is capture group 1 */
    | Enclosing(open: string, closeTag: string)
      /** `<br\s*\/?>` under `i` */
    | LineBreakTag

  /** Where a match ends (exclusive), and what capture group 1 holds. */
  datatype Match = Match(end: nat, group: string)

  /** The match of `p` that starts exactly at index i, if any. Greedy `[^c]*` followed by
      `c` can only stop at the first `c`, and a greedy `\s*` followed by a non-space can
      only stop at the first non-space, so each shape has at most one match at i. */
  function MatchAt(p: Pattern, s: string, i: nat): (m: Option<Match>)
    requires i <= |s|
    ensures m.Some? ==> i < m.value.end <= |s|
  {
    match p
    case Literal(text, fold) =>
      if |text| > 0 && LiteralAt(s, i, text, fold) then Some(Match(i + |text|, [])) else None
    case Delimited(prefix, fold, close, minBody) => DelimitedMatch(prefix, fold, close, minBody, s, i)
    case Either(first, second) =>
      var m := MatchAt(first, s, i);
      if m.Some? then m else MatchAt(second, s, i)
    case Enclosing(open, closeTag) => EnclosingMatch(open, closeTag, s, i)
    case LineBreakTag => LineBreakMatch(s, i)
  }

  /** `prefix[^close]{minBody,}close` at i. */
  function DelimitedMatch(prefix: string, fold: bool, close: char, minBody: nat, s: string, i: nat): (m: Option<Match>)
    requires i <= |s|
    ensures m.Some? ==> i < m.value.end <= |s| && m.value.group == []
  {
    if LiteralAt(s, i, prefix, fold) then
      var j := FindChar(s, i + |prefix|, close);
      if j < |s| && j - (i + |prefix|) >= minBody then Some(Match(j + 1, [])) else None
    else None
  }

  /** `<open[^>]*>([\s\S]*?)<\/close>` at i, under `i`. */
  function EnclosingMatch(open: string, closeTag: string, s: string, i: nat): (m: Option<Match>)
    requires i <= |s|
    ensures m.Some? ==> i < m.value.end <= |s|
  {
    if |closeTag| > 0 && LiteralAt(s, i, open, true) then ClosedRun(closeTag, s, FindChar(s, i + |open|, '>'))
    else None
  }

  /** The rest of an enclosing match once the opening tag's `>` is sought at j: the
      shortest run after it up to the closing tag, which becomes capture group 1. */
  function ClosedRun(closeTag: string, s: string, j: nat): (m: Option<Match>)
    requires j <= |s| && |closeTag| > 0
    ensures m.Some? ==> j < m.value.end <= |s|
  {
    if j < |s| then
      match FindLiteral(s, j + 1, closeTag)
      case Some(k) => Some(Match(k + |closeTag|, s[j + 1..k]))
      case None => None
    else None
  }

  /** `<br\s*\/?>` at i, under `i`. */
  function LineBreakMatch(s: string, i: nat): (m: Option<Match>)
    requires i <= |s|
    ensures m.Some? ==> i < m.value.end <= |s| && m.value.group == []
  {
    if LiteralAt(s, i, "<br", true) then
      var j := SkipSpace(s, i + 3);
      var k := if j < |s| && s[j] == '/' then j + 1 else j;
      if k < |s| && s[k] == '>' then Some(Match(k + 1, [])) else None
    else None
  }

  /** The replacement: a fixed text, or `$1`. */
  datatype Replacement = Text(text: string) | Group

  datatype Rule = Rule(pattern: Pattern, replacement: Replacement)

  function Substitute(r: Replacement, m: Match): string {
    match r
    case Text(t) => t
    case Group => m.group
  }

  /** The global replacement applied to `s[i..]`. */
  function ReplaceFrom(s: string, i: nat, rule: Rule): string
    requires i <= |s|
    decreases |s| - i, 1
  {
    if i == |s| then [] else ReplaceAt(s, i, rule)
  }

  /** The global replacement applied to `s[i..]` when it is not empty: the match at i
      is substituted, or else `s[i]` is kept, and the search goes on after it. */
  function ReplaceAt(s: string, i: nat, rule: Rule): string
    requires i < |s|
    decreases |s| - i, 0
  {
    match MatchAt(rule.pattern, s, i)
    case Some(m) => Substitute(rule.replacement, m) + ReplaceFrom(s, m.end, rule)
    case None => [s[i]] + ReplaceFrom(s, i + 1, rule)
  }

  lemma ReplaceFromAt(s: string, i: nat, rule: Rule)
    requires i < |s|
    ensures ReplaceFrom(s, i, rule) == ReplaceAt(s, i, rule)
  {
  }

  /** `s.replace(/pattern/g, replacement)`. */
  function ReplaceAll(s: string, rule: Rule): string {
    ReplaceFrom(s, 0, rule)
  }

  /** A chain `s.replace(r1).replace(r2)…`, applied in the order of the sequence. */
  function ApplyRules(rules: seq<Rule>, s: string): string {
    if rules == [] then s else ApplyRules(rules[1..], ReplaceAll(s, rules[0]))
  }

  predicate IsAsciiLetter(c: char) {
    'A' <= c <= 'Z' || 'a' <= c <= 'z'
  }

  /** Every match of `p` begins with the character `c`, which letter case cannot change. */
  predicate Anchored(p: Pattern, c: char) {
    !IsAsciiLetter(c) &&
    match p
    case Literal(text, _) => |text| > 0 && text[0] == c
    case Delimited(prefix, _, _, _) => |prefix| > 0 && prefix[0] == c
    case Either(first, second) => Anchored(first, c) && Anchored(second, c)
    case Enclosing(open, _) => |open| > 0 && open[0] == c
    case LineBreakTag => c == '<'
  }

  lemma LiteralAtFirst(s: string, i: nat, lit: string, fold: bool)
    requires LiteralAt(s, i, lit, fold) && |lit| > 0 && !IsAsciiLetter(lit[0])
    ensures s[i] == lit[0]
  {
    assert s[i..i + |lit|][0] == s[i];
  }

  /** A match of an anchored pattern starts with its anchor character. */
  lemma {:induction false} AnchoredMatch(p: Pattern, c: char, s: string, i: nat)
    requires i <= |s| && Anchored(p, c) && MatchAt(p, s, i).Some?
    ensures i < |s| && s[i] == c
  {
    match p
    case Literal(text, fold) => LiteralAtFirst(s, i, text, fold);
    case Delimited(prefix, fold, _, _) => LiteralAtFirst(s, i, prefix, fold);
    case Either(first, second) =>
      if MatchAt(first, s, i).Some? {
        AnchoredMatch(first, c, s, i);
      } else {
        AnchoredMatch(second, c, s, i);
      }
    case Enclosing(open, _) => LiteralAtFirst(s, i, open, true);
    case LineBreakTag => LiteralAtFirst(s, i, "<br", true);
  }

  /** Text in which the anchor character of a rule never occurs comes out unchanged. */
  lemma {:induction false} ReplaceAbsent(s: string, i: nat, rule: Rule, c: char)
    requires i <= |s| && Anchored(rule.pattern, c)
    requires forall k :: i <= k < |s| ==> s[k] != c
    ensures ReplaceFrom(s, i, rule) == s[i..]
    decreases |s| - i
  {
    if i < |s| {
      if MatchAt(rule.pattern, s, i).Some? {
        AnchoredMatch(rule.pattern, c, s, i);
      }
      ReplaceAbsent(s, i + 1, rule, c);
      assert s[i..] == [s[i]] + s[i + 1..];
    }
  }

  /** The shortest text a pattern can match. */
  function MinLength(p: Pattern): nat {
    match p
    case Literal(text, _) => |text|
    case Delimited(prefix, _, _, minBody) => |prefix| + minBody + 1
    case Either(first, second) =>
      if MinLength(first) <= MinLength(second) then MinLength(first) else MinLength(second)
    case Enclosing(open, closeTag) => |open| + 1 + |closeTag|
    case LineBreakTag => 4
  }

  /** A match is at least `MinLength` long, and its group lies strictly inside it. */
  lemma {:induction false} MatchLength(p: Pattern, s: string, i: nat)
    requires i <= |s| && MatchAt(p, s, i).Some?
    ensures MatchAt(p, s, i).value.end - i >= MinLength(p)
    ensures |MatchAt(p, s, i).value.group| < MatchAt(p, s, i).value.end - i
  {
    match p
    case Either(first, second) =>
      if MatchAt(first, s, i).Some? {
        MatchLength(first, s, i);
      } else {
        MatchLength(second, s, i);
      }
    case _ =>
  }

  /** The replacement is never longer than the text it replaces. */
  predicate Shrinking(rule: Rule) {
    match rule.replacement
    case Text(t) => |t| <= MinLength(rule.pattern)
    case Group => true
  }

  /** A shrinking rule never lengthens the text. */
  lemma {:induction false} ReplaceShrinks(s: string, i: nat, rule: Rule)
    requires i <= |s| && Shrinking(rule)
    ensures |ReplaceFrom(s, i, rule)| <= |s| - i
    decreases |s| - i
  {
    if i < |s| {
      match MatchAt(rule.pattern, s, i)
      case Some(m) =>
        MatchLength(rule.pattern, s, i);
        ReplaceShrinks(s, m.end, rule);
      case None =>
        ReplaceShrinks(s, i + 1, rule);
    }
  }

  /** A chain of shrinking rules never lengthens the text. */
  lemma {:induction false} ApplyRulesShrinks(rules: seq<Rule>, s: string)
    requires forall r :: r in rules ==> Shrinking(r)
    ensures |ApplyRules(rules, s)| <= |s|
  {
    if rules != [] {
      ReplaceShrinks(s, 0, rules[0]);
      ApplyRulesShrinks(rules[1..], ReplaceAll(s, rules[0]));
    }
  }

  /** A chain of rules anchored at a character absent from `s` leaves `s` unchanged. */
  lemma {:induction false} ApplyRulesAbsent(rules: seq<Rule>, s: string, c: char)
    requires forall r :: r in rules ==> Anchored(r.pattern, c)
    requires c !in s
    ensures ApplyRules(rules, s) == s
  {
    if rules != [] {
      ReplaceAbsent(s, 0, rules[0], c);
      ApplyRulesAbsent(rules[1..], s, c);
    }
  }

  /** Under the `i` flag, a literal that matches agrees with the text at each position up
      to ASCII case. */
  lemma LiteralAtChar(s: string, i: nat, lit: string, k: nat)
    requires LiteralAt(s, i, lit, true) && k < |lit|
    ensures LowerChar(s[i + k]) == LowerChar(lit[k])
  {
    SameUpToCaseAt(s[i..i + |lit|], lit, k);
  }

  /** Under either flag, one character that differs even up to ASCII case rules a
      literal out. */
  lemma LiteralMiss(s: string, i: nat, lit: string, fold: bool, k: nat)
    requires k < |lit| && i + k < |s| && LowerChar(s[i + k]) != LowerChar(lit[k])
    ensures !LiteralAt(s, i, lit, fold)
  {
    if fold {
      if LiteralAt(s, i, lit, fold) {
        LiteralAtChar(s, i, lit, k);
      }
    } else if i + |lit| <= |s| {
      assert s[i..i + |lit|][k] == s[i + k];
    }
  }

  // ---------------------------------------------------------------------------------------
  // Locality: a match never looks before its start, so text in front does not change
  // how the rest is rewritten.

  lemma SliceShift(pre: string, t: string, lo: nat, hi: nat)
    requires lo <= hi <= |t|
    ensures (pre + t)[|pre| + lo..|pre| + hi] == t[lo..hi]
  {
    var u := (pre + t)[|pre| + lo..|pre| + hi];
    forall q | 0 <= q < hi - lo ensures u[q] == t[lo..hi][q] {
      assert u[q] == (pre + t)[|pre| + lo + q];
    }
  }

  lemma LiteralAtShift(pre: string, t: string, k: nat, lit: string, fold: bool)
    requires k <= |t|
    ensures LiteralAt(pre + t, |pre| + k, lit, fold) == LiteralAt(t, k, lit, fold)
  {
    if k + |lit| <= |t| {
      SliceShift(pre, t, k, k + |lit|);
    }
  }

  lemma {:induction false} FindCharShift(pre: string, t: string, k: nat, c: char)
    requires k <= |t|
    ensures FindChar(pre + t, |pre| + k, c) == |pre| + FindChar(t, k, c)
    decreases |t| - k
  {
    if k < |t| {
      assert (pre + t)[|pre| + k] == t[k];
      if t[k] != c {
        FindCharShift(pre, t, k + 1, c);
      }
    }
  }

  lemma {:induction false} SkipSpaceShift(pre: string, t: string, k: nat)
    requires k <= |t|
    ensures SkipSpace(pre + t, |pre| + k) == |pre| + SkipSpace(t, k)
    decreases |t| - k
  {
    if k < |t| {
      assert (pre + t)[|pre| + k] == t[k];
      if IsSpace(t[k]) {
        SkipSpaceShift(pre, t, k + 1);
      }
    }
  }

  lemma {:induction false} FindLiteralShift(pre: string, t: string, k: nat, lit: string)
    requires k <= |t|
    ensures FindLiteral(t, k, lit).None? ==> FindLiteral(pre + t, |pre| + k, lit).None?
    ensures FindLiteral(t, k, lit).Some? ==>
              FindLiteral(pre + t, |pre| + k, lit) == Some(|pre| + FindLiteral(t, k, lit).value)
    decreases |t| - k
  {
    var s := pre + t;
    LiteralAtShift(pre, t, k, lit, true);
    if !LiteralAt(t, k, lit, true) && k < |t| {
      FindLiteralShift(pre, t, k + 1, lit);
      assert FindLiteral(s, |pre| + k, lit) == FindLiteral(s, |pre| + k + 1, lit);
    }
  }

  /** A match moved d positions to the right. */
  function Shifted(m: Option<Match>, d: nat): Option<Match> {
    if m.Some? then Some(Match(d + m.value.end, m.value.group)) else None
  }

  /** The match at index k of t, moved to the right by a prefix. */
  lemma {:induction false} MatchAtShift(p: Pattern, pre: string, t: string, k: nat)
    requires k <= |t|
    ensures MatchAt(p, pre + t, |pre| + k) == Shifted(MatchAt(p, t, k), |pre|)
  {
    match p
    case Literal(text, fold) =>
      LiteralAtShift(pre, t, k, text, fold);
    case Delimited(prefix, fold, close, minBody) =>
      DelimitedShift(prefix, fold, close, minBody, pre, t, k);
    case Either(first, second) =>
      MatchAtShift(first, pre, t, k);
      MatchAtShift(second, pre, t, k);
    case Enclosing(open, closeTag) =>
      EnclosingShift(open, closeTag, pre, t, k);
    case LineBreakTag =>
      LineBreakShift(pre, t, k);
  }

  lemma DelimitedShift(prefix: string, fold: bool, close: char, minBody: nat, pre: string, t: string, k: nat)
    requires k <= |t|
    ensures DelimitedMatch(prefix, fold, close, minBody, pre + t, |pre| + k) ==
            Shifted(DelimitedMatch(prefix, fold, close, minBody, t, k), |pre|)
  {
    LiteralAtShift(pre, t, k, prefix, fold);
    if LiteralAt(t, k, prefix, fold) {
      FindCharShift(pre, t, k + |prefix|, close);
    }
  }

  lemma EnclosingShift(open: string, closeTag: string, pre: string, t: string, k: nat)
    requires k <= |t|
    ensures EnclosingMatch(open, closeTag, pre + t, |pre| + k) ==
            Shifted(EnclosingMatch(open, closeTag, t, k), |pre|)
  {
    LiteralAtShift(pre, t, k, open, true);
    if |closeTag| > 0 && LiteralAt(t, k, open, true) {
      var j := FindChar(t, k + |open|, '>');
      FindCharShift(pre, t, k + |open|, '>');
      assert FindChar(pre + t, |pre| + k + |open|, '>') == |pre| + j;
      ClosedRunShift(closeTag, pre, t, j);
      assert EnclosingMatch(open, closeTag, t, k) == ClosedRun(closeTag, t, j);
      assert EnclosingMatch(open, closeTag, pre + t, |pre| + k) == ClosedRun(closeTag, pre + t, |pre| + j);
    } else {
      assert EnclosingMatch(open, closeTag, t, k) == None;
      assert EnclosingMatch(open, closeTag, pre + t, |pre| + k) == None;
    }
  }

  lemma ClosedRunShift(closeTag: string, pre: string, t: string, j: nat)
    requires j <= |t| && |closeTag| > 0
    ensures ClosedRun(closeTag, pre + t, |pre| + j) == Shifted(ClosedRun(closeTag, t, j), |pre|)
  {
    if j < |t| {
      FindLiteralShift(pre, t, j + 1, closeTag);
      match FindLiteral(t, j + 1, closeTag)
      case Some(v) =>
        assert LiteralAt(t, v, closeTag, true);
        SliceShift(pre, t, j + 1, v);
      case None =>
    }
  }

  lemma LineBreakShift(pre: string, t: string, k: nat)
    requires k <= |t|
    ensures LineBreakMatch(pre + t, |pre| + k) == Shifted(LineBreakMatch(t, k), |pre|)
  {
    LiteralAtShift(pre, t, k, "<br", true);
    if LiteralAt(t, k, "<br", true) {
      SkipSpaceShift(pre, t, k + 3);
      var j := SkipSpace(t, k + 3);
      if j < |t| {
        assert (pre + t)[|pre| + j] == t[j];
      }
      if j + 1 < |t| {
        assert (pre + t)[|pre| + j + 1] == t[j + 1];
      }
    }
  }

  /** Rewriting the rest of a text does not depend on what comes before it. */
  lemma {:induction false} ReplaceShift(pre: string, t: string, k: nat, rule: Rule)
    requires k <= |t|
    ensures ReplaceFrom(pre + t, |pre| + k, rule) == ReplaceFrom(t, k, rule)
    decreases |t| - k
  {
    if k < |t| {
      MatchAtShift(rule.pattern, pre, t, k);
      match MatchAt(rule.pattern, t, k)
      case Some(m) =>
        ReplaceShift(pre, t, m.end, rule);
      case None =>
        assert (pre + t)[|pre| + k] == t[k];
        ReplaceShift(pre, t, k + 1, rule);
    }
  }

  /** A stretch without the anchor character is copied as it is. */
  lemma {:induction false} ReplaceSkips(s: string, i: nat, j: nat, rule: Rule, c: char)
    requires i <= j <= |s| && Anchored(rule.pattern, c)
    requires forall k :: i <= k < j ==> s[k] != c
    ensures ReplaceFrom(s, i, rule) == s[i..j] + ReplaceFrom(s, j, rule)
    decreases j - i
  {
    if i < j {
      if MatchAt(rule.pattern, s, i).Some? {
        AnchoredMatch(rule.pattern, c, s, i);
      }
      ReplaceSkips(s, i + 1, j, rule, c);
      assert s[i..j] == [s[i]] + s[i + 1..j];
    }
  }

  /** A leading text without the anchor character passes through the global replacement
      unchanged, and the rest is rewritten on its own. */
  lemma ReplaceAllPrefix(a: string, t: string, rule: Rule, c: char)
    requires Anchored(rule.pattern, c) && c !in a
    ensures ReplaceAll(a + t, rule) == a + ReplaceAll(t, rule)
  {
    forall k | 0 <= k < |a| ensures (a + t)[k] != c {
      assert (a + t)[k] == a[k];
    }
    ReplaceSkips(a + t, 0, |a|, rule, c);
    assert (a + t)[0..|a|] == a;
    ReplaceShift(a, t, 0, rule);
  }

  /** The global replacement of a non-empty text: the match at its start is substituted,
      or its first character is kept, and the rest is rewritten on its own. */
  lemma ReplaceAllHead(t: string, rule: Rule)
    requires t != []
    ensures ReplaceAll(t, rule) ==
      match MatchAt(rule.pattern, t, 0)
      case Some(m) => Substitute(rule.replacement, m) + ReplaceAll(t[m.end..], rule)
      case None => [t[0]] + ReplaceAll(t[1..], rule)
  {
    ReplaceFromAt(t, 0, rule);
    match MatchAt(rule.pattern, t, 0)
    case Some(m) =>
      assert t[..m.end] + t[m.end..] == t;
      ReplaceShift(t[..m.end], t[m.end..], 0, rule);
    case None =>
      assert t[..1] + t[1..] == t;
      ReplaceShift(t[..1], t[1..], 0, rule);
  }

  // ---------------------------------------------------------------------------------------
  // Single matches and chains of rules

  /** A text begins with itself, under either flag. */
  lemma LiteralAtStart(lit: string, fold: bool, c: string)
    ensures LiteralAt(lit + c, 0, lit, fold)
  {
    assert (lit + c)[0..|lit|] == lit;
    SameUpToCaseRefl(lit);
  }

  /** `FindChar` stops at the first occurrence. */
  lemma FindCharAt(s: string, i: nat, c: char, v: nat)
    requires i <= v < |s| && s[v] == c
    requires forall q :: i <= q < v ==> s[q] != c
    ensures FindChar(s, i, c) == v
  {
  }

  /** `FindLiteral` stops at the first occurrence of a literal that starts with a
      character letter case cannot change, when that character does not occur earlier. */
  lemma FindLiteralAt(s: string, i: nat, lit: string, v: nat)
    requires i <= v && LiteralAt(s, v, lit, true) && |lit| > 0 && !IsAsciiLetter(lit[0])
    requires forall q :: i <= q < v ==> s[q] != lit[0]
    ensures FindLiteral(s, i, lit) == Some(v)
  {
    FindLiteralFirst(s, i, lit);
    var r := FindLiteral(s, i, lit);
    if r.Some? && r.value < v {
      LiteralAtFirst(s, r.value, lit, true);
    }
  }

  /** `prefix`, a body without the closing character and at least `minBody` long, and
      the closing character: a match that ends right after the closing character. */
  lemma DelimitedAt(prefix: string, fold: bool, close: char, minBody: nat, body: string, c: string)
    requires close !in body && |body| >= minBody
    ensures DelimitedMatch(prefix, fold, close, minBody, prefix + body + [close] + c, 0) ==
            Some(Match(|prefix| + |body| + 1, []))
  {
    var t := prefix + body + [close] + c;
    assert t == prefix + (body + [close] + c);
    LiteralAtStart(prefix, fold, body + [close] + c);
    forall q | |prefix| <= q < |prefix| + |body| ensures t[q] != close {
      assert t[q] == body[q - |prefix|];
    }
    FindCharAt(t, |prefix|, close, |prefix| + |body|);
  }

  /** An opening tag with attributes free of `>`, a run free of the closing tag's first
      character, and the closing tag: a match whose group is the run. */
  lemma EnclosingAt(open: string, closeTag: string, attrs: string, x: string, c: string)
    requires |closeTag| > 0 && !IsAsciiLetter(closeTag[0]) && '>' !in attrs && closeTag[0] !in x
    ensures EnclosingMatch(open, closeTag, open + attrs + ">" + x + closeTag + c, 0) ==
            Some(Match(|open| + |attrs| + 1 + |x| + |closeTag|, x))
  {
    var rest := x + closeTag + c;
    var pre := open + attrs + ">";
    var t := pre + rest;
    assert t == open + attrs + ">" + x + closeTag + c;
    OpeningTagAt(open, attrs, rest);
    ClosedRunAt(closeTag, pre, x, c);
    assert EnclosingMatch(open, closeTag, t, 0) == ClosedRun(closeTag, t, |pre| - 1);
  }

  /** An opening tag whose attributes are free of `>` ends at the first `>`. */
  lemma OpeningTagAt(open: string, attrs: string, rest: string)
    requires '>' !in attrs
    ensures LiteralAt(open + attrs + ">" + rest, 0, open, true)
    ensures FindChar(open + attrs + ">" + rest, |open|, '>') == |open| + |attrs|
  {
    var t := open + attrs + ">" + rest;
    assert t == open + (attrs + ">" + rest);
    LiteralAtStart(open, true, attrs + ">" + rest);
    forall q | |open| <= q < |open| + |attrs| ensures t[q] != '>' {
      assert t[q] == attrs[q - |open|];
    }
    FindCharAt(t, |open|, '>', |open| + |attrs|);
  }

  /** After the `>` at the end of `pre`, a run free of the closing tag's first character
      and the closing tag: the run is the group. */
  lemma ClosedRunAt(closeTag: string, pre: string, x: string, c: string)
    requires |closeTag| > 0 && !IsAsciiLetter(closeTag[0]) && closeTag[0] !in x && pre != []
    ensures ClosedRun(closeTag, pre + (x + closeTag + c), |pre| - 1) ==
            Some(Match(|pre| + |x| + |closeTag|, x))
  {
    var t := pre + (x + closeTag + c);
    var v := |pre| + |x|;
    assert t == (pre + x) + (closeTag + c);
    LiteralAtStart(closeTag, true, c);
    LiteralAtShift(pre + x, closeTag + c, 0, closeTag, true);
    forall q | |pre| <= q < v ensures t[q] != closeTag[0] {
      assert t[q] == x[q - |pre|];
    }
    FindLiteralAt(t, |pre|, closeTag, v);
    assert t[|pre|..v] == x;
  }

  /** No match of `p` has, at offset k, a character equal to c up to case. */
  predicate StartsWithout(p: Pattern, k: nat, c: char) {
    match p
    case Literal(text, _) => k < |text| && LowerChar(text[k]) != LowerChar(c)
    case Delimited(prefix, _, _, _) => k < |prefix| && LowerChar(prefix[k]) != LowerChar(c)
    case Either(first, second) => StartsWithout(first, k, c) && StartsWithout(second, k, c)
    case Enclosing(open, _) => k < |open| && LowerChar(open[k]) != LowerChar(c)
    case LineBreakTag => k < 3 && LowerChar("<br"[k]) != LowerChar(c)
  }

  /** A pattern does not match where the text has, at some offset, a character no match
      of it has there. */
  lemma {:induction false} MissesAt(p: Pattern, s: string, i: nat, k: nat)
    requires i + k < |s| && StartsWithout(p, k, s[i + k])
    ensures MatchAt(p, s, i).None?
  {
    match p
    case Literal(text, fold) => LiteralMiss(s, i, text, fold, k);
    case Delimited(prefix, fold, _, _) => LiteralMiss(s, i, prefix, fold, k);
    case Either(first, second) =>
      MissesAt(first, s, i, k);
      MissesAt(second, s, i, k);
    case Enclosing(open, _) => LiteralMiss(s, i, open, true, k);
    case LineBreakTag => LiteralMiss(s, i, "<br", true, k);
  }
  /** Where the pattern cannot match at the start, the first character is copied. */
  lemma HeadCopied(t: string, rule: Rule, k: nat)
    requires k < |t| && StartsWithout(rule.pattern, k, t[k])
    ensures ReplaceAll(t, rule) == [t[0]] + ReplaceAll(t[1..], rule)
  {
    MissesAt(rule.pattern, t, 0, k);
    ReplaceAllHead(t, rule);
  }


  /** A chain of rules is its first part followed by the rest. */
  lemma {:induction false} ApplyRulesSplit(rules: seq<Rule>, k: nat, s: string)
    requires k <= |rules|
    ensures ApplyRules(rules, s) == ApplyRules(rules[k..], ApplyRules(rules[..k], s))
  {
    if k > 0 {
      ApplyRulesSplit(rules[1..], k - 1, ReplaceAll(s, rules[0]));
      assert rules[1..][k - 1..] == rules[k..];
      assert rules[..k][1..] == rules[1..][..k - 1];
    }
  }

  /** A chain of rules each of which leaves `s` unchanged leaves it unchanged. */
  lemma {:induction false} ApplyRulesUnchanged(rules: seq<Rule>, s: string)
    requires forall r :: r in rules ==> ReplaceAll(s, r) == s
    ensures ApplyRules(rules, s) == s
  {
    if rules != [] {
      ApplyRulesUnchanged(rules[1..], s);
    }
  }
}
