/**
 * `cleanHtmlTags` and `cleanSsaAssTags`, and the `<br>` rewrite applied to SAMI paragraphs.
 * Each is a fixed chain of global replacements; the two front-ends carry identical copies.
 */
module TagCleaners {
  import opened JsString
  import opened Rewrite

  /** `/<[^>]+>/g`: any remaining tag with a non-empty body. */
  const GenericTag: Pattern := Delimited("<", false, '>', 1)

  /** The tag-specific replacements of `cleanHtmlTags`, one constant per `replace` call. */
  const ClassOpenRule := Rule(Delimited("<c.", false, '>', 1), Text(""))                        // /<c\.[^>]+>/g
  const ClassCloseRule := Rule(Literal("</c>", false), Text(""))                                // /<\/c>/g
  const VoiceOpenRule := Rule(Delimited("<v", true, '>', 0), Text(""))                          // /<v\s*[^>]*>/gi
  const VoiceCloseRule := Rule(Literal("</v>", true), Text(""))                                 // /<\/v>/gi
  const LangOpenRule := Rule(Delimited("<lang", true, '>', 0), Text(""))                        // /<lang\s*[^>]*>/gi
  const LangCloseRule := Rule(Literal("</lang>", true), Text(""))                               // /<\/lang>/gi
  const RubyRule := Rule(Enclosing("<ruby", "</ruby>"), Group)                                  // /<ruby[^>]*>([\s\S]*?)<\/ruby>/gi -> '$1'
  const RtRule := Rule(Enclosing("<rt", "</rt>"), Text(""))                                     // /<rt[^>]*>[\s\S]*?<\/rt>/gi
  const BoldRule := Rule(Either(Delimited("<b", true, '>', 0), Literal("</b>", true)), Text(""))  // /<b[^>]*>|<\/b>/gi
  const ItalicRule := Rule(Either(Delimited("<i", true, '>', 0), Literal("</i>", true)), Text(""))  // /<i[^>]*>|<\/i>/gi
  const UnderlineRule := Rule(Either(Delimited("<u", true, '>', 0), Literal("</u>", true)), Text(""))  // /<u[^>]*>|<\/u>/gi
  const FontRule := Rule(Either(Delimited("<font", true, '>', 0), Literal("</font>", true)), Text(""))  // /<font[^>]*>|<\/font>/gi

  /** The tag-specific replacements, in source order. */
  const SpecificTagRules: seq<Rule> := [
    ClassOpenRule, ClassCloseRule, VoiceOpenRule, VoiceCloseRule, LangOpenRule, LangCloseRule,
    RubyRule, RtRule, BoldRule, ItalicRule, UnderlineRule, FontRule
  ]

  /** The entity decodings of `cleanHtmlTags`: `/&nbsp;/gi`, `/&lt;/gi`, `/&gt;/gi`, `/&amp;/gi`. */
  const NbspRule := Rule(Literal("&nbsp;", true), Text(" "))
  const LtRule := Rule(Literal("&lt;", true), Text("<"))
  const GtRule := Rule(Literal("&gt;", true), Text(">"))
  const AmpRule := Rule(Literal("&amp;", true), Text("&"))

  /** The tag-removal half of `cleanHtmlTags`: the specific tags, then any remaining tag. */
  function StripTags(text: string): string {
    ReplaceAll(ApplyRules(SpecificTagRules, text), Rule(GenericTag, Text("")))
  }

  /** One global pass per entity, in source order. */
  function DecodeEntities(text: string): string {
    ReplaceAll(ReplaceAll(ReplaceAll(ReplaceAll(text, NbspRule), LtRule), GtRule), AmpRule)
  }

  /** `cleanHtmlTags(text)`. */
  function CleanHtmlTags(text: string): (r: string)
    ensures r == [] || (!IsSpace(r[0]) && !IsSpace(r[|r| - 1]))
  {
    Trim(DecodeEntities(StripTags(text)))
  }

  /** The replacements of `cleanSsaAssTags`: `/{\\[^}]+}/g` (override blocks) removed,
      `/\\N/g` and `/\\n/g` (the line-break escapes) turned into line feeds. */
  const OverrideRule := Rule(Delimited("{\\", false, '}', 1), Text(""))
  const HardBreakRule := Rule(Literal("\\N", false), Text("\n"))
  const SoftBreakRule := Rule(Literal("\\n", false), Text("\n"))

  /** `cleanSsaAssTags(text)`. */
  function CleanSsaAssTags(text: string): (r: string)
    ensures r == [] || (!IsSpace(r[0]) && !IsSpace(r[|r| - 1]))
  {
    Trim(ReplaceAll(ReplaceAll(ReplaceAll(text, OverrideRule), HardBreakRule), SoftBreakRule))
  }

  /** `innerHTML.replace(/<br\s*\/?>/gi, '\n')`. */
  function BreaksToNewlines(html: string): string {
    ReplaceAll(html, Rule(LineBreakTag, Text("\n")))
  }

  // ---------------------------------------------------------------------------------------
  // What single rules do

  /** An enclosing rule replaces a whole `open…>x</close>` span at once. */
  lemma EnclosedSpanReplaced(rule: Rule, a: string, attrs: string, x: string, c: string)
    requires rule.pattern.Enclosing? && Anchored(rule.pattern, '<')
    requires |rule.pattern.closeTag| > 0 && rule.pattern.closeTag[0] == '<'
    requires '<' !in a && '>' !in attrs && '<' !in x
    ensures ReplaceAll(a + rule.pattern.open + attrs + ">" + x + rule.pattern.closeTag + c, rule) ==
            a + Substitute(rule.replacement, Match(0, x)) + ReplaceAll(c, rule)
  {
    var open, closeTag := rule.pattern.open, rule.pattern.closeTag;
    var t := open + attrs + ">" + x + closeTag + c;
    assert a + open + attrs + ">" + x + closeTag + c == a + t;
    ReplaceAllPrefix(a, t, rule, '<');
    EnclosingAt(open, closeTag, attrs, x, c);
    ReplaceAllHead(t, rule);
    assert t[|open| + |attrs| + 1 + |x| + |closeTag|..] == c;
  }

  /** `<ruby…>x</ruby>` becomes x: the annotated text stays, and the tags go. */
  lemma RubyKeepsText(a: string, attrs: string, x: string, c: string)
    requires '<' !in a && '>' !in attrs && '<' !in x
    ensures ReplaceAll(a + "<ruby" + attrs + ">" + x + "</ruby>" + c, RubyRule) == a + x + ReplaceAll(c, RubyRule)
  {
    EnclosedSpanReplaced(RubyRule, a, attrs, x, c);
  }

  /** `<rt…>x</rt>`, the ruby annotation, disappears together with its text. */
  lemma RtDropped(a: string, attrs: string, x: string, c: string)
    requires '<' !in a && '>' !in attrs && '<' !in x
    ensures ReplaceAll(a + "<rt" + attrs + ">" + x + "</rt>" + c, RtRule) == a + ReplaceAll(c, RtRule)
  {
    EnclosedSpanReplaced(RtRule, a, attrs, x, c);
    assert a + "" == a;
  }

  /** `<b…>` is removed with its attributes. */
  lemma BoldOpenRemoved(a: string, attrs: string, c: string)
    requires '<' !in a && '>' !in attrs
    ensures ReplaceAll(a + "<b" + attrs + ">" + c, BoldRule) == a + ReplaceAll(c, BoldRule)
  {
    var t := "<b" + attrs + ">" + c;
    assert a + "<b" + attrs + ">" + c == a + t;
    ReplaceAllPrefix(a, t, BoldRule, '<');
    DelimitedAt("<b", true, '>', 0, attrs, c);
    ReplaceAllHead(t, BoldRule);
    assert t[|attrs| + 3..] == c;
  }

  /** `</b>` is removed. */
  lemma BoldCloseRemoved(a: string, c: string)
    requires '<' !in a
    ensures ReplaceAll(a + "</b>" + c, BoldRule) == a + ReplaceAll(c, BoldRule)
  {
    var t := "</b>" + c;
    assert a + "</b>" + c == a + t;
    ReplaceAllPrefix(a, t, BoldRule, '<');
    MissesAt(Delimited("<b", true, '>', 0), t, 0, 1);
    LiteralAtStart("</b>", true, c);
    ReplaceAllHead(t, BoldRule);
    assert t[4..] == c;
  }

  /** `<b[^>]*>` does not stop at the tag name: it also removes `<br>` and `<body>`, with
      their attributes. */
  lemma BoldRuleTakesBrAndBody(a: string, attrs: string, c: string)
    requires '<' !in a && '>' !in attrs
    ensures ReplaceAll(a + "<br" + attrs + ">" + c, BoldRule) == a + ReplaceAll(c, BoldRule)
    ensures ReplaceAll(a + "<body" + attrs + ">" + c, BoldRule) == a + ReplaceAll(c, BoldRule)
  {
    BoldOpenRemoved(a, "r" + attrs, c);
    assert a + "<b" + ("r" + attrs) + ">" + c == a + "<br" + attrs + ">" + c;
    BoldOpenRemoved(a, "ody" + attrs, c);
    assert a + "<b" + ("ody" + attrs) + ">" + c == a + "<body" + attrs + ">" + c;
  }

  /** A tag that has, at some position, a character no match of the rule has there is
      passed over unchanged. */
  lemma TagKept(rule: Rule, a: string, tag: string, c: string, k: nat)
    requires Anchored(rule.pattern, '<') && '<' !in a && tag != [] && '<' !in tag[1..]
    requires k < |tag| && StartsWithout(rule.pattern, k, tag[k])
    ensures ReplaceAll(a + tag + c, rule) == a + tag + ReplaceAll(c, rule)
  {
    var t := tag + c;
    assert a + tag + c == a + t;
    ReplaceAllPrefix(a, t, rule, '<');
    assert t[k] == tag[k];
    HeadCopied(t, rule, k);
    assert t[1..] == tag[1..] + c;
    ReplaceAllPrefix(tag[1..], c, rule, '<');
    assert [t[0]] + tag[1..] == tag;
  }

  /** An override block `{\…}` with a non-empty body is removed. */
  lemma OverrideBlockRemoved(a: string, b: string, c: string)
    requires '{' !in a && '}' !in b && b != []
    ensures ReplaceAll(a + "{\\" + b + "}" + c, OverrideRule) == a + ReplaceAll(c, OverrideRule)
  {
    var t := "{\\" + b + "}" + c;
    assert a + "{\\" + b + "}" + c == a + t;
    ReplaceAllPrefix(a, t, OverrideRule, '{');
    DelimitedAt("{\\", false, '}', 1, b, c);
    ReplaceAllHead(t, OverrideRule);
    assert t[|b| + 3..] == c;
  }

  /** The escapes `\N` and `\n` each become one line feed. */
  lemma EscapeBecomesLineFeed(rule: Rule, a: string, c: string)
    requires rule == HardBreakRule || rule == SoftBreakRule
    requires '\\' !in a
    ensures ReplaceAll(a + rule.pattern.text + c, rule) == a + "\n" + ReplaceAll(c, rule)
  {
    var t := rule.pattern.text + c;
    assert a + rule.pattern.text + c == a + t;
    ReplaceAllPrefix(a, t, rule, '\\');
    LiteralAtStart(rule.pattern.text, false, c);
    ReplaceAllHead(t, rule);
    assert t[2..] == c;
  }

  /** Text trimmed at both ends, as `trim` leaves it. */
  predicate Trimmed(t: string) {
    t == [] || (!IsSpace(t[0]) && !IsSpace(t[|t| - 1]))
  }

  /** `cleanSsaAssTags` drops the override blocks of a line and keeps its text: for
      instance `Hello {\\i1}world{\\i0}` becomes `Hello world`. */
  lemma CleanSsaAssTagsDropsBlocks(x: string, b1: string, y: string, b2: string)
    requires '{' !in x && '{' !in y && '\\' !in x + y && Trimmed(x + y)
    requires '}' !in b1 && '}' !in b2 && b1 != [] && b2 != []
    ensures CleanSsaAssTags(x + "{\\" + b1 + "}" + y + "{\\" + b2 + "}") == x + y
  {
    var text := x + "{\\" + b1 + "}" + y + "{\\" + b2 + "}";
    var rest := y + "{\\" + b2 + "}";
    assert text == x + "{\\" + b1 + "}" + rest;
    OverrideBlockRemoved(x, b1, rest);
    assert rest == y + "{\\" + b2 + "}" + "";
    OverrideBlockRemoved(y, b2, "");
    assert ReplaceAll(text, OverrideRule) == x + y;
    ReplaceAbsent(x + y, 0, HardBreakRule, '\\');
    ReplaceAbsent(x + y, 0, SoftBreakRule, '\\');
    TrimTrimmed(x + y);
  }

  /** Each of the first eight tag rules leaves a bold span alone. */
  lemma KeepsBoldSpan(rule: Rule, k: nat, x: string, y: string)
    requires Anchored(rule.pattern, '<') && StartsWithout(rule.pattern, 1, 'b')
    requires k < 4 && StartsWithout(rule.pattern, k, "</b>"[k])
    requires '<' !in x && '<' !in y
    ensures ReplaceAll(x + "<b>" + y + "</b>", rule) == x + "<b>" + y + "</b>"
  {
    TagKept(rule, x, "<b>", y + "</b>", 1);
    assert x + "<b>" + (y + "</b>") == x + "<b>" + y + "</b>";
    TagKept(rule, y, "</b>", "", k);
    assert y + "</b>" + "" == y + "</b>";
  }

  /** Once the tag-specific rules have left trimmed text without `<` and `&`, the rest of
      `cleanHtmlTags` leaves it as it is. */
  lemma CleanHtmlTagsAfterTagRules(s: string, t: string)
    requires ApplyRules(SpecificTagRules, s) == t && '<' !in t && '&' !in t && Trimmed(t)
    ensures CleanHtmlTags(s) == t
  {
    ReplaceAbsent(t, 0, Rule(GenericTag, Text("")), '<');
    assert StripTags(s) == t;
    DecodeEntitiesOfPlainText(t);
    TrimTrimmed(t);
  }

  /** The tag-specific rules turn a bold span into its text. */
  lemma TagRulesOfBoldSpan(x: string, y: string)
    requires '<' !in x && '<' !in y
    ensures ApplyRules(SpecificTagRules, x + "<b>" + y + "</b>") == x + y
  {
    var s := x + "<b>" + y + "</b>";
    KeepsBoldSpan(ClassOpenRule, 1, x, y);
    KeepsBoldSpan(ClassCloseRule, 2, x, y);
    KeepsBoldSpan(VoiceOpenRule, 1, x, y);
    KeepsBoldSpan(VoiceCloseRule, 2, x, y);
    KeepsBoldSpan(LangOpenRule, 1, x, y);
    KeepsBoldSpan(LangCloseRule, 2, x, y);
    KeepsBoldSpan(RubyRule, 1, x, y);
    KeepsBoldSpan(RtRule, 1, x, y);
    ApplyRulesSplit(SpecificTagRules, 8, s);
    assert SpecificTagRules[..8] ==
      [ClassOpenRule, ClassCloseRule, VoiceOpenRule, VoiceCloseRule, LangOpenRule, LangCloseRule, RubyRule, RtRule];
    ApplyRulesUnchanged(SpecificTagRules[..8], s);
    BoldSpanRemoved(x, y);
    assert SpecificTagRules[8..][0] == BoldRule && SpecificTagRules[8..][1..] == SpecificTagRules[9..];
    SpecificTagRulesAnchored();
    assert '<' !in x + y;
    ApplyRulesAbsent(SpecificTagRules[9..], x + y, '<');
  }

  lemma BoldSpanRemoved(x: string, y: string)
    requires '<' !in x && '<' !in y
    ensures ReplaceAll(x + "<b>" + y + "</b>", BoldRule) == x + y
  {
    BoldOpenRemoved(x, "", y + "</b>");
    assert x + "<b" + "" + ">" + (y + "</b>") == x + "<b>" + y + "</b>";
    BoldCloseRemoved(y, "");
    assert y + "</b>" + "" == y + "</b>";
  }

  /** `cleanHtmlTags` removes a bold span's tags and keeps its text: for instance
      `Hello <b>world</b>` becomes `Hello world`. */
  lemma CleanHtmlTagsBoldSpan(x: string, y: string)
    requires '<' !in x + y && '&' !in x + y && Trimmed(x + y)
    ensures CleanHtmlTags(x + "<b>" + y + "</b>") == x + y
  {
    assert '<' !in x && '<' !in y by {
      assert forall c :: c in x ==> c in x + y;
      assert forall c :: c in y ==> c in x + y;
    }
    TagRulesOfBoldSpan(x, y);
    CleanHtmlTagsAfterTagRules(x + "<b>" + y + "</b>", x + y);
  }

  /** A line that is one bold span comes out as its text. */
  lemma CleanHtmlTagsBoldLine(y: string)
    requires '<' !in y && '&' !in y && Trimmed(y)
    ensures CleanHtmlTags("<b>" + y + "</b>") == y
  {
    CleanHtmlTagsBoldSpan("", y);
    assert "" + "<b>" + y + "</b>" == "<b>" + y + "</b>" && "" + y == y;
  }

  /** `<v…>` goes with the speaker's name, and the rest is left for the next rules. */
  lemma VoiceOpenRemoved(name: string, y: string)
    requires '>' !in name && '<' !in y
    ensures ReplaceAll("<v" + name + ">" + y + "</v>", VoiceOpenRule) == y + "</v>"
  {
    var u := y + "</v>";
    var s := "<v" + name + ">" + u;
    assert s == "<v" + name + ">" + y + "</v>";
    DelimitedAt("<v", true, '>', 0, name, u);
    assert "<v" + name + ['>'] + u == s;
    ReplaceAllHead(s, VoiceOpenRule);
    assert s[|name| + 3..] == u;
    assert "</v>"[1..] == "/v>";
    TagKept(VoiceOpenRule, y, "</v>", "", 1);
    assert y + "</v>" + "" == u;
  }

  lemma VoiceCloseRemoved(y: string)
    requires '<' !in y
    ensures ReplaceAll(y + "</v>", VoiceCloseRule) == y
  {
    ReplaceAllPrefix(y, "</v>", VoiceCloseRule, '<');
    LiteralAtStart("</v>", true, "");
    assert "</v>" + "" == "</v>";
    ReplaceAllHead("</v>", VoiceCloseRule);
    assert "</v>"[4..] == "";
    assert y + "" == y;
  }

  /** The two class rules leave a voice span alone. */
  lemma ClassRulesKeepVoiceSpan(name: string, y: string)
    requires '>' !in name && '<' !in name && '<' !in y
    ensures ReplaceAll("<v" + name + ">" + y + "</v>", ClassOpenRule) == "<v" + name + ">" + y + "</v>"
    ensures ReplaceAll("<v" + name + ">" + y + "</v>", ClassCloseRule) == "<v" + name + ">" + y + "</v>"
  {
    var open := "<v" + name + ">";
    var s := open + y + "</v>";
    assert open[1..] == "v" + name + ">";
    assert s == [] + open + (y + "</v>");
    TagKept(ClassOpenRule, [], open, y + "</v>", 1);
    TagKept(ClassCloseRule, [], open, y + "</v>", 1);
    TagKept(ClassOpenRule, y, "</v>", "", 1);
    TagKept(ClassCloseRule, y, "</v>", "", 2);
    assert y + "</v>" + "" == y + "</v>";
  }

  /** The tag-specific rules turn a voice span into its text. */
  lemma TagRulesOfVoiceSpan(name: string, y: string)
    requires '>' !in name && '<' !in name && '<' !in y
    ensures ApplyRules(SpecificTagRules, "<v" + name + ">" + y + "</v>") == y
  {
    var s := "<v" + name + ">" + y + "</v>";
    var u := y + "</v>";
    ClassRulesKeepVoiceSpan(name, y);
    ApplyRulesSplit(SpecificTagRules, 2, s);
    assert SpecificTagRules[..2] == [ClassOpenRule, ClassCloseRule];
    ApplyRulesUnchanged(SpecificTagRules[..2], s);
    VoiceOpenRemoved(name, y);
    assert SpecificTagRules[2..][0] == VoiceOpenRule && SpecificTagRules[2..][1..] == SpecificTagRules[3..];
    assert ApplyRules(SpecificTagRules, s) == ApplyRules(SpecificTagRules[3..], u);
    VoiceCloseRemoved(y);
    assert SpecificTagRules[3..][0] == VoiceCloseRule && SpecificTagRules[3..][1..] == SpecificTagRules[4..];
    assert ApplyRules(SpecificTagRules, s) == ApplyRules(SpecificTagRules[4..], y);
    SpecificTagRulesAnchored();
    ApplyRulesAbsent(SpecificTagRules[4..], y, '<');
  }

  /** `cleanHtmlTags` removes a WebVTT voice span's tags, speaker name included, and keeps
      its text: for instance `<v Alice>Hi there</v>` becomes `Hi there`. */
  lemma CleanHtmlTagsVoiceSpan(name: string, y: string)
    requires '>' !in name && '<' !in name && '<' !in y && '&' !in y && Trimmed(y)
    ensures CleanHtmlTags("<v" + name + ">" + y + "</v>") == y
  {
    TagRulesOfVoiceSpan(name, y);
    CleanHtmlTagsAfterTagRules("<v" + name + ">" + y + "</v>", y);
  }

  // ---------------------------------------------------------------------------------------

  /** `<[^>]+>` matches at k exactly when a `<` there is followed by a non-`>` character and,
      somewhere later, by a `>`. */
  lemma GenericTagAt(t: string, k: nat)
    requires k < |t|
    ensures MatchAt(GenericTag, t, k).Some? <==>
      (t[k] == '<' && k + 1 < |t| && t[k + 1] != '>' && exists j :: k + 1 < j < |t| && t[j] == '>')
  {
    if t[k] == '<' && k + 1 < |t| && t[k + 1] != '>' && exists j :: k + 1 < j < |t| && t[j] == '>' {
      var j :| k + 1 < j < |t| && t[j] == '>';
      var f := FindChar(t, k + 1, '>');
      assert f <= j;
      assert t[k..k + 1] == "<";
    }
  }

  /** Removing `<[^>]+>` leaves no text that `<[^>]+>` matches, and adds no character. */
  lemma {:induction false} GenericRemovalLeavesNoTag(s: string, i: nat)
    requires i <= |s|
    ensures forall k :: 0 <= k < |ReplaceFrom(s, i, Rule(GenericTag, Text("")))| ==>
              MatchAt(GenericTag, ReplaceFrom(s, i, Rule(GenericTag, Text(""))), k).None?
    ensures forall c :: c in ReplaceFrom(s, i, Rule(GenericTag, Text(""))) ==> c in s[i..]
    decreases |s| - i
  {
    var rule := Rule(GenericTag, Text(""));
    var o := ReplaceFrom(s, i, rule);
    if i < |s| {
      ReplaceFromAt(s, i, rule);
      match MatchAt(GenericTag, s, i)
      case Some(m) =>
        GenericRemovalLeavesNoTag(s, m.end);
        assert o == ReplaceFrom(s, m.end, rule);
        forall c | c in o ensures c in s[i..] {
          assert s[m.end..] == s[i..][m.end - i..];
        }
      case None =>
        var rest := ReplaceFrom(s, i + 1, rule);
        GenericRemovalLeavesNoTag(s, i + 1);
        assert o == [s[i]] + rest;
        forall k | 0 <= k < |o| ensures MatchAt(GenericTag, o, k).None? {
          GenericTagAt(o, k);
          if k > 0 {
            GenericTagAt(rest, k - 1);
            if exists j :: k + 1 < j < |o| && o[j] == '>' {
              var j :| k + 1 < j < |o| && o[j] == '>';
              assert rest[j - 1] == '>';
            }
          } else if s[i] == '<' {
            GenericTagAt(s, i);
            if i + 1 < |s| && s[i + 1] == '>' {
              assert MatchAt(GenericTag, s, i + 1).None?;
              ReplaceFromAt(s, i + 1, rule);
              assert rest == ['>'] + ReplaceFrom(s, i + 2, rule);
            } else {
              assert '>' !in s[i + 1..] by {
                var tail := s[i + 1..];
                forall q | 0 <= q < |tail| ensures tail[q] != '>' {
                  assert tail[q] == s[i + 1 + q];
                }
              }
              assert '>' !in rest;
              forall j | 1 <= j < |o| ensures o[j] != '>' {
                assert o[j] == rest[j - 1];
                assert rest[j - 1] in rest;
              }
            }
          }
        }
        forall c | c in o ensures c in s[i..] {
          assert s[i..] == [s[i]] + s[i + 1..];
        }
    }
  }

  /** After `cleanHtmlTags` has stripped tags (and before it decodes entities), no text of
      the form `<…>` with a non-empty body is left. */
  lemma StripTagsLeavesNoTag(text: string)
    ensures forall k :: 0 <= k < |StripTags(text)| ==> MatchAt(GenericTag, StripTags(text), k).None?
  {
    GenericRemovalLeavesNoTag(ApplyRules(SpecificTagRules, text), 0);
  }

  /** Every tag-specific rule of `cleanHtmlTags` needs a `<` to match. */
  lemma SpecificTagRulesAnchored()
    ensures forall r :: r in SpecificTagRules ==> Anchored(r.pattern, '<')
  {
    forall r | r in SpecificTagRules ensures Anchored(r.pattern, '<') {
      var k :| 0 <= k < |SpecificTagRules| && SpecificTagRules[k] == r;
      if k < 6 { } else if k < 8 { } else { }
    }
  }

  /** Text with no `<`, no `&` and no surrounding white space is already clean: cleaning
      it again changes nothing. */
  lemma CleanHtmlTagsOfPlainText(text: string)
    requires '<' !in text && '&' !in text
    requires text == [] || (!IsSpace(text[0]) && !IsSpace(text[|text| - 1]))
    ensures CleanHtmlTags(text) == text
  {
    StripTagsOfPlainText(text);
    DecodeEntitiesOfPlainText(text);
    TrimTrimmed(text);
  }

  /** No rule of the tag-removal half matches text without `<`. */
  lemma StripTagsOfPlainText(text: string)
    requires '<' !in text
    ensures StripTags(text) == text
  {
    SpecificTagRulesAnchored();
    ApplyRulesAbsent(SpecificTagRules, text, '<');
    ReplaceAbsent(text, 0, Rule(GenericTag, Text("")), '<');
  }

  /** No entity rule matches text without `&`. */
  lemma DecodeEntitiesOfPlainText(text: string)
    requires '&' !in text
    ensures DecodeEntities(text) == text
  {
    ReplaceAbsent(text, 0, NbspRule, '&');
    ReplaceAbsent(text, 0, LtRule, '&');
    ReplaceAbsent(text, 0, GtRule, '&');
    ReplaceAbsent(text, 0, AmpRule, '&');
  }

  /** Cleaning never makes a line longer. */
  lemma CleanHtmlTagsShrinks(text: string)
    ensures |CleanHtmlTags(text)| <= |text|
  {
    ApplyRulesShrinks(SpecificTagRules, text);
    var t0 := ApplyRules(SpecificTagRules, text);
    ReplaceShrinks(t0, 0, Rule(GenericTag, Text("")));
    var t1 := StripTags(text);
    ReplaceShrinks(t1, 0, NbspRule);
    var t2 := ReplaceAll(t1, NbspRule);
    ReplaceShrinks(t2, 0, LtRule);
    var t3 := ReplaceAll(t2, LtRule);
    ReplaceShrinks(t3, 0, GtRule);
    var t4 := ReplaceAll(t3, GtRule);
    ReplaceShrinks(t4, 0, AmpRule);
  }

  /** A rule for an entity other than `&amp;` does not match at the start of `&amp;…`. */
  lemma EntityMissesAmp(s: string, rule: Rule)
    requires |s| >= 2 && s[0] == '&' && s[1] == 'a'
    requires rule in {NbspRule, LtRule, GtRule}
    ensures MatchAt(rule.pattern, s, 0).None?
  {
    if LiteralAt(s, 0, rule.pattern.text, true) {
      LiteralAtChar(s, 0, rule.pattern.text, 1);
    }
  }

  /** The `&nbsp;`, `&lt;` and `&gt;` passes leave text that starts with `&a` and has no
      other `&` unchanged. */
  lemma EntityPassSkipsAmp(s: string, rule: Rule)
    requires |s| >= 2 && s[0] == '&' && s[1] == 'a' && '&' !in s[1..]
    requires rule in {NbspRule, LtRule, GtRule}
    ensures ReplaceAll(s, rule) == s
  {
    EntityMissesAmp(s, rule);
    forall k | 1 <= k < |s| ensures s[k] != '&' {
      assert s[1..][k - 1] == s[k];
    }
    ReplaceAbsent(s, 1, rule, '&');
    ReplaceFromAt(s, 0, rule);
    assert s == [s[0]] + s[1..];
  }

  /** The `&amp;` pass turns a leading `&amp;` into `&` when no other `&` follows. */
  lemma AmpPassOnce(rest: string)
    requires '&' !in rest
    ensures ReplaceAll("&amp;" + rest, AmpRule) == "&" + rest
  {
    var s := "&amp;" + rest;
    assert s[0..5] == "&amp;";
    assert MatchAt(AmpRule.pattern, s, 0) == Wrappers.Some(Match(5, []));
    assert s[5..] == rest;
    ReplaceAbsent(s, 5, AmpRule, '&');
    ReplaceFromAt(s, 0, AmpRule);
  }

  /** Entities are decoded in one pass per entity, `&amp;` last, so the `&` that `&amp;`
      yields never starts another entity: `&amp;lt;` decodes to `&lt;`, not to `<`. */
  lemma DecodeEscapedAmpersand(rest: string)
    requires '&' !in rest
    ensures DecodeEntities("&amp;" + rest) == "&" + rest
  {
    var s := "&amp;" + rest;
    assert s[1..] == "amp;" + rest;
    EntityPassSkipsAmp(s, NbspRule);
    EntityPassSkipsAmp(s, LtRule);
    EntityPassSkipsAmp(s, GtRule);
    AmpPassOnce(rest);
  }

  lemma EscapedLessThan()
    ensures DecodeEntities("&amp;lt;") == "&lt;"
  {
    DecodeEscapedAmpersand("lt;");
    assert "&amp;" + "lt;" == "&amp;lt;";
    assert "&" + "lt;" == "&lt;";
  }

  /** `HasPair(t, a, b)`: the two-character sequence `ab` occurs in t. */
  predicate HasPair(t: string, a: char, b: char) {
    exists k :: 0 <= k && k + 1 < |t| && t[k] == a && t[k + 1] == b
  }

  /** Replacing the two-character literal `ab` by a non-empty text that contains neither
      c nor d leaves no `cd`, if `cd` is `ab` itself or did not occur in the input. */
  lemma {:induction false} PairFreeReplace(s: string, i: nat, a: char, b: char, r: string, c: char, d: char)
    requires i <= |s| && |r| > 0 && c !in r && d !in r
    requires (c == a && d == b) || !HasPair(s[i..], c, d)
    ensures !HasPair(ReplaceFrom(s, i, Rule(Literal([a, b], false), Text(r))), c, d)
    ensures (|ReplaceFrom(s, i, Rule(Literal([a, b], false), Text(r)))| > 0 &&
             ReplaceFrom(s, i, Rule(Literal([a, b], false), Text(r)))[0] == d) ==> s[i] == d
    decreases |s| - i
  {
    var rule := Rule(Literal([a, b], false), Text(r));
    var o := ReplaceFrom(s, i, rule);
    if i < |s| {
      ReplaceFromAt(s, i, rule);
      match MatchAt(rule.pattern, s, i)
      case Some(m) =>
        if !(c == a && d == b) {
          assert s[i + 2..] == s[i..][2..];
          NoPairSlice(s[i..], 2, |s| - i, c, d);
        }
        PairFreeReplace(s, m.end, a, b, r, c, d);
        var rest := ReplaceFrom(s, m.end, rule);
        assert o == r + rest;
        NoPairConcat(r, rest, c, d);
      case None =>
        if !(c == a && d == b) {
          assert s[i + 1..] == s[i..][1..];
          NoPairSlice(s[i..], 1, |s| - i, c, d);
        }
        PairFreeReplace(s, i + 1, a, b, r, c, d);
        var rest := ReplaceFrom(s, i + 1, rule);
        assert o == [s[i]] + rest;
        if s[i] == c && |rest| > 0 && i + 1 < |s| {
          if c == a && d == b {
            assert s[i..i + 2] != [a, b];
          } else {
            assert !(s[i..][0] == c && s[i..][1] == d);
          }
          assert s[i + 1] != d;
        }
        NoPairConcat([s[i]], rest, c, d);
    }
  }

  lemma NoPairSlice(t: string, lo: nat, hi: nat, c: char, d: char)
    requires lo <= hi <= |t| && !HasPair(t, c, d)
    ensures !HasPair(t[lo..hi], c, d)
  {
    var u := t[lo..hi];
    forall k | 0 <= k && k + 1 < |u| ensures !(u[k] == c && u[k + 1] == d) {
      assert u[k] == t[lo + k] && u[k + 1] == t[lo + k + 1];
    }
  }

  lemma NoPairConcat(x: string, y: string, c: char, d: char)
    requires !HasPair(x, c, d) && !HasPair(y, c, d)
    requires x == [] || y == [] || !(x[|x| - 1] == c && y[0] == d)
    ensures !HasPair(x + y, c, d)
  {
    var u := x + y;
    forall k | 0 <= k && k + 1 < |u| ensures !(u[k] == c && u[k + 1] == d) {
      if k + 1 < |x| {
        assert u[k] == x[k] && u[k + 1] == x[k + 1];
      } else if k >= |x| {
        assert u[k] == y[k - |x|] && u[k + 1] == y[k - |x| + 1];
      }
    }
  }

  /** `cleanSsaAssTags` turns every `\N` and `\n` escape into a line feed: none is left. */
  lemma CleanSsaAssTagsLeavesNoEscape(text: string)
    ensures !HasPair(CleanSsaAssTags(text), '\\', 'N')
    ensures !HasPair(CleanSsaAssTags(text), '\\', 'n')
  {
    var t1 := ReplaceAll(text, OverrideRule);
    var t2 := ReplaceAll(t1, HardBreakRule);
    var t3 := ReplaceAll(t2, SoftBreakRule);
    PairFreeReplace(t1, 0, '\\', 'N', "\n", '\\', 'N');
    assert t2[0..] == t2;
    PairFreeReplace(t2, 0, '\\', 'n', "\n", '\\', 'N');
    PairFreeReplace(t2, 0, '\\', 'n', "\n", '\\', 'n');
    var start := TrimIsSlice(t3);
    NoPairSlice(t3, start, start + |Trim(t3)|, '\\', 'N');
    NoPairSlice(t3, start, start + |Trim(t3)|, '\\', 'n');
  }
}
