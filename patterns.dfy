/**
 * The line-level regular expressions of the extractor, each written out as a predicate.
 * They are character-identical in both front-ends.
 */
module Patterns {
  import opened JsString

  /** `\d{n}` at index i. */
  predicate DigitsAt(s: string, i: nat, n: nat) {
    i + n <= |s| && forall k :: i <= k < i + n ==> IsDigit(s[k])
  }

  /** `(?:\d{2}:)?\d{2}:\d{2}[,.]\d{3}` matches `s[i..i + len]`; `len` is 9 without the
      optional hour group and 12 with it. */
  predicate SrtClockAt(s: string, i: nat, len: nat)
    decreases len
  {
    i + len <= |s| &&
    if len == 9 then
      DigitsAt(s, i, 2) && s[i + 2] == ':' && DigitsAt(s, i + 3, 2)
      && (s[i + 5] == ',' || s[i + 5] == '.') && DigitsAt(s, i + 6, 3)
    else
      len == 12 && DigitsAt(s, i, 2) && s[i + 2] == ':' && SrtClockAt(s, i + 3, 9)
  }

  /** The cue timing line of SRT and WebVTT, anchored at the start only:
      `/^(?:\d{2}:)?\d{2}:\d{2}[,.]\d{3}\s*-->\s*(?:\d{2}:)?\d{2}:\d{2}[,.]\d{3}/`.
      Anything may follow the second time (cue settings, for instance). */
  predicate SrtVttTimestamp(line: string) {
    TimestampWithStart(line, 9) || TimestampWithStart(line, 12)
  }

  /** The timing line whose first time is `line[..first]`. */
  predicate TimestampWithStart(line: string, first: nat) {
    SrtClockAt(line, 0, first) &&
    var arrow := SkipSpace(line, first);
    arrow + 3 <= |line| && line[arrow..arrow + 3] == "-->" &&
    var second := SkipSpace(line, arrow + 3);
    SrtClockAt(line, second, 9) || SrtClockAt(line, second, 12)
  }

  /** `/^\d+$/`: one or more digits and nothing else. */
  predicate SequenceNumber(line: string) {
    |line| > 0 && forall k :: 0 <= k < |line| ==> IsDigit(line[k])
  }

  /** The keywords of the WebVTT metadata pattern, in upper case. */
  const VttKeywords: seq<string> := ["WEBVTT", "KIND", "LANGUAGE", "::CUE", "DEFAULT", "HEADER",
                                     "NOTE", "STYLE", "REGION", "TITLE", "DESCRIPTION", "CHAPTER"]

  /** `/^(WEBVTT|KIND|LANGUAGE|::cue|DEFAULT|HEADER|NOTE|STYLE|REGION|TITLE|DESCRIPTION|CHAPTER)/i`:
      the line begins with one of the keywords, in any letter case. */
  predicate VttMetadata(line: string) {
    exists k :: 0 <= k < |VttKeywords| && StartsWith(ToUpper(line), VttKeywords[k])
  }

  /** `\d{1,2}:\d{2}:\d{2}\.\d{3}` matches `s[i..i + len]`; `len` is 11 with a one-digit
      hour and 12 with a two-digit hour. */
  predicate SbvClockAt(s: string, i: nat, len: nat) {
    i + len <= |s| && (len == 11 || len == 12) &&
    var h := len - 10;
    DigitsAt(s, i, h) && s[i + h] == ':' && DigitsAt(s, i + h + 1, 2) && s[i + h + 3] == ':'
    && DigitsAt(s, i + h + 4, 2) && s[i + h + 6] == '.' && DigitsAt(s, i + h + 7, 3)
  }

  /** `\d{1,2}:\d{2}:\d{2}\.\d{3},\d{1,2}:\d{2}:\d{2}\.\d{3}` matches `s[i..i + len]`. */
  predicate SbvPairAt(s: string, i: nat, len: nat) {
    exists a :: 11 <= a <= 12 && len > a + 1 && SbvClockAt(s, i, a) && i + a < |s| && s[i + a] == ','
      && SbvClockAt(s, i + a + 1, len - a - 1)
  }

  /** The SBV timing pair anchored at both ends: `/^…,…$/` tested on a trimmed line. */
  predicate SbvPairExact(line: string) {
    SbvPairAt(line, 0, |line|)
  }

  /** The SBV timing pair anchored at the start only, at index i. */
  predicate SbvPairStartsAt(s: string, i: nat) {
    exists len :: 23 <= len <= 25 && SbvPairAt(s, i, len)
  }

  /** `/^…,…/m.test(content)`: some line of the content starts with an SBV timing pair. */
  predicate SbvPairAtLineStart(content: string) {
    exists i :: 0 <= i < |content| && (i == 0 || IsLineTerminator(content[i - 1]))
                && SbvPairStartsAt(content, i)
  }

  /** An exact pair line is in particular a line that starts with a pair. */
  lemma ExactPairStarts(line: string)
    requires SbvPairExact(line)
    ensures SbvPairStartsAt(line, 0)
  {
    var a :| 11 <= a <= 12 && |line| > a + 1 && SbvClockAt(line, 0, a) && a < |line| && line[a] == ','
             && SbvClockAt(line, a + 1, |line| - a - 1);
    assert 23 <= |line| <= 25;
  }

  /** A pair that starts at index i of `s` starts at index i of any extension of `s`. */
  lemma PairStartsInExtension(s: string, t: string, i: nat)
    requires SbvPairStartsAt(s, i)
    ensures SbvPairStartsAt(s + t, i)
  {
    var len :| 23 <= len <= 25 && SbvPairAt(s, i, len);
    var a :| 11 <= a <= 12 && len > a + 1 && SbvClockAt(s, i, a) && i + a < |s| && s[i + a] == ','
             && SbvClockAt(s, i + a + 1, len - a - 1);
    assert (s + t)[i..i + len] == s[i..i + len];
    SbvClockExtension(s, t, i, a);
    SbvClockExtension(s, t, i + a + 1, len - a - 1);
    assert SbvPairAt(s + t, i, len);
  }

  lemma SbvClockExtension(s: string, t: string, i: nat, len: nat)
    requires SbvClockAt(s, i, len)
    ensures SbvClockAt(s + t, i, len)
  {
    var u := s + t;
    assert forall k :: i <= k < i + len ==> u[k] == s[k];
  }

  /** An SBV clock holds digits, `:` and `.` only, and starts and ends with a digit. */
  lemma SbvClockChars(s: string, i: nat, len: nat)
    requires SbvClockAt(s, i, len)
    ensures IsDigit(s[i]) && IsDigit(s[i + len - 1])
    ensures forall k :: i <= k < i + len ==> IsDigit(s[k]) || s[k] == ':' || s[k] == '.'
  {
    var h := len - 10;
    forall k | i <= k < i + len ensures IsDigit(s[k]) || s[k] == ':' || s[k] == '.' {
      if k < i + h {
        assert IsDigit(s[k]);
      } else if i + h + 1 <= k < i + h + 3 {
        assert IsDigit(s[k]);
      } else if i + h + 4 <= k < i + h + 6 {
        assert IsDigit(s[k]);
      } else if i + h + 7 <= k {
        assert IsDigit(s[k]);
      }
    }
  }

  /** An exact SBV timing pair is no SRT/WebVTT timing line (it has no `-->`), no
      sequence number (it has a `,`), holds no `<` and no `&`, and starts and ends with
      a digit. */
  lemma SbvPairShape(line: string)
    requires SbvPairExact(line)
    ensures !SrtVttTimestamp(line) && !SequenceNumber(line)
    ensures '<' !in line && '&' !in line
    ensures |line| > 0 && IsDigit(line[0]) && IsDigit(line[|line| - 1])
  {
    var a :| 11 <= a <= 12 && |line| > a + 1 && SbvClockAt(line, 0, a) && a < |line| && line[a] == ','
             && SbvClockAt(line, a + 1, |line| - a - 1);
    SbvClockChars(line, 0, a);
    SbvClockChars(line, a + 1, |line| - a - 1);
    assert forall k :: 0 <= k < |line| ==> line[k] != '-' && line[k] != '<' && line[k] != '&' by {
      forall k | 0 <= k < |line| ensures line[k] != '-' && line[k] != '<' && line[k] != '&' {
        if k != a {
          assert IsDigit(line[k]) || line[k] == ':' || line[k] == '.';
        }
      }
    }
    assert !IsDigit(line[a]);
  }
}
