/**
 * The format labels, the file-name extension used by format detection and the
 * accepted-extension filter applied to file names before reading.
 */
module Formats {
  import opened JsString

  /** The labels `detectFormat` returns. */
  datatype Format = Srt | Vtt | AssSsa | Sbv | Smi | Unknown

  /** `acceptedFileTypes`. */
  const AcceptedFileTypes: seq<string> := [".srt", ".vtt", ".ass", ".ssa", ".sbv", ".smi"]

  /** `fileName.toLowerCase().substring(fileName.lastIndexOf('.'))`: from the last `.`
      to the end, lower-cased; the whole lower-cased name when there is no `.` (a
      negative start counts as 0). */
  function Extension(fileName: string): string {
    var dot := LastIndexOf(fileName, '.');
    ToLower(fileName)[if dot < 0 then 0 else dot..]
  }

  // ---------------------------------------------------------------------------------------
  // The content tests of `detectFormat`, the same text in both front-ends

  /** `content.toUpperCase().includes("<SAMI>")`. */
  predicate HasSamiTag(content: string) {
    Contains(ToUpper(content), "<SAMI>")
  }

  /** `content.includes("[Script Info]") && content.includes("[Events]")`. */
  predicate HasAssSections(content: string) {
    Contains(content, "[Script Info]") && Contains(content, "[Events]")
  }

  /** `content.toUpperCase().startsWith("WEBVTT")`. */
  predicate StartsWebVtt(content: string) {
    StartsWith(ToUpper(content), "WEBVTT")
  }

  /** `content.includes("-->")`. */
  predicate HasArrow(content: string) {
    Contains(content, "-->")
  }

  /** `acceptedFileTypes.some(type => file.name.toLowerCase().endsWith(type))`. */
  predicate IsAccepted(fileName: string) {
    exists k :: 0 <= k < |AcceptedFileTypes| && EndsWith(ToLower(fileName), AcceptedFileTypes[k])
  }

  /** Lower-casing keeps `.` where it is and creates no new one. */
  lemma LowerDot(c: char)
    ensures LowerChar(c) == '.' <==> c == '.'
  {
  }

  /** If the lower-cased name ends with `.` followed by dot-free text, that suffix is the
      extension. */
  lemma ExtensionOfSuffix(fileName: string, suffix: string)
    requires EndsWith(ToLower(fileName), suffix)
    requires |suffix| > 0 && suffix[0] == '.' && '.' !in suffix[1..]
    ensures Extension(fileName) == suffix
  {
    var lower := ToLower(fileName);
    var p := |fileName| - |suffix|;
    assert lower[p] == suffix[0];
    LowerDot(fileName[p]);
    forall k | p < k < |fileName| ensures fileName[k] != '.' {
      assert lower[k] == suffix[k - p];
      assert suffix[1..][k - p - 1] == suffix[k - p];
      LowerDot(fileName[k]);
    }
    var dot := LastIndexOf(fileName, '.');
    assert dot == p;
  }

  /** Each accepted type is a `.` followed by dot-free text. */
  lemma AcceptedTypeShape(k: nat)
    requires k < |AcceptedFileTypes|
    ensures |AcceptedFileTypes[k]| > 0 && AcceptedFileTypes[k][0] == '.'
    ensures '.' !in AcceptedFileTypes[k][1..]
  {
    var t := AcceptedFileTypes[k];
    assert |t| == 4 && t[1] != '.' && t[2] != '.' && t[3] != '.';
    assert t[1..] == [t[1], t[2], t[3]];
  }

  /** A file name passes the filter exactly when its extension is one of the accepted
      ones, so every accepted name has a recognised extension. */
  lemma AcceptedIffExtension(fileName: string)
    ensures IsAccepted(fileName) <==> Extension(fileName) in AcceptedFileTypes
  {
    if IsAccepted(fileName) {
      var k :| 0 <= k < |AcceptedFileTypes| && EndsWith(ToLower(fileName), AcceptedFileTypes[k]);
      var t := AcceptedFileTypes[k];
      AcceptedTypeShape(k);
      ExtensionOfSuffix(fileName, t);
    }
    if Extension(fileName) in AcceptedFileTypes {
      var ext := Extension(fileName);
      var lower := ToLower(fileName);
      var k :| 0 <= k < |AcceptedFileTypes| && AcceptedFileTypes[k] == ext;
      assert lower[|lower| - |ext|..] == ext;
      assert EndsWith(lower, AcceptedFileTypes[k]);
    }
  }
}
