/** The blank-input guard in front of the analysis (mer-lev.py, line 66):
    a text is blank when Python's `str.strip()` leaves nothing of it, and
    the analysis runs only when neither text is blank. */
module InputCheck {
  import opened Analysis

  /** Python's `str.isspace()` for one character: the code points Python
      classifies as whitespace. */
  predicate IsSpace(c: char)
  {
    var n := c as int;
    (0x09 <= n <= 0x0D) || (0x1C <= n <= 0x20) || n == 0x85 || n == 0xA0 ||
    n == 0x1680 || (0x2000 <= n <= 0x200A) || n == 0x2028 || n == 0x2029 ||
    n == 0x202F || n == 0x205F || n == 0x3000
  }

  /** Drops the leading whitespace: the result is the suffix of `s` that
      starts at its first non-whitespace character. */
  function StripLeading(s: string): (r: string)
    ensures |r| <= |s| && r == s[|s| - |r|..]
    ensures forall k :: 0 <= k < |s| - |r| ==> IsSpace(s[k])
    ensures r != [] ==> !IsSpace(r[0])
  {
    if s != [] && IsSpace(s[0]) then StripLeading(s[1..]) else s
  }

  /** Drops the trailing whitespace: the result is the prefix of `s` that
      ends at its last non-whitespace character. */
  function StripTrailing(s: string): (r: string)
    ensures |r| <= |s| && r == s[..|r|]
    ensures forall k :: |r| <= k < |s| ==> IsSpace(s[k])
    ensures r != [] ==> !IsSpace(r[|r| - 1])
  {
    if s != [] && IsSpace(s[|s| - 1]) then StripTrailing(s[..|s| - 1]) else s
  }

  /** Python's `str.strip()` with no argument. */
  function Strip(s: string): string
  {
    StripTrailing(StripLeading(s))
  }

  /** `not text.strip()`. */
  predicate IsBlank(text: string)
  {
    Strip(text) == []
  }

  /** A text is blank exactly when it is empty or all whitespace. */
  lemma BlankIff(text: string)
    ensures IsBlank(text) <==> forall k :: 0 <= k < |text| ==> IsSpace(text[k])
  {
    var lead := StripLeading(text);
    var r := StripTrailing(lead);
    if !(forall k :: 0 <= k < |text| ==> IsSpace(text[k])) {
      var k :| 0 <= k < |text| && !IsSpace(text[k]);
      assert k >= |text| - |lead|;
      assert lead[k - (|text| - |lead|)] == text[k];
    }
  }

  /** What the page shows after the guard: a warning, or the analysis. */
  datatype Outcome = BlankInputWarning | Analyzed(report: Report)

  /** The guard at line 66 and the call at line 70. The word lists and the
      error rate are what the alignment library produces from the two
      texts. */
  method Analyze(referenceText: string, hypothesisText: string,
                 reference: seq<string>, hypothesis: seq<string>,
                 mer: real, threshold: real) returns (outcome: Outcome)
    ensures outcome.BlankInputWarning? <==> IsBlank(referenceText) || IsBlank(hypothesisText)
    ensures outcome.Analyzed? ==> outcome.report == ReportOf(reference, hypothesis, mer, threshold)
  {
    if Strip(referenceText) == [] || Strip(hypothesisText) == [] {
      outcome := BlankInputWarning;
    } else {
      var report := AnalyzeTranscriptionErrors(reference, hypothesis, mer, threshold);
      outcome := Analyzed(report);
    }
  }
}
