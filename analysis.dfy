/** The guard every classifier starts with: an empty analysis text, or one
    carrying a failure marker, gets a fixed fallback instead of a
    classification. The markers are matched case-sensitively on the text as
    received, before any lower-casing. */
module Analysis {
  import opened Text

  const FailedMarker := "Analysis failed"
  const BlockedMarker := "analysis request was blocked"

  /** `not analysis_text or "Analysis failed" in analysis_text
      or "analysis request was blocked" in analysis_text`. The ensures is
      only a side fact (a non-empty unusable text holds a whole marker); what
      the guard means is stated by `MarkersAreCaseSensitive` and
      `CapitalTextIsUsable`. */
  predicate AnalysisUnavailable(text: string): (unusable: bool)
    ensures unusable && |text| > 0 ==> |text| >= |FailedMarker|
  {
    |text| == 0 || Contains(text, FailedMarker) || Contains(text, BlockedMarker)
  }

  /** The markers are case-sensitive: the marker text trips the guard, the
      same words in capitals do not. */
  lemma MarkersAreCaseSensitive()
    ensures AnalysisUnavailable("Analysis failed")
    ensures !AnalysisUnavailable("ANALYSIS FAILED")
  {
    assert FailedMarker <= "Analysis failed"[0..];
    forall i | 0 <= i <= 15
      ensures !(FailedMarker <= "ANALYSIS FAILED"[i..])
    {
      if i == 0 {
        assert "ANALYSIS FAILED"[1] != FailedMarker[1];
      }
    }
  }

  /** Only the markers as written trip the guard: a non-empty text with no
      small letters at all, such as "ANALYSIS FAILED", is always classified. */
  lemma CapitalTextIsUsable(text: string)
    requires |text| > 0
    requires forall i | 0 <= i < |text| :: !('a' <= text[i] <= 'z')
    ensures !AnalysisUnavailable(text)
  {
    forall i | 0 <= i <= |text|
      ensures !(FailedMarker <= text[i..]) && !(BlockedMarker <= text[i..])
    {
      assert FailedMarker[1] == 'n' && BlockedMarker[0] == 'a';
    }
  }
}
