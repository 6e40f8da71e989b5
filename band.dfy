/** `get_band_suggestion`: a multi-line bandage-change recommendation built
    from the analysis text, for a reference bandage of 7.6 x 7.6 cm.

    The recommendation is a header, exactly one size line, exactly one
    replacement-frequency line, an optional infection warning, an optional
    note on necrotic tissue, and a general-care line when there is no
    infection warning, joined with line feeds. `BandSuggestion` builds it the
    way the source does, appending lines and setting flags;
    `SuggestionLines` states the same list line by line, and the lemmas
    below state its layout. */
module Band {
  import opened Text
  import opened Keywords
  import opened Regex
  import opened Analysis

  const NoSuggestion := "Analysis unavailable, cannot provide suggestion."
  // Each line is written as its opening words plus the rest, so that the
  // verifier can read off how a line starts without unfolding a long literal.
  const BaseSuggestion := "Bandage" + " (approx. 7.6x7.6cm / 3x3 inch, 3mm thick) based suggestions:"

  /** The side of the reference bandage, in cm. */
  const BandageSide: real := 7.6

  const SizeTag := "• *Size:*"
  const SizeLarger := SizeTag + " Wound might be larger than one bandage (7.6x7.6cm). Consider using multiple bandages or a larger size if available."
  const SizeFits := SizeTag + " Wound likely fits within one bandage. Ensure the bandage fully covers the wound bed with some margin."
  const SizeDescribedLarge := SizeTag + " Wound description suggests it might be large. Verify if one bandage (7.6x7.6cm) provides adequate coverage."
  const SizeNotEstimated := SizeTag + " AI could not reliably estimate size. Please visually check if one bandage (7.6x7.6cm) is sufficient."
  const SizeUnclear := SizeTag + " Wound size information not clear in the analysis. Please verify coverage manually."

  const LargeKeywords := ["large size", "larger than", "extensive area"]
  const SizeUnclearKeywords := ["difficult to estimate size", "size estimation unclear"]

  const ReplacementTag := "• *Replacement"
  const ReplaceSevere := ReplacementTag + " (Severe Exudate):* Bandage (3mm thick) may saturate quickly. Change at least twice a day or whenever saturated. **Consult a professional immediately.**"
  const ReplaceModerate := ReplacementTag + " (Moderate Exudate):* Recommend changing 1-2 times a day. Monitor bandage saturation."
  const ReplaceMild := ReplacementTag + " (Mild Exudate):* Change once a day or every other day. Check bandage condition."
  const ReplaceDry := ReplacementTag + " (None/Dry):* Use bandage for protection and moisture balance. Change every 1-3 days as advised by a professional, or if soiled/detached."
  const ReplaceUnclear := ReplacementTag + " Frequency:* Exudate level unclear. Change bandage immediately if wet, soiled, or detached. Follow professional guidance."

  const SevereKeywords := ["severe exudate", "heavy exudate", "copious drainage", "severe pus", "heavy pus"]
  const ModerateKeywords := ["moderate exudate", "moderate drainage", "moderate pus"]
  const MildKeywords := ["mild exudate", "scant drainage", "mild pus"]
  const DryKeywords := ["no exudate", "wound dry", "no drainage", "no pus"]

  /** The exudate levels from least to most severe, and their lines. */
  const ExudateLadder := [DryKeywords, MildKeywords, ModerateKeywords, SevereKeywords]
  const ReplacementLines := [ReplaceDry, ReplaceMild, ReplaceModerate, ReplaceSevere]

  const InfectionKeywords := ["infection sign", "heavy pus", "foul odor suspected", "severe redness spreading",
                              "significant edema", "cellulitis suspected", "increasing pain reported"]
  const InfectionWarning := "\n**⚠️ URGENT WARNING:**" + " Analysis suggests potential signs of infection! **Seek immediate medical attention from a healthcare professional!** Do not rely solely on this analysis."

  const NecroticKeywords := ["necrotic tissue", "black tissue", "eschar", "gangrene"]
  const NecroticNote := "\n• *Note:*" + " Presence of necrotic tissue (black/brown/yellow slough) can impede healing. Professional assessment for potential debridement (removal) is crucial."

  const GeneralCare := "\n• *General Care:*" + " Keep the wound and surrounding skin clean and dry (unless specific moisture therapy advised). Proper blood sugar control and nutrition are vital for diabetic wound healing."

  /** The size line: from the measured size when the size pattern matches and
      both numbers convert, otherwise from size keywords. Whichever it is, it
      starts with the size tag and not with the replacement tag. */
  function SizeLine(lower: string): (line: string)
    ensures SizeTag <= line && !(ReplacementTag <= line)
  {
    assert SizeTag[3] != ReplacementTag[3];
    var m := SearchSize(lower);
    if m.Some? && ParseDecimal(m.value.groups.0).Some? && ParseDecimal(m.value.groups.1).Some? then
      if ParseDecimal(m.value.groups.0).value > BandageSide || ParseDecimal(m.value.groups.1).value > BandageSide
      then SizeLarger
      else SizeFits
    else if AnyOccurs(lower, LargeKeywords) then SizeDescribedLarge
    else if AnyOccurs(lower, SizeUnclearKeywords) then SizeNotEstimated
    else SizeUnclear
  }

  /** The replacement-frequency line, most severe exudate level first. Every
      one starts with the replacement tag and not with the size tag. */
  function ExudateLine(lower: string): (line: string)
    ensures ReplacementTag <= line && !(SizeTag <= line)
  {
    assert SizeTag[3] != ReplacementTag[3];
    if AnyOccurs(lower, SevereKeywords) then ReplaceSevere
    else if AnyOccurs(lower, ModerateKeywords) then ReplaceModerate
    else if AnyOccurs(lower, MildKeywords) then ReplaceMild
    else if AnyOccurs(lower, DryKeywords) then ReplaceDry
    else ReplaceUnclear
  }

  /** The lines after the replacement line: the optional infection warning,
      the optional note on necrotic tissue, and general care when there is no
      warning: one or two of those three lines. */
  function CareLines(lower: string): (lines: seq<string>)
    ensures 1 <= |lines| <= 2
    ensures forall k | 0 <= k < |lines| :: lines[k] in {InfectionWarning, NecroticNote, GeneralCare}
  {
    var infection := AnyOccurs(lower, InfectionKeywords);
    (if infection then [InfectionWarning] else [])
    + (if AnyOccurs(lower, NecroticKeywords) then [NecroticNote] else [])
    + (if infection then [] else [GeneralCare])
  }

  /** The lines of the recommendation for the lower-cased analysis text. */
  function SuggestionLines(lower: string): seq<string>
  {
    [BaseSuggestion, SizeLine(lower), ExudateLine(lower)] + CareLines(lower)
  }

  /** `get_band_suggestion(analysis_text)`. The three numbered sections of
      the source are the three methods below it. */
  method BandSuggestion(analysisText: string) returns (suggestion: string)
    ensures AnalysisUnavailable(analysisText) ==> suggestion == NoSuggestion
    ensures !AnalysisUnavailable(analysisText) ==>
              suggestion == Join(SuggestionLines(Lower(analysisText)), "\n")
  {
    if AnalysisUnavailable(analysisText) {
      return NoSuggestion;
    }
    var suggestions := [BaseSuggestion];
    var lower := Lower(analysisText);
    suggestions := AppendSizeLine(suggestions, lower);
    suggestions := AppendReplacementLine(suggestions, lower);
    assert suggestions == [BaseSuggestion, SizeLine(lower), ExudateLine(lower)];
    suggestions := AppendCareLines(suggestions, lower);
    suggestion := Join(suggestions, "\n");
  }

  /** Section 1: the size line, from the measured dimensions when the size
      pattern matches, else from keywords. */
  method AppendSizeLine(suggestions: seq<string>, lower: string) returns (out: seq<string>)
    ensures out == suggestions + [SizeLine(lower)]
  {
    out := suggestions;
    var sizeFound := false;
    var sizeMatch := SearchSize(lower);
    if sizeMatch.Some? {
      var dim1 := ParseDecimal(sizeMatch.value.groups.0);
      var dim2 := ParseDecimal(sizeMatch.value.groups.1);
      // None stands for float() raising ValueError: the line is then left to the keywords.
      if dim1.Some? && dim2.Some? {
        if dim1.value > BandageSide || dim2.value > BandageSide {
          out := out + [SizeLarger];
          sizeFound := true;
        } else {
          out := out + [SizeFits];
          sizeFound := true;
        }
      }
    }
    if !sizeFound {
      if AnyOccurs(lower, LargeKeywords) {
        out := out + [SizeDescribedLarge];
        sizeFound := true;
      } else if AnyOccurs(lower, SizeUnclearKeywords) {
        out := out + [SizeNotEstimated];
        sizeFound := true;
      }
    }
    if !sizeFound {
      out := out + [SizeUnclear];
    }
  }

  /** Section 2: the replacement-frequency line, most severe exudate first. */
  method AppendReplacementLine(suggestions: seq<string>, lower: string) returns (out: seq<string>)
    ensures out == suggestions + [ExudateLine(lower)]
  {
    out := suggestions;
    var exudateSuggestionAdded := false;
    if AnyOccurs(lower, SevereKeywords) {
      out := out + [ReplaceSevere];
      exudateSuggestionAdded := true;
    } else if AnyOccurs(lower, ModerateKeywords) {
      out := out + [ReplaceModerate];
      exudateSuggestionAdded := true;
    } else if AnyOccurs(lower, MildKeywords) {
      out := out + [ReplaceMild];
      exudateSuggestionAdded := true;
    } else if AnyOccurs(lower, DryKeywords) {
      out := out + [ReplaceDry];
      exudateSuggestionAdded := true;
    }
    if !exudateSuggestionAdded {
      out := out + [ReplaceUnclear];
    }
  }

  /** Section 3: the infection warning, the note on necrotic tissue, and the
      general-care line when no warning was given. */
  method AppendCareLines(suggestions: seq<string>, lower: string) returns (out: seq<string>)
    ensures out == suggestions + CareLines(lower)
  {
    out := suggestions;
    var infectionWarning := false;
    if AnyOccurs(lower, InfectionKeywords) {
      out := out + [InfectionWarning];
      infectionWarning := true;
    }
    if AnyOccurs(lower, NecroticKeywords) {
      out := out + [NecroticNote];
    }
    if !infectionWarning {
      out := out + [GeneralCare];
    }
  }

  /** The header and the lines after the replacement line carry neither tag. */
  lemma OtherLinesUntagged()
    ensures !(SizeTag <= BaseSuggestion) && !(ReplacementTag <= BaseSuggestion)
    ensures !(SizeTag <= InfectionWarning) && !(ReplacementTag <= InfectionWarning)
    ensures !(SizeTag <= NecroticNote) && !(ReplacementTag <= NecroticNote)
    ensures !(SizeTag <= GeneralCare) && !(ReplacementTag <= GeneralCare)
  {
    assert BaseSuggestion[0] != SizeTag[0] && SizeTag[0] == ReplacementTag[0];
    assert InfectionWarning[0] == NecroticNote[0] == GeneralCare[0] == '\n' != SizeTag[0];
  }

  /** The three closing lines are three different strings. */
  lemma CareLinesDistinct()
    ensures InfectionWarning != NecroticNote && InfectionWarning != GeneralCare && NecroticNote != GeneralCare
  {
    assert InfectionWarning[3] != NecroticNote[3] && InfectionWarning[3] != GeneralCare[3];
    assert NecroticNote[4] != GeneralCare[4];
  }

  /** The closing lines: the warning, first, exactly when infection keywords
      occur; the note exactly when necrosis keywords occur; general care,
      last, exactly when there is no warning. */
  lemma CareLayout(lower: string)
    ensures var care := CareLines(lower);
      && 1 <= |care| <= 2
      && (InfectionWarning in care <==> AnyOccurs(lower, InfectionKeywords))
      && (InfectionWarning in care ==> care[0] == InfectionWarning)
      && (NecroticNote in care <==> AnyOccurs(lower, NecroticKeywords))
      && (GeneralCare in care <==> InfectionWarning !in care)
      && (GeneralCare in care ==> care[|care| - 1] == GeneralCare)
  {
    CareLinesDistinct();
  }

  /** The header, a size-tagged line, a replacement-tagged line and untagged
      closing lines: each tag starts exactly one line, and a closing line
      occurs in the whole exactly when it occurs among the closing lines. */
  lemma TaggedLines(size: string, exudate: string, care: seq<string>)
    requires SizeTag <= size && !(ReplacementTag <= size)
    requires ReplacementTag <= exudate && !(SizeTag <= exudate)
    requires forall k | 0 <= k < |care| :: !(SizeTag <= care[k]) && !(ReplacementTag <= care[k])
    ensures var lines := [BaseSuggestion, size, exudate] + care;
      && (forall k | 0 <= k < |lines| && k != 1 :: !(SizeTag <= lines[k]))
      && (forall k | 0 <= k < |lines| && k != 2 :: !(ReplacementTag <= lines[k]))
      && (forall x | x in [InfectionWarning, NecroticNote, GeneralCare] :: x in lines <==> x in care)
  {
    var lines := [BaseSuggestion, size, exudate] + care;
    OtherLinesUntagged();
    forall k | 0 <= k < |lines| && k != 1
      ensures !(SizeTag <= lines[k])
    {
      if k >= 3 {
        assert lines[k] == care[k - 3];
      }
    }
    forall k | 0 <= k < |lines| && k != 2
      ensures !(ReplacementTag <= lines[k])
    {
      if k >= 3 {
        assert lines[k] == care[k - 3];
      }
    }
    forall x | x in [InfectionWarning, NecroticNote, GeneralCare]
      ensures x in lines <==> x in care
    {
      assert x != BaseSuggestion && x != size && x != exudate;
      assert x in care ==> x in lines by {
        if x in care {
          var k :| 0 <= k < |care| && care[k] == x;
          assert lines[k + 3] == x;
        }
      }
    }
  }

  /** The layout of every recommendation: the header first, then the one and
      only size line, then the one and only replacement line; the infection
      warning right after it when infection keywords occur; the note on
      necrotic tissue exactly when necrosis keywords occur; and the
      general-care line, last, exactly when there is no infection warning. */
  lemma SuggestionLayout(lower: string)
    ensures var lines := SuggestionLines(lower);
      && 3 <= |lines| <= 5
      && lines[0] == BaseSuggestion
      && SizeTag <= lines[1]
      && (forall k | 0 <= k < |lines| && k != 1 :: !(SizeTag <= lines[k]))
      && ReplacementTag <= lines[2]
      && (forall k | 0 <= k < |lines| && k != 2 :: !(ReplacementTag <= lines[k]))
      && (InfectionWarning in lines <==> AnyOccurs(lower, InfectionKeywords))
      && (InfectionWarning in lines ==> lines[3] == InfectionWarning)
      && (NecroticNote in lines <==> AnyOccurs(lower, NecroticKeywords))
      && (GeneralCare in lines <==> InfectionWarning !in lines)
      && (GeneralCare in lines ==> lines[|lines| - 1] == GeneralCare)
  {
    var size, exudate, care := SizeLine(lower), ExudateLine(lower), CareLines(lower);
    OtherLinesUntagged();
    CareLayout(lower);
    TaggedLines(size, exudate, care);
    var lines := [BaseSuggestion, size, exudate] + care;
    assert lines[3..] == care;
  }

  /** With a size match, both dimensions convert, and the line says the wound
      may be larger than one bandage exactly when a dimension exceeds
      7.6 cm; otherwise it says the wound fits. */
  lemma SizeLineFromMeasurement(lower: string)
    requires SearchSize(lower).Some?
    ensures var g := SearchSize(lower).value.groups;
      && ParseDecimal(g.0).Some? && ParseDecimal(g.1).Some?
      && (SizeLine(lower) == SizeLarger <==>
            ParseDecimal(g.0).value > BandageSide || ParseDecimal(g.1).value > BandageSide)
      && (SizeLine(lower) == SizeFits <==>
            ParseDecimal(g.0).value <= BandageSide && ParseDecimal(g.1).value <= BandageSide)
  {
    SizeGroupsParse(lower);
  }

  /** The threshold compared against is exactly the value of "7.6", so a
      7.6 cm dimension fits while "7.61" is already too large. */
  lemma BandageSideBoundary()
    ensures ParseDecimal("7.6") == Some(BandageSide)
    ensures ParseDecimal("7.61").Some? && ParseDecimal("7.61").value > BandageSide
  {
    assert Skip("7.6", 0, Digit) == 1 && Skip("7.6", 2, Digit) == 3;
    assert ScaledValue("7.6") == 76 by {
      assert "7.6"[..2] == "7." && "7."[..1] == "7" && "7"[..0] == "";
    }
    assert Skip("7.61", 0, Digit) == 1 && Skip("7.61", 2, Digit) == 4;
    assert ScaledValue("7.61") == 761 by {
      assert "7.61"[..3] == "7.6" && "7.6"[..2] == "7." && "7."[..1] == "7" && "7"[..0] == "";
    }
  }

  /** Without a size match, the size line comes from the keywords: "large"
      wording first, then "could not estimate" wording, else "not clear". */
  lemma SizeLineFromKeywords(lower: string)
    requires SearchSize(lower).None?
    ensures SizeLine(lower) == SizeDescribedLarge <==> AnyOccurs(lower, LargeKeywords)
    ensures SizeLine(lower) == SizeNotEstimated <==>
              !AnyOccurs(lower, LargeKeywords) && AnyOccurs(lower, SizeUnclearKeywords)
    ensures SizeLine(lower) == SizeUnclear <==>
              !AnyOccurs(lower, LargeKeywords) && !AnyOccurs(lower, SizeUnclearKeywords)
  {
  }

  /** The most severe exudate level whose keywords occur picks the
      replacement line; with none, the line says the level is unclear. */
  lemma ExudatePriority(lower: string, level: nat)
    requires level < 4
    ensures ExudateLine(lower) == ReplacementLines[level] <==> TopLevel(lower, ExudateLadder, level)
    ensures ExudateLine(lower) == ReplaceUnclear <==> NoLevel(lower, ExudateLadder)
  {
    assert ExudateLadder[0] == DryKeywords && ExudateLadder[1] == MildKeywords;
    assert ExudateLadder[2] == ModerateKeywords && ExudateLadder[3] == SevereKeywords;
  }
}
