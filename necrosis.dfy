/** `get_necrosis_visual_stage`: the tissue-state key the front end uses to
    pick a visualisation. The checks run from the most severe state down; the
    two mildest states carry an extra guard that refuses them when a more
    severe tissue word is present. */
module Necrosis {
  import opened Text
  import opened Keywords
  import opened Analysis

  const Gangrene := "gangrene"
  const Eschar := "eschar"
  const Slough := "slough"
  const HealthyGranulation := "healthy_granulation"
  const NoUlcer := "no_ulcer"
  const Unknown := "unknown"

  /** Every key the function can return. */
  const StageKeys: set<string> := {Gangrene, Eschar, Slough, HealthyGranulation, NoUlcer, Unknown}

  const EscharKeywords := ["eschar", "black tissue", "necrotic"]
  const SloughKeywords := ["slough", "yellow tissue", "tan tissue", "white tissue"]
  const GranulationKeywords := ["granulation tissue", "red tissue", "pink tissue", "healthy tissue base"]
  const HealedKeywords := ["no ulcer", "skin intact", "healed"]

  /** The words that refuse `healthy_granulation`. */
  const SevereTissueWords := ["gangrene", "eschar", "black tissue", "slough", "necrotic"]
  /** The words that refuse `no_ulcer`. */
  const AnyTissueWords := ["gangrene", "eschar", "slough", "granulation"]

  /** The ladder on the lower-cased text, from the first keyword test on. */
  function StageOf(lower: string): (key: string)
    ensures key in StageKeys
  {
    if Contains(lower, "gangrene") then Gangrene
    else if AnyOccurs(lower, EscharKeywords) then Eschar
    else if AnyOccurs(lower, SloughKeywords) then Slough
    else if AnyOccurs(lower, GranulationKeywords) && !AnyOccurs(lower, SevereTissueWords) then HealthyGranulation
    else if AnyOccurs(lower, HealedKeywords) && !AnyOccurs(lower, AnyTissueWords) then NoUlcer
    else Unknown
  }

  /** `get_necrosis_visual_stage(analysis_text)`: `unknown` for an unusable
      analysis; otherwise one of the six keys, and `gangrene` exactly when the
      lower-cased text mentions gangrene. */
  function NecrosisStage(analysisText: string): (key: string)
    ensures key in StageKeys
    ensures AnalysisUnavailable(analysisText) ==> key == Unknown
    ensures key == Gangrene <==>
              !AnalysisUnavailable(analysisText) && Contains(Lower(analysisText), "gangrene")
  {
    if AnalysisUnavailable(analysisText) then Unknown else StageOf(Lower(analysisText))
  }

  /** The keys are six different strings. */
  lemma KeysDistinct()
    ensures |StageKeys| == 6
  {
    assert Gangrene[0] == 'g' && Eschar[0] == 'e' && Slough[0] == 's';
    assert HealthyGranulation[0] == 'h' && NoUlcer[0] == 'n' && Unknown[0] == 'u';
    assert Gangrene != Eschar && Gangrene != Slough && Eschar != Slough;
  }

  /** When the granulation test is reached (no gangrene, eschar or slough
      keyword), its inner guard always holds: every word it refuses was
      already tested above. */
  lemma HealthyGuardRedundant(lower: string)
    requires !Contains(lower, "gangrene")
    requires !AnyOccurs(lower, EscharKeywords)
    requires !AnyOccurs(lower, SloughKeywords)
    ensures !AnyOccurs(lower, SevereTissueWords)
  {
    AnyOccursIff(lower, EscharKeywords);
    AnyOccursIff(lower, SloughKeywords);
    AnyOccursIff(lower, SevereTissueWords);
    assert EscharKeywords[0] == "eschar" && EscharKeywords[1] == "black tissue" && EscharKeywords[2] == "necrotic";
    assert SloughKeywords[0] == "slough";
    forall k | k in SevereTissueWords
      ensures !Contains(lower, k)
    {
      assert k in EscharKeywords || k in SloughKeywords || k == "gangrene";
    }
  }

  /** Each key, stated as the conditions under which it is returned. */
  lemma StageCases(analysisText: string)
    requires !AnalysisUnavailable(analysisText)
    ensures var lower := Lower(analysisText); var key := NecrosisStage(analysisText);
      && (key == Eschar <==> !Contains(lower, "gangrene") && AnyOccurs(lower, EscharKeywords))
      && (key == Slough <==>
            !Contains(lower, "gangrene") && !AnyOccurs(lower, EscharKeywords) && AnyOccurs(lower, SloughKeywords))
      && (key == HealthyGranulation <==>
            !Contains(lower, "gangrene") && !AnyOccurs(lower, EscharKeywords) && !AnyOccurs(lower, SloughKeywords)
            && AnyOccurs(lower, GranulationKeywords))
      && (key == NoUlcer <==>
            !Contains(lower, "gangrene") && !AnyOccurs(lower, EscharKeywords) && !AnyOccurs(lower, SloughKeywords)
            && !AnyOccurs(lower, GranulationKeywords)
            && AnyOccurs(lower, HealedKeywords) && !Contains(lower, "granulation"))
  {
    var lower := Lower(analysisText);
    KeysDistinct();
    if !Contains(lower, "gangrene") && !AnyOccurs(lower, EscharKeywords) && !AnyOccurs(lower, SloughKeywords) {
      HealthyGuardRedundant(lower);
      AnyOccursIff(lower, AnyTissueWords);
      assert AnyTissueWords[3] == "granulation";
      forall k | k in AnyTissueWords && k != "granulation"
        ensures !Contains(lower, k)
      {
        assert k == SevereTissueWords[0] || k == SevereTissueWords[1] || k == SevereTissueWords[3];
        AnyOccursIff(lower, SevereTissueWords);
      }
    }
  }

  /** A `healthy_granulation` text mentions no gangrene, eschar, black
      tissue, slough or necrotic tissue. */
  lemma HealthyExcludesSevere(analysisText: string)
    requires NecrosisStage(analysisText) == HealthyGranulation
    ensures forall k | k in SevereTissueWords :: !Contains(Lower(analysisText), k)
  {
    KeysDistinct();
    AnyOccursIff(Lower(analysisText), SevereTissueWords);
  }

  /** A `no_ulcer` text mentions no gangrene, eschar, slough or granulation. */
  lemma NoUlcerExcludesTissue(analysisText: string)
    requires NecrosisStage(analysisText) == NoUlcer
    ensures forall k | k in AnyTissueWords :: !Contains(Lower(analysisText), k)
  {
    KeysDistinct();
    AnyOccursIff(Lower(analysisText), AnyTissueWords);
  }

  /** Gangrene dominates in any letter case: a usable analysis containing any
      spelling of "gangrene" (any mix of capitals) is classed `gangrene`,
      whatever else it says. */
  lemma GangreneAnyCase(analysisText: string, word: string)
    requires !AnalysisUnavailable(analysisText)
    requires Lower(word) == "gangrene"
    requires Contains(analysisText, word)
    ensures NecrosisStage(analysisText) == Gangrene
  {
    ContainsLower(analysisText, word);
  }
}
