/** `estimate_wagner_grade`: a Wagner-grade label for the analysis text,
    always followed by a fixed disclaimer.

    An explicit `grade <digit>:` in the text decides the grade outright.
    Without one, a keyword ladder is tried from Grade 5 down to Grade 0, and
    then two "unknown" labels, one for text that mentions a wound or ulcer and
    one for text that does not. */
module Wagner {
  import opened Text
  import opened Keywords
  import opened Regex
  import opened Analysis

  const NoGrade := "Analysis unavailable, cannot estimate stage."

  const Caveat := "\n\n**Disclaimer:** This is an AI's interpretation based *solely* on the visual description provided by another AI analysis of the image. It is **NOT** a medical diagnosis or official Wagner Grade. Accurate staging requires clinical examination by a qualified healthcare professional."

  /** `grade_descriptions`: the description of each grade digit. */
  const Descriptions: map<char, string> := map[
    '0' := "No ulcer, intact skin",
    '1' := "Superficial ulcer (epidermis/dermis only)",
    '2' := "Deep ulcer (to tendon, joint capsule)",
    '3' := "Deep ulcer with abscess/osteomyelitis",
    '4' := "Localized gangrene (toe, forefoot)",
    '5' := "Extensive gangrene (whole foot)"
  ]

  /** "Grade d", with ": <description>" when the digit has one. Every grade
      label of the keyword ladder is also of this form. */
  function GradeLabel(d: char): (name: string)
    ensures |name| >= 7 && name[..7] == "Grade " + [d]
    ensures d in Descriptions <==> |name| > 7
  {
    var possible := "Grade " + [d];
    if d in Descriptions then possible + ": " + Descriptions[d] else possible
  }

  function GradeDigit(g: nat): char
    requires g <= 5
  {
    ('0' as int + g) as char
  }

  /** The keywords of each grade, Grade 0 first. */
  const GradeKeywords: seq<seq<string>> := [
    ["grade 0", "no ulcer", "intact skin"],
    ["grade 1", "superficial ulcer", "skin layer only"],
    ["grade 2", "tendon exposed", "joint capsule exposed", "bone exposed"],
    ["grade 3", "osteomyelitis", "deep infection", "abscess"],
    ["grade 4", "localized gangrene", "gangrene present on"],
    ["grade 5", "extensive gangrene involving the whole foot", "gangrene of the entire foot"]
  ]

  const WoundKeywords := ["ulcer", "wound"]
  const Unknown := "Grade Unknown: "
  const UnknownWithWound := Unknown + "Wound present but insufficient information for precise grading"
  const UnknownNoWound := Unknown + "No wound characteristics detected"

  /** The label the keyword ladder picks, most severe grade first. */
  function LadderLabel(lower: string): (name: string)
    ensures |name| >= 7 && name[..6] == "Grade "
  {
    if AnyOccurs(lower, GradeKeywords[5]) then GradeLabel('5')
    else if AnyOccurs(lower, GradeKeywords[4]) then GradeLabel('4')
    else if AnyOccurs(lower, GradeKeywords[3]) then GradeLabel('3')
    else if AnyOccurs(lower, GradeKeywords[2]) then GradeLabel('2')
    else if AnyOccurs(lower, GradeKeywords[1]) then GradeLabel('1')
    else if AnyOccurs(lower, GradeKeywords[0]) then GradeLabel('0')
    else if AnyOccurs(lower, WoundKeywords) then UnknownWithWound
    else UnknownNoWound
  }

  /** The label before the disclaimer: from an explicit grade when the text
      has one, otherwise from the keyword ladder. */
  function PossibleGrade(lower: string): (name: string)
    ensures |name| >= 7 && name[..6] == "Grade "
  {
    match SearchGrade(lower)
    case Some(found) =>
      var name := GradeLabel(found.groups);
      assert name[..6] == name[..7][..6];
      name
    case None => LadderLabel(lower)
  }

  /** `estimate_wagner_grade(analysis_text)`: the fallback for an unusable
      analysis; otherwise a label that starts with "Grade " and always ends
      with the disclaimer. */
  function WagnerGrade(analysisText: string): (r: string)
    ensures AnalysisUnavailable(analysisText) ==> r == NoGrade
    ensures !AnalysisUnavailable(analysisText) ==>
              |r| > |Caveat| && r[..6] == "Grade " && r[|r| - |Caveat|..] == Caveat
  {
    if AnalysisUnavailable(analysisText) then NoGrade
    else
      var possible := PossibleGrade(Lower(analysisText));
      ConcatParts(possible, Caveat, 6);
      possible + Caveat
  }

  /** The parts of a concatenation: a prefix of the left part, and the right
      part at the end. */
  lemma ConcatParts(a: string, c: string, n: nat)
    requires n <= |a|
    ensures (a + c)[..n] == a[..n] && (a + c)[|a|..] == c
  {
  }

  /** `a + c == b + c` only when `a == b`: labels are told apart before the
      disclaimer is appended. */
  lemma AppendCancel(a: string, b: string, c: string)
    ensures a + c == b + c <==> a == b
  {
    if a + c == b + c {
      assert a == (a + c)[..|a|] == (b + c)[..|b|] == b;
    }
  }

  /** The description table covers exactly the digits 0 to 5. */
  lemma DescribedDigits(d: char)
    ensures d in Descriptions <==> '0' <= d <= '5'
  {
    assert Descriptions.Keys == {'0', '1', '2', '3', '4', '5'};
  }

  /** An explicit `grade <d>:` decides the result whatever keywords the text
      holds: "Grade <d>", then a description exactly when d is 0 to 5, then
      the disclaimer. */
  lemma ExplicitGradeFirst(analysisText: string)
    requires !AnalysisUnavailable(analysisText)
    requires SearchGrade(Lower(analysisText)).Some?
    ensures var d := SearchGrade(Lower(analysisText)).value.groups;
      && WagnerGrade(analysisText) == GradeLabel(d) + Caveat
      && WagnerGrade(analysisText)[..7] == "Grade " + [d]
      && (d in Descriptions <==> '0' <= d <= '5')
      && (d !in Descriptions ==> WagnerGrade(analysisText) == "Grade " + [d] + Caveat)
  {
    var d := SearchGrade(Lower(analysisText)).value.groups;
    var name := GradeLabel(d);
    assert WagnerGrade(analysisText) == name + Caveat;
    ConcatParts(name, Caveat, 7);
    DescribedDigits(d);
  }

  /** The ladder alone: Grade g is picked exactly when g is the highest grade
      whose keywords occur. */
  lemma LadderTop(lower: string, g: nat)
    requires g <= 5
    ensures LadderLabel(lower) == GradeLabel(GradeDigit(g)) <==> TopLevel(lower, GradeKeywords, g)
  {
    var picked := LadderLabel(lower);
    var name := GradeLabel(GradeDigit(g));
    assert name[6] == name[..7][6] == GradeDigit(g);
    assert picked[6] == picked[..7][6] by {
      if picked == UnknownWithWound || picked == UnknownNoWound {
        assert picked[6] == Unknown[6] == 'U';
      }
    }
  }

  /** Without an explicit grade, the ladder is severity-ordered: the result
      is Grade g exactly when g is the highest grade whose keywords occur. */
  lemma KeywordLadder(analysisText: string, g: nat)
    requires !AnalysisUnavailable(analysisText)
    requires SearchGrade(Lower(analysisText)).None?
    requires g <= 5
    ensures WagnerGrade(analysisText) == GradeLabel(GradeDigit(g)) + Caveat <==>
              TopLevel(Lower(analysisText), GradeKeywords, g)
  {
    var lower := Lower(analysisText);
    AppendCancel(LadderLabel(lower), GradeLabel(GradeDigit(g)), Caveat);
    LadderTop(lower, g);
  }

  /** With no explicit grade and no grade keyword, the result says whether a
      wound or ulcer is mentioned at all. */
  lemma KeywordFallbacks(analysisText: string)
    requires !AnalysisUnavailable(analysisText)
    requires SearchGrade(Lower(analysisText)).None?
    requires NoLevel(Lower(analysisText), GradeKeywords)
    ensures WagnerGrade(analysisText) ==
              (if AnyOccurs(Lower(analysisText), WoundKeywords) then UnknownWithWound else UnknownNoWound) + Caveat
  {
    var lower := Lower(analysisText);
    assert forall h | 0 <= h <= 5 :: !AnyOccurs(lower, GradeKeywords[h]);
  }

  /** For example, "localized gangrene" outranks "superficial ulcer": with no
      explicit grade and no Grade 5 keyword, the result is Grade 4. */
  lemma LocalizedGangreneOutranksSuperficialUlcer(analysisText: string)
    requires !AnalysisUnavailable(analysisText)
    requires SearchGrade(Lower(analysisText)).None?
    requires !AnyOccurs(Lower(analysisText), GradeKeywords[5])
    requires Contains(Lower(analysisText), "localized gangrene")
    requires Contains(Lower(analysisText), "superficial ulcer")
    ensures WagnerGrade(analysisText) == GradeLabel('4') + Caveat
  {
    var lower := Lower(analysisText);
    assert GradeKeywords[4][1] == "localized gangrene";
    assert AnyOccurs(lower, GradeKeywords[4]);
  }
}
