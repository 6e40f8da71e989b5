# AIDFU wound-analysis text classifiers in Dafny

AIDFU is a small web service for diabetic foot ulcers. An image model describes a photo of a
wound in free text. Three classifiers then turn that text into three results:

- a bandage-change recommendation (`get_band_suggestion`);
- an estimated Wagner grade followed by a disclaimer (`estimate_wagner_grade`);
- a tissue-state key that the front end uses to pick a visualisation (`get_necrosis_visual_stage`).

The upload route also accepts only four image file types.

This project models these four pieces of `app.py` and proves what they guarantee.

Modules:

- `Text`: ASCII `str.lower()`, Python's `in` on strings as a substring predicate, and `str.join`.
- `Keywords`: the `k1 in s or k2 in s or ...` chains and the severity ladders built from them.
  A ladder tries its levels from most to least severe, and the first level with a keyword present wins.
- `Regex`: hand-written greedy matchers for the two regular expressions.
  - Each matcher is proved equal, in both directions, to a declarative reading of its pattern.
  - `re.search` is modelled as a leftmost search.
  - `float()` on a captured numeral is modelled as an exact rational.
- `Analysis`: the guard every classifier starts with. An empty analysis, or one with a failure marker, gets a fixed fallback.
- `Band`: `get_band_suggestion`.
  - It is an imperative method that appends lines and sets flags, as the source does.
  - It is proved against the function `SuggestionLines`, which lists the lines.
  - The layout lemmas are proved about that function. In them a "line" is an entry of the list `suggestions` that the source appends to and then joins with line feeds.
- `Wagner`: `estimate_wagner_grade`.
- `Necrosis`: `get_necrosis_visual_stage`.
- `Upload`: the file-extension check of the `/analyze` route.

## Model

| member | source | states |
|---|---|---|
| Analysis.AnalysisUnavailable | app.py:39-40 | The guard shared by all three classifiers (also app.py:120 and app.py:188): an empty text, or one containing a marker verbatim. Its ensures is a side fact: a non-empty text it refuses is at least as long as the shorter marker. What the guard means is stated by `Analysis.MarkersAreCaseSensitive` and `Analysis.CapitalTextIsUsable`. |
| Analysis.MarkersAreCaseSensitive | app.py:39-40 | The fallback guard matches its markers case-sensitively on the raw text. "Analysis failed" trips it; "ANALYSIS FAILED" does not. |
| Analysis.CapitalTextIsUsable | app.py:39-40 | The guard never refuses a non-empty text without small letters, such as "ANALYSIS FAILED": such a text goes on to be classified. |
| Text.Lower | app.py:46 | `lower()` keeps the length. It maps each character on its own (capitals to small letters, everything else unchanged) and leaves no capital. |
| Text.ContainsLower | app.py:191-193 | Any occurrence of a word in the raw text is an occurrence of the lower-cased word in the lower-cased text. |
| Text.Join | app.py:115 | `"\n".join(lines)` starts with the first line and contains every line. |
| Keywords.AnyOccursIff | app.py:67 | A chain of `k in s or ...` tests holds exactly when some keyword of the list occurs in the text. |
| Regex.Skip | app.py:51 | Greedy `\s*` / `\d*`: the run is all of the class and stops where the class stops. |
| Regex.SkipUnique | app.py:51 | A run that stops where its class stops is the greedy run. |
| Regex.SearchFrom | app.py:51 | `re.search` reports the first position where the pattern matches, with its captures. A miss means no position matches. |
| Regex.GradeAtAgrees | app.py:130 | The matcher for `grade\s*(\d)\s*:` matches at a position exactly when the pattern has a match there. The captured digit is the pattern's digit. |
| Regex.SearchGrade | app.py:130 | A reported grade match captures a digit and starts at "grade". Leftmost-ness and completeness are stated by SearchGradeLeftmost. |
| Regex.SearchGradeLeftmost | app.py:130 | The grade search returns a digit the pattern captures, at a start no later than any match of the pattern. A match exists whenever the pattern matches anywhere. |
| Regex.NumeralEnd | app.py:51 | Greedy `\d+\.?\d*` ends where the numeral ends. |
| Regex.NumeralEndUnique | app.py:51 | A numeral followed by neither a digit nor '.' is the greedy one. |
| Regex.SizeMatchAt | app.py:51 | Every match the size matcher reports is a match of `approx\.?\s*(\d+\.?\d*)\s*x\s*(\d+\.?\d*)\s*cm`. |
| Regex.SizeMatchAtComplete | app.py:51 | Every match of the size pattern is the one the matcher reports. |
| Regex.SearchSize | app.py:51 | Both captures of a reported size match are non-empty and start with a digit. Leftmost-ness and completeness are stated by SearchSizeLeftmost. |
| Regex.SearchSizeLeftmost | app.py:51 | The size search reports the leftmost match of the pattern with its two captures. A match exists whenever the pattern matches anywhere. |
| Regex.DigitsValue | app.py:54-55 | The value of k decimal digits is below 10^k. |
| Regex.ParseDecimal | app.py:54-55 | `float(t)` on the text the size pattern can capture: it gives a value exactly on `\d+\.?\d*` text. The value is the numeral read without its '.', divided by ten to the number of fraction digits, and it lies between the integer part and the integer part plus one. |
| Regex.ScaledDigits | app.py:54-55 | A run of digits read as a whole number with `ScaledValue` gives the same value as `DigitsValue`. |
| Regex.ScaledFraction | app.py:54-55 | Digits, a '.', then more digits, read with the '.' skipped, give the integer part shifted past the fraction digits plus the fraction digits. |
| Regex.NumeralShape | app.py:54-55 | Text is a whole numeral exactly when its greedy digit run is non-empty and either reaches the end or stops at a '.' followed by digits to the end. |
| Regex.NumeralSlice | app.py:54-55 | A captured numeral is still a numeral once cut out of the text. |
| Regex.SizeGroupsNumerals | app.py:51-55 | Both captures of a size match are whole numerals on their own. |
| Regex.SizeGroupsParse | app.py:53-64 | Both captures of a size match convert, so the `except ValueError` branch is never taken. |
| Band.BandSuggestion | app.py:37-115 | Gives the fixed fallback for an unusable analysis. Otherwise gives the `"\n"`-join of `SuggestionLines` of the lower-cased text. |
| Band.SizeLine | app.py:48-75 | The size line, whichever branch gives it, starts with the size tag "• *Size:*" and not with the replacement tag. |
| Band.ExudateLine | app.py:79-96 | The replacement line, whichever level gives it, starts with "• *Replacement" and not with the size tag. |
| Band.CareLines | app.py:98-113 | The closing entries are one or two of the warning, the note and the general-care text. |
| Band.AppendSizeLine | app.py:48-75 | Appends exactly one line, the size line: from the measured dimensions, else from size keywords, else "not clear". |
| Band.AppendReplacementLine | app.py:79-96 | Appends exactly one line: the replacement line of the most severe exudate level present, or "unclear". |
| Band.AppendCareLines | app.py:98-113 | Appends, in order, the infection warning if infection keywords occur, the necrotic-tissue note if necrosis keywords occur, and general care if there is no warning. |
| Band.OtherLinesUntagged | app.py:44-113 | The header, warning, note and general-care lines carry neither tag. |
| Band.CareLinesDistinct | app.py:105-113 | The warning, the note and the general-care line are three different strings. |
| Band.CareLayout | app.py:98-113 | The closing lines number one or two. The warning is present iff infection keywords occur, and then it comes first. The note is present iff necrosis keywords occur. General care is present iff there is no warning, and then it is last. |
| Band.TaggedLines | app.py:42-115 | Header, size line, replacement line, then untagged lines: each tag starts exactly one line. A closing line occurs in the whole iff it occurs among the closing lines. |
| Band.SuggestionLayout | app.py:42-115 | 3 to 5 lines. The header comes first. Line 1 is the only size line and line 2 is the only replacement line. The warning is present iff infection keywords occur, and it comes right after the replacement line. The note is present iff necrosis keywords occur. General care is present iff there is no warning, and then it is last. |
| Band.SizeLineFromMeasurement | app.py:51-62 | With a size match, both dimensions convert. "Might be larger" is given iff a dimension exceeds 7.6. "Likely fits" is given iff both are at most 7.6. |
| Band.BandageSideBoundary | app.py:54-57 | "7.6" converts to exactly the 7.6 threshold, so a 7.6 cm side is not larger; "7.61" converts to a value above it. |
| Band.SizeLineFromKeywords | app.py:66-75 | Without a size match: "large" wording gives the large line. Otherwise, "could not estimate" wording gives that line. Otherwise the line says "not clear". |
| Band.ExudatePriority | app.py:82-96 | The replacement line is level L's line iff L is the most severe exudate level with a keyword present (severe > moderate > mild > dry). It is "unclear" iff no level is present. |
| Wagner.GradeLabel | app.py:133-146 | "Grade d", with a description exactly when one is listed for d. |
| Wagner.LadderLabel | app.py:150-181 | Every label the keyword ladder gives starts with "Grade " (the grade labels and both "Grade Unknown" labels). |
| Wagner.PossibleGrade | app.py:129-181 | The label before the disclaimer always starts with "Grade ". |
| Wagner.WagnerGrade | app.py:118-183 | Gives the fixed fallback for an unusable analysis. Otherwise the result starts with "Grade " and ends with the disclaimer. |
| Wagner.DescribedDigits | app.py:136-143 | Descriptions exist for exactly the digits 0 to 5. |
| Wagner.ExplicitGradeFirst | app.py:130-147 | An explicit `grade d:` decides the result whatever keywords occur. The result is "Grade d", plus a description exactly when d is 0..5, then the disclaimer. |
| Wagner.LadderTop | app.py:150-173 | The ladder picks Grade g iff g is the most severe grade with a keyword present. |
| Wagner.KeywordLadder | app.py:149-183 | With no explicit grade, the result is Grade g plus the disclaimer iff g is the most severe grade with a keyword present. |
| Wagner.KeywordFallbacks | app.py:175-183 | With no grade keyword, the result is "Wound present ..." if "ulcer" or "wound" occurs, else "No wound characteristics detected". Either way the disclaimer follows. |
| Wagner.LocalizedGangreneOutranksSuperficialUlcer | app.py:155-169 | A text mentioning both "localized gangrene" and "superficial ulcer", with no explicit grade and no Grade 5 keyword, gets Grade 4. |
| Necrosis.StageOf | app.py:191-208 | The ladder after lower-casing returns one of the six visualisation keys. |
| Necrosis.NecrosisStage | app.py:186-208 | The result is one of the six keys. An unusable analysis gives "unknown". The result is "gangrene" iff the analysis is usable and mentions gangrene. |
| Necrosis.KeysDistinct | app.py:193-208 | The six keys are six different strings. |
| Necrosis.HealthyGuardRedundant | app.py:198-201 | Once the granulation test is reached, its inner guard always holds. |
| Necrosis.StageCases | app.py:192-208 | Gives the exact condition for each of "eschar", "slough", "healthy_granulation" and "no_ulcer". |
| Necrosis.HealthyExcludesSevere | app.py:198-201 | A "healthy_granulation" text mentions no gangrene, eschar, black tissue, slough or necrotic tissue. |
| Necrosis.NoUlcerExcludesTissue | app.py:202-205 | A "no_ulcer" text mentions no gangrene, eschar, slough or granulation. |
| Necrosis.GangreneAnyCase | app.py:191-193 | A usable analysis that contains "gangrene" in any letter case is classed "gangrene", whatever else it says. |
| Upload.FileExtension | app.py:228 | The extension has no '.' and no capital letter. It is empty when the name has no '.', and otherwise shorter than the name. |
| Upload.IsAllowedFile | app.py:229 | `file_ext in allowed_extensions`. Its ensures is a side fact: an accepted name has a '.' and at least four characters. What the check means is stated by `Upload.AllowedIff`. |
| Upload.LastDot | app.py:228 | Finds the last '.' of the name, or reports that there is none. |
| Upload.LastDotOfSplit | app.py:228 | In stem + "." + dot-free extension, the last '.' is the one before the extension. |
| Upload.ExtensionOfSplit | app.py:227-229 | The extension of stem + "." + dot-free ext is `ext` lower-cased. That name is accepted iff the lower-cased ext is png, jpg, jpeg or webp. |
| Upload.NoDotRejected | app.py:228-229 | A name without a '.' has the empty extension and is refused. |
| Upload.AllowedIff | app.py:227-229 | A name is accepted iff the text after its last '.', lower-cased, is an allowed type. |
| Upload.LastDotAt | app.py:228 | A '.' with no '.' after it is the one `rsplit('.', 1)` splits at. |
| Upload.AllowedEndsInAllowedType | app.py:228-229 | An accepted name has an allowed type after its last '.'. |
| Upload.EndsInAllowedTypeAllowed | app.py:228-229 | A name with an allowed type after its last '.' is accepted. |
| Upload.UpperCaseAccepted | app.py:228-229 | "scan.JPG" is accepted, because the extension is lower-cased first. |
| Upload.LastExtensionCounts | app.py:228-229 | "scan.png.exe" is refused, because only the text after the last '.' counts. |

## Left out

- Flask routing and the rest of `/analyze`: the request-field and empty-name checks, image decoding, the model call, JSON replies and the error-message text for a refused file type. These are I/O, or the only foreign call.
- The model call itself, the prompt text, the environment and CORS set-up, logging and `print`. These are I/O and configuration.
- `script.js` is not part of this model. It is front-end presentation.
- Text.Lower: ASCII lower-casing only. Python's `str.lower()` also maps non-ASCII capitals, and the model does not.
- Regex.IsSpace and Regex.IsDigit: they cover the ASCII members of Python's `\s` and `\d` only. Non-ASCII spaces and digits are not modelled.
- Regex.ParseDecimal: models `float()` only on text of the form `\d+\.?\d*`, the only text the size pattern captures. It gives None on other text that Python's `float()` accepts, such as ".5", "-2", "1e3", " 7 ", "inf" and "1_0". It also gives the exact decimal value. Python's `float()` rounds to binary, and the two can differ only within half an ulp of 7.6. Comparisons against 7.6 made that close are not modelled.
- Band.BandSuggestion: split into three section methods, one per numbered section of the source. The flags and appends are kept, so this is only structure.
- Text.Join: states only that the joined text starts with the first entry and contains every entry. It does not state that splitting the result at line feeds gives the entries back. The layout lemmas of `Band` speak of the appended entries, and the warning, note and general-care entries themselves begin with a line feed.
- The long message constants of `Band` (the header, the warning, the note and others) are written as a short opening literal joined to the rest of the text. The resulting strings are the source's, character for character. The split only lets the proofs read how a line starts.
- Wagner.WagnerGrade: the source spells each ladder label out as a literal. The model builds them as "Grade d: " plus the description table's entry. The two spellings are the same strings, character for character.
