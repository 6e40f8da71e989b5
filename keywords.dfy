/** Keyword tests as the classifiers write them: `k1 in s or k2 in s or ...`,
    and severity ladders, where the levels are tried from the most severe down
    and the first level with a keyword present wins. */
module Keywords {
  import opened Text

  /** `k1 in s or k2 in s or ...` over the list `keywords`, tried in order. */
  predicate AnyOccurs(s: string, keywords: seq<string>)
  {
    |keywords| > 0 && (Contains(s, keywords[0]) || AnyOccurs(s, keywords[1..]))
  }

  /** The chain of `or`s holds exactly when some keyword of the list occurs. */
  lemma {:induction false} AnyOccursIff(s: string, keywords: seq<string>)
    ensures AnyOccurs(s, keywords) <==> exists k | k in keywords :: Contains(s, k)
    decreases |keywords|
  {
    if |keywords| > 0 {
      AnyOccursIff(s, keywords[1..]);
      assert forall k | k in keywords[1..] :: k in keywords;
      assert forall k | k in keywords && k != keywords[0] :: k in keywords[1..];
    }
  }

  /** Level `g` of `ladder` (levels listed from least to most severe) is the
      most severe level with a keyword present in `s`. */
  predicate TopLevel(s: string, ladder: seq<seq<string>>, g: nat)
  {
    g < |ladder| && AnyOccurs(s, ladder[g])
    && forall h | g < h < |ladder| :: !AnyOccurs(s, ladder[h])
  }

  /** No level of `ladder` has a keyword present in `s`. */
  predicate NoLevel(s: string, ladder: seq<seq<string>>)
  {
    forall h | 0 <= h < |ladder| :: !AnyOccurs(s, ladder[h])
  }
}
