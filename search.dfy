/**
  The client-side search the three grids run over the loaded records: a
  column matches when it is a string that contains the term, compared either
  case-insensitively (lower-cased on both sides) or as typed.
 */
module Search {
  import opened Js
  import opened JsText

  /** `r.k?.toLowerCase().includes(lowerTerm)`; a column that is absent or not
      a string never matches. */
  predicate TextIncludes(r: Record, k: string, lowerTerm: string) {
    Get(r, k).Str? && Includes(Lower(Get(r, k).s), lowerTerm)
  }

  /** `r.k?.includes(term)`, the term as typed. */
  predicate RawIncludes(r: Record, k: string, term: string) {
    Get(r, k).Str? && Includes(Get(r, k).s, term)
  }

  /** The case of the term does not matter to a lower-cased comparison. */
  lemma TextIncludesIgnoresCase(r: Record, k: string, term: string)
    ensures TextIncludes(r, k, Lower(Upper(term))) <==> TextIncludes(r, k, Lower(term))
  {
    LowerOfUpper(term);
  }

  /** A string column matches the empty term, an absent column matches nothing. */
  lemma IncludesEdges(r: Record, k: string, term: string)
    ensures Get(r, k).Str? ==> TextIncludes(r, k, "") && RawIncludes(r, k, "")
    ensures k !in r ==> !TextIncludes(r, k, term) && !RawIncludes(r, k, term)
  {
    if Get(r, k).Str? {
      IncludesEmpty(Lower(Get(r, k).s));
      IncludesEmpty(Get(r, k).s);
    }
  }
}
