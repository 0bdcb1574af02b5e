/** The `/api/affordable/<budget>` endpoint of `rag.py`: a listing without a
    `monthly_rent` key is read as +infinity and so never affordable. */
module Rag {
  import opened Wrappers
  import opened Seqs
  import opened Tables
  import opened Apartments

  /** The rent can be compared with the budget: absent, or a number
      (comparing text or `None` with a number raises). */
  predicate Comparable(apt: Row) { MONTHLY_RENT in apt ==> apt[MONTHLY_RENT].Num? }

  /** `apt.get('monthly_rent', float('inf')) <= budget`. */
  predicate Affordable(budget: nat, apt: Row)
  {
    MONTHLY_RENT in apt && apt[MONTHLY_RENT].Num? && apt[MONTHLY_RENT].x <= budget as real
  }

  /** The comprehension of `get_affordable_apartments`: exactly the
      listings whose rent is at most the budget, in order. */
  function AffordableApartments(apartments: seq<Row>, budget: nat): (r: seq<Row>)
    requires forall i :: 0 <= i < |apartments| ==> Comparable(apartments[i])
    ensures forall i :: 0 <= i < |r| ==> Affordable(budget, r[i])
    ensures forall apt :: multiset(r)[apt] ==
              if Affordable(budget, apt) then multiset(apartments)[apt] else 0
    ensures IsSubsequence(r, apartments)
  {
    var keep := apt => Affordable(budget, apt);
    FilterMultiset(apartments, keep);
    FilterIsSubsequence(apartments, keep);
    Filter(apartments, keep)
  }

  /** A listing without a rent is never returned. */
  lemma MissingRentExcluded(apartments: seq<Row>, budget: nat, apt: Row)
    requires forall i :: 0 <= i < |apartments| ==> Comparable(apartments[i])
    requires MONTHLY_RENT !in apt
    ensures apt !in AffordableApartments(apartments, budget)
  {
  }

  /** `get_affordable_apartments(budget)`: load, filter, and answer with the
      budget echoed and the count of the listings returned. */
  method GetAffordableApartments(source: Option<seq<Row>>, budget: nat) returns (resp: Response)
    ensures resp.budget == budget
    ensures resp.count == |resp.apartments|
    ensures resp.apartments == AffordableApartments(Loaded(source), budget)
    ensures source.None? ==> resp.apartments == []
  {
    var apartments := LoadApartments(source);
    var affordable := AffordableApartments(apartments, budget);
    resp := Response(budget, |affordable|, affordable);
  }
}
