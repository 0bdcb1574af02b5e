/** The `/api/affordable/<budget>` endpoint of `fake_api.py`: the same loader
    as `rag.py`, but a listing without a `monthly_rent` key is read as rent 0
    and so is always affordable. */
module FakeApi {
  import opened Wrappers
  import opened Seqs
  import opened Tables
  import opened Apartments
  import Rag

  /** `apt.get('monthly_rent', 0) <= budget`. */
  predicate Affordable(budget: nat, apt: Row)
  {
    MONTHLY_RENT !in apt || (apt[MONTHLY_RENT].Num? && apt[MONTHLY_RENT].x <= budget as real)
  }

  /** The comprehension of `get_affordable_apartments`: exactly the
      listings whose rent is at most the budget, in order. */
  function AffordableApartments(apartments: seq<Row>, budget: nat): (r: seq<Row>)
    requires forall i :: 0 <= i < |apartments| ==> Rag.Comparable(apartments[i])
    ensures forall i :: 0 <= i < |r| ==> Affordable(budget, r[i])
    ensures forall apt :: multiset(r)[apt] ==
              if Affordable(budget, apt) then multiset(apartments)[apt] else 0
    ensures IsSubsequence(r, apartments)
  {
    var keep := apt => Affordable(budget, apt);
    FilterMultiset(apartments, keep);
    FilterIsSubsequence(apartments, keep);
    Filter(apartments, keep)
  }

  /** A listing without a rent is always returned, for every budget
      (budgets are non-negative). */
  lemma MissingRentIncluded(apartments: seq<Row>, budget: nat, apt: Row)
    requires forall i :: 0 <= i < |apartments| ==> Rag.Comparable(apartments[i])
    requires apt in apartments && MONTHLY_RENT !in apt
    ensures apt in AffordableApartments(apartments, budget)
  {
    assert multiset(apartments)[apt] > 0;
  }

  /** On what the loader returns every listing has a numeric rent, so the
      two endpoints answer alike: their different defaults never apply. */
  lemma AgreesWithRagOnLoadedListings(source: Option<seq<Row>>, budget: nat)
    ensures AffordableApartments(Loaded(source), budget) == Rag.AffordableApartments(Loaded(source), budget)
  {
    var apts := Loaded(source);
    FilterCongruent(apts, apt => Affordable(budget, apt), apt => Rag.Affordable(budget, apt));
  }

  /** The defaults differ: a listing without a rent is returned here and not by `rag.py`. */
  lemma DiffersFromRagOnMissingRent(budget: nat)
    ensures var apt := map["address" := Text("1 Main St")];
            AffordableApartments([apt], budget) == [apt]
            && Rag.AffordableApartments([apt], budget) == []
  {
    var apt := map["address" := Text("1 Main St")];
    assert MONTHLY_RENT !in apt;
  }

  /** `get_affordable_apartments(budget)`: load, filter, and answer with the
      budget echoed and the count of the listings returned. */
  method GetAffordableApartments(source: Option<seq<Row>>, budget: nat) returns (resp: Response)
    ensures resp.budget == budget
    ensures resp.count == |resp.apartments|
    ensures resp.apartments == AffordableApartments(Loaded(source), budget)
    ensures source.None? ==> resp.apartments == []
  {
    var apartments := LoadApartments(source);
    var affordable := AffordableApartments(apartments, budget);
    resp := Response(budget, |affordable|, affordable);
  }
}
