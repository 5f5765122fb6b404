/**
 * The filter editor (src/components/FilterModal.jsx): a list of selected countries, a score range
 * edited by two guarded sliders, and a country search; applying it hands the dashboard a `FilterSpec`.
 */
module FilterModal {
  import opened Wrappers
  import Seqs
  import Text
  import opened Dashboard

  /** The countries the editor offers, in display order. */
  const Countries: seq<string> := [
    "India",
    "United Kingdom",
    "United States of America",
    "Taiwan",
    "France",
    "Saudi Arabia",
    "Germany",
    "Singapore",
    "China"
  ]

  /** The range the sliders start from and reset to. */
  const FullRange := ScoreRange(0, 100)

  /** A range the two sliders can show: both ends on the 0..100 track, the lower one first. */
  predicate Ordered(range: ScoreRange) {
    0 <= range.min <= range.max <= 100
  }

  // ---------------------------------------------------------------- selected countries

  /** `handleLocationToggle`: a selected country is removed, any other one appended at the end. */
  function Toggled(selected: seq<string>, country: string): (r: seq<string>)
    ensures country in r <==> country !in selected
    ensures forall c :: c != country ==> (c in r <==> c in selected)
    ensures country !in selected ==> r == selected + [country]
  {
    if country in selected then Seqs.Remove(selected, country) else selected + [country]
  }

  /** No country occurs twice. */
  ghost predicate Distinct(s: seq<string>) {
    forall c :: multiset(s)[c] <= 1
  }

  /** Toggling keeps a list of distinct countries distinct. */
  lemma ToggleKeepsDistinct(selected: seq<string>, country: string)
    requires Distinct(selected)
    ensures Distinct(Toggled(selected, country))
  {
    if country in selected {
      Seqs.RemoveMultiset(selected, country);
    } else {
      assert multiset(selected + [country]) == multiset(selected) + multiset{country};
    }
  }

  /** Toggling an unselected country twice gives back exactly the original list. */
  lemma ToggleTwiceAbsent(selected: seq<string>, country: string)
    requires country !in selected
    ensures Toggled(Toggled(selected, country), country) == selected
  {
    Seqs.RemoveAppended(selected, country);
  }

  /**
   * Toggling a selected country twice keeps the same countries, with that one moved to the end;
   * on a list without duplicates the result is a permutation of the original.
   */
  lemma ToggleTwicePresent(selected: seq<string>, country: string)
    requires country in selected && Distinct(selected)
    ensures Toggled(Toggled(selected, country), country) == Seqs.Remove(selected, country) + [country]
    ensures multiset(Toggled(Toggled(selected, country), country)) == multiset(selected)
  {
    var removed := Seqs.Remove(selected, country);
    Seqs.RemoveMultiset(selected, country);
    assert multiset(selected)[country] == 1;
    assert multiset(removed + [country]) == multiset(removed) + multiset{country};
  }

  // ---------------------------------------------------------------- the score sliders

  /** The minimum slider's handler: the new minimum is taken only when it does not pass the maximum. */
  function WithMin(range: ScoreRange, value: int): (r: ScoreRange)
    ensures r.max == range.max
    ensures r.min == (if value <= range.max then value else range.min)
    ensures Ordered(range) && 0 <= value <= 100 ==> Ordered(r)
  {
    if value <= range.max then ScoreRange(value, range.max) else range
  }

  /** The maximum slider's handler: the new maximum is taken only when it is not below the minimum. */
  function WithMax(range: ScoreRange, value: int): (r: ScoreRange)
    ensures r.min == range.min
    ensures r.max == (if value >= range.min then value else range.max)
    ensures Ordered(range) && 0 <= value <= 100 ==> Ordered(r)
  {
    if value >= range.min then ScoreRange(range.min, value) else range
  }

  /** Any sequence of slider moves from an ordered range leaves the range ordered. */
  lemma {:induction false} SlidersKeepOrder(range: ScoreRange, moves: seq<(bool, int)>)
    requires Ordered(range)
    requires forall i :: 0 <= i < |moves| ==> 0 <= moves[i].1 <= 100
    ensures Ordered(Slide(range, moves))
    decreases |moves|
  {
    if moves != [] {
      var next := if moves[0].0 then WithMin(range, moves[0].1) else WithMax(range, moves[0].1);
      SlidersKeepOrder(next, moves[1..]);
    }
  }

  /** The range after the slider moves `moves` (`true` for the minimum slider) are applied in order. */
  function Slide(range: ScoreRange, moves: seq<(bool, int)>): ScoreRange
    decreases |moves|
  {
    if moves == [] then range
    else
      var next := if moves[0].0 then WithMin(range, moves[0].1) else WithMax(range, moves[0].1);
      Slide(next, moves[1..])
  }

  // ---------------------------------------------------------------- counting and searching

  /** `activeFilterCount`: one per selected country, plus one when the range is narrower than 0..100. */
  function ActiveFilterCount(selected: seq<string>, range: ScoreRange): (n: nat)
    ensures |selected| <= n <= |selected| + 1
    ensures n == |selected| <==> range.min <= 0 && range.max >= 100
    ensures n == 0 <==> selected == [] && range.min <= 0 && range.max >= 100
  {
    |selected| + (if range.min > 0 || range.max < 100 then 1 else 0)
  }

  /** A country whose lower-cased name contains the lower-cased search text. */
  function CountryMatches(term: string): string -> bool {
    (c: string) => Text.Contains(Text.Lower(c), Text.Lower(term))
  }

  /** `filteredCountries`: the matching countries, in display order. */
  function FilteredCountries(countries: seq<string>, term: string): (r: seq<string>)
    ensures Seqs.IsSubsequence(r, countries)
    ensures forall c :: c in r <==> c in countries && CountryMatches(term)(c)
  {
    Seqs.FilterIsSubsequence(countries, CountryMatches(term));
    Seqs.Filter(countries, CountryMatches(term))
  }

  /** An empty search lists every country. */
  lemma EmptySearchListsAll(countries: seq<string>)
    ensures FilteredCountries(countries, []) == countries
  {
    forall c | c in countries ensures CountryMatches([])(c) {
      Text.ContainsEmpty(Text.Lower(c));
    }
    Seqs.FilterKeepsAll(countries, CountryMatches([]));
  }

  /** The search ignores case: typing `IND` finds India. */
  lemma SearchIgnoresCase()
    ensures "India" in FilteredCountries(Countries, "IND")
  {
    assert Text.Lower("IND") == "ind";
    assert Text.Lower("India")[0..3] == "ind";
    assert Text.OccursAt(Text.Lower("India"), "ind", 0);
    assert CountryMatches("IND")("India");
  }

  // ---------------------------------------------------------------- the editor state

  /** The editor's state. */
  class FilterPanel {
    var selectedLocations: seq<string>
    var scoreRange: ScoreRange
    var searchTerm: string

    /** The sliders' range is ordered and on the track. */
    ghost predicate Valid()
      reads this
    {
      Ordered(scoreRange)
    }

    /** The first render: state taken from the initial filters, empty search. */
    constructor (initial: FilterSpec)
      ensures selectedLocations == initial.locations && scoreRange == initial.score.GetOr(FullRange)
      ensures searchTerm == []
    {
      selectedLocations := initial.locations;
      scoreRange := initial.score.GetOr(FullRange);
      searchTerm := [];
    }

    /** The open effect: selection and range re-read from the filters in force; the search text stays. */
    method Open(initial: FilterSpec)
      modifies this`selectedLocations, this`scoreRange
      ensures selectedLocations == initial.locations && scoreRange == initial.score.GetOr(FullRange)
      ensures initial.score.Some? && Ordered(initial.score.value) ==> Valid()
    {
      selectedLocations := initial.locations;
      scoreRange := initial.score.GetOr(FullRange);
    }

    /** The countries listed under the search box. */
    function ShownCountries(): seq<string>
      reads this
    {
      FilteredCountries(Countries, searchTerm)
    }

    /** The number on the filter badge. */
    function Count(): nat
      reads this
    {
      ActiveFilterCount(selectedLocations, scoreRange)
    }

    method ToggleLocation(country: string)
      modifies this`selectedLocations
      ensures selectedLocations == Toggled(old(selectedLocations), country)
    {
      selectedLocations := Toggled(selectedLocations, country);
    }

    /** The minimum slider; the browser hands it an integer on the slider's 0..100 track. */
    method SetMin(value: int)
      requires 0 <= value <= 100
      modifies this`scoreRange
      ensures scoreRange == WithMin(old(scoreRange), value)
      ensures old(Valid()) ==> Valid()
    {
      if value <= scoreRange.max {
        scoreRange := ScoreRange(value, scoreRange.max);
      }
    }

    /** The maximum slider. */
    method SetMax(value: int)
      requires 0 <= value <= 100
      modifies this`scoreRange
      ensures scoreRange == WithMax(old(scoreRange), value)
      ensures old(Valid()) ==> Valid()
    {
      if value >= scoreRange.min {
        scoreRange := ScoreRange(scoreRange.min, value);
      }
    }

    /** `clearAllFilters`: nothing selected, full range, no active filter left. */
    method ClearAll()
      modifies this`selectedLocations, this`scoreRange
      ensures selectedLocations == [] && scoreRange == FullRange
      ensures Valid() && Count() == 0
    {
      selectedLocations := [];
      scoreRange := FullRange;
    }

    /** The Clear link of the location section. */
    method ClearLocations()
      modifies this`selectedLocations
      ensures selectedLocations == []
    {
      selectedLocations := [];
    }

    /** The Reset link of the score section. */
    method ResetScore()
      modifies this`scoreRange
      ensures scoreRange == FullRange && Valid()
    {
      scoreRange := FullRange;
    }

    method SetSearch(text: string)
      modifies this`searchTerm
      ensures searchTerm == text
    {
      searchTerm := text;
    }

    /** `clearSearch`: every country is listed again. */
    method ClearSearch()
      modifies this`searchTerm
      ensures searchTerm == [] && ShownCountries() == Countries
    {
      searchTerm := [];
      EmptySearchListsAll(Countries);
    }

    /** `handleApply`: exactly the selected countries and the current range. */
    method Apply() returns (spec: FilterSpec)
      ensures spec == FilterSpec(selectedLocations, Some(scoreRange))
    {
      spec := FilterSpec(selectedLocations, Some(scoreRange));
    }
  }

  /** Applying right after clearing everything hands the dashboard its starting filters. */
  method ClearAllThenApply(panel: FilterPanel) returns (spec: FilterSpec)
    modifies panel
    ensures spec == NoFilters
  {
    panel.ClearAll();
    spec := panel.Apply();
  }

  /** Opening on the filters in force and applying at once changes nothing. */
  method OpenThenApply(panel: FilterPanel, active: FilterSpec) returns (spec: FilterSpec)
    requires active.score.Some?
    modifies panel
    ensures spec == active
  {
    panel.Open(active);
    spec := panel.Apply();
  }
}
