/** The search rule of the city picker (src/components/SimpleCityPicker.tsx). */
module CityPicker {
  import opened Results
  import opened Types
  import opened Text
  import opened Ordering
  import opened Location

  /** `normalize` of the picker: Turkish lower-casing, trim, the six letters folded (no
      NFD step here, unlike the location service). */
  function PickerNormalize(value: string, lowerTr: StringMap): (r: string)
    ensures forall i :: 0 <= i < |r| ==> !IsTurkishLetter(r[i])
    ensures r == "" <==> IsBlank(lowerTr(value))
  {
    var t := Trim(lowerTr(value));
    FoldTurkishPointwise(t);
    FoldTurkish(t)
  }

  function NameContains(query: string, lowerTr: StringMap): City -> bool {
    (c: City) => Contains(PickerNormalize(c.name, lowerTr), query)
  }

  /** `filteredCities`: the whole gazetteer for an empty query, otherwise the cities whose
      normalised name contains the normalised query. */
  function FilteredCities(searchQuery: string, states: seq<City>, lowerTr: StringMap): seq<City> {
    if searchQuery == "" then states
    else Filter(states, NameContains(PickerNormalize(searchQuery, lowerTr), lowerTr))
  }

  /** The result keeps gazetteer order and holds exactly the matching cities. */
  lemma FilteredCitiesSpec(searchQuery: string, states: seq<City>, lowerTr: StringMap)
    ensures IsSubsequence(FilteredCities(searchQuery, states, lowerTr), states)
    ensures searchQuery == "" ==> FilteredCities(searchQuery, states, lowerTr) == states
    ensures searchQuery != "" ==> forall c :: c in FilteredCities(searchQuery, states, lowerTr) <==>
              c in states && Contains(PickerNormalize(c.name, lowerTr), PickerNormalize(searchQuery, lowerTr))
  {
    if searchQuery == "" {
      FilterKeepsAll(states, (c: City) => true);
      FilterIsSubsequence(states, (c: City) => true);
    } else {
      FilterIsSubsequence(states, NameContains(PickerNormalize(searchQuery, lowerTr), lowerTr));
    }
  }

  /** A query that lower-cases to white space normalises to "" and so lists every city. */
  lemma BlankQueryListsAll(searchQuery: string, states: seq<City>, lowerTr: StringMap)
    requires IsBlank(lowerTr(searchQuery))
    ensures PickerNormalize(searchQuery, lowerTr) == ""
    ensures FilteredCities(searchQuery, states, lowerTr) == states
  {
    if searchQuery != "" {
      forall i | 0 <= i < |states| ensures NameContains("", lowerTr)(states[i]) {
        ContainsTrivial(PickerNormalize(states[i].name, lowerTr));
      }
      FilterKeepsAll(states, NameContains("", lowerTr));
    }
  }
}
