/** City lookup of src/services/locationService.ts: name normalisation, gazetteer matching
    and the candidate loop of `getCurrentCity`. The gazetteer (`TURKISH_STATES`), Turkish
    lower-casing and NFD decomposition are inputs; the device calls are an outcome value. */
module Location {
  import opened Results
  import opened Types
  import opened Text
  import opened Ordering

  /** `s.replace(/from/g, to)` for a single character. */
  function ReplaceChar(s: string, from: char, to: char): (r: string)
    ensures |r| == |s|
    ensures forall i :: 0 <= i < |s| ==> r[i] == if s[i] == from then to else s[i]
  {
    seq(|s|, i requires 0 <= i < |s| => if s[i] == from then to else s[i])
  }

  /** The six Turkish letters that the chain of replaces folds. */
  predicate IsTurkishLetter(c: char) {
    c == 'ı' || c == 'ş' || c == 'ğ' || c == 'ç' || c == 'ö' || c == 'ü'
  }

  /** ı→i, ş→s, ğ→g, ç→c, ö→o, ü→u, in that order. */
  function FoldTurkish(s: string): string {
    ReplaceChar(ReplaceChar(ReplaceChar(ReplaceChar(ReplaceChar(ReplaceChar(
      s, 'ı', 'i'), 'ş', 's'), 'ğ', 'g'), 'ç', 'c'), 'ö', 'o'), 'ü', 'u')
  }

  /** The folded letter of each character. */
  function FoldChar(c: char): char {
    if c == 'ı' then 'i' else if c == 'ş' then 's' else if c == 'ğ' then 'g'
    else if c == 'ç' then 'c' else if c == 'ö' then 'o' else if c == 'ü' then 'u' else c
  }

  /** The chain folds character by character, leaves no Turkish letter behind and keeps
      every other character. */
  lemma FoldTurkishPointwise(s: string)
    ensures |FoldTurkish(s)| == |s|
    ensures forall i :: 0 <= i < |s| ==> FoldTurkish(s)[i] == FoldChar(s[i])
    ensures forall i :: 0 <= i < |s| ==> !IsTurkishLetter(FoldTurkish(s)[i])
    ensures forall i :: 0 <= i < |s| && !IsTurkishLetter(s[i]) ==> FoldTurkish(s)[i] == s[i]
  {
  }

  /** Folding is idempotent and keeps the empty string empty. */
  lemma FoldTurkishIdempotent(s: string)
    ensures FoldTurkish(FoldTurkish(s)) == FoldTurkish(s)
    ensures FoldTurkish("") == ""
  {
    FoldTurkishPointwise(s);
    FoldTurkishPointwise(FoldTurkish(s));
  }

  /** U+0300 to U+036F, the combining diacritical marks. */
  predicate IsCombiningMark(c: char) {
    '\U{300}' <= c <= '\U{36F}'
  }

  function NotCombining(c: char): bool {
    !IsCombiningMark(c)
  }

  /** `normalize` of the location service: Turkish lower-casing, NFD, marks removed, the six
      letters folded. */
  function NormalizeName(value: string, lowerTr: StringMap, nfd: StringMap): (r: string)
    ensures forall i :: 0 <= i < |r| ==> !IsTurkishLetter(r[i]) && !IsCombiningMark(r[i])
  {
    var stripped := Filter(nfd(lowerTr(value)), NotCombining);
    FoldTurkishPointwise(stripped);
    var r := FoldTurkish(stripped);
    assert forall i :: 0 <= i < |stripped| ==> !IsCombiningMark(stripped[i]);
    r
  }

  /** The test inside `findCityByName`'s `find`. */
  predicate CityMatches(c: City, normalized: string, lowerTr: StringMap, nfd: StringMap) {
    NormalizeName(c.name, lowerTr, nfd) == normalized || NormalizeName(c.stateName, lowerTr, nfd) == normalized
  }

  function Matcher(normalized: string, lowerTr: StringMap, nfd: StringMap): City -> bool {
    (c: City) => CityMatches(c, normalized, lowerTr, nfd)
  }

  /** `findCityByName`. */
  function FindCityByName(name: string, states: seq<City>, lowerTr: StringMap, nfd: StringMap): (r: Option<City>)
    ensures r.Some? ==> r.value in states
    ensures r.Some? ==> CityMatches(r.value, NormalizeName(name, lowerTr, nfd), lowerTr, nfd)
    ensures r.None? <==> forall c :: c in states ==> !CityMatches(c, NormalizeName(name, lowerTr, nfd), lowerTr, nfd)
  {
    FirstWhere(states, Matcher(NormalizeName(name, lowerTr, nfd), lowerTr, nfd))
  }

  /** `find` returns the first match: every earlier entry of the gazetteer fails the test. */
  lemma FindCityByNameIsFirst(name: string, states: seq<City>, lowerTr: StringMap, nfd: StringMap) returns (k: nat)
    requires FindCityByName(name, states, lowerTr, nfd).Some?
    ensures k < |states| && states[k] == FindCityByName(name, states, lowerTr, nfd).value
    ensures forall j :: 0 <= j < k ==> !CityMatches(states[j], NormalizeName(name, lowerTr, nfd), lowerTr, nfd)
  {
    k := FirstWhereIsFirst(states, Matcher(NormalizeName(name, lowerTr, nfd), lowerTr, nfd));
  }

  /** The fields of the first reverse-geocoding result that the service reads. */
  datatype Placemark = Placemark(city: Option<string>, district: Option<string>, subregion: Option<string>, region: Option<string>)

  /** What the device calls produced: the permission was refused, a call threw, or the
      placemarks came back. */
  datatype GeoOutcome = PermissionDenied | LookupFailed | Placemarks(results: seq<Placemark>)

  /** `[city, district, subregion, region].filter(Boolean)`. */
  function Candidates(pm: Placemark): (r: seq<string>)
    ensures |r| <= 4
    ensures forall i :: 0 <= i < |r| ==> r[i] != ""
  {
    (if Truthy(pm.city) then [pm.city.value] else [])
    + (if Truthy(pm.district) then [pm.district.value] else [])
    + (if Truthy(pm.subregion) then [pm.subregion.value] else [])
    + (if Truthy(pm.region) then [pm.region.value] else [])
  }

  /** The city of the first candidate name that matches any entry. */
  function FirstCandidateCity(names: seq<string>, states: seq<City>, lowerTr: StringMap, nfd: StringMap): (r: Option<City>)
    ensures r.Some? ==> r.value in states
    ensures r.None? <==> forall i :: 0 <= i < |names| ==> FindCityByName(names[i], states, lowerTr, nfd).None?
  {
    if names == [] then None
    else
      match FindCityByName(names[0], states, lowerTr, nfd)
      case Some(c) => Some(c)
      case None =>
        var r := FirstCandidateCity(names[1..], states, lowerTr, nfd);
        assert forall i :: 1 <= i < |names| ==> names[i] == names[1..][i - 1];
        r
  }

  /** `getCurrentCity`: null on a refused permission, a failed call, no placemarks or no
      match; otherwise the lookup of the first candidate name that finds a city. */
  method GetCurrentCity(outcome: GeoOutcome, states: seq<City>, lowerTr: StringMap, nfd: StringMap)
    returns (r: Option<City>)
    ensures outcome.PermissionDenied? || outcome.LookupFailed? ==> r.None?
    ensures outcome.Placemarks? && outcome.results == [] ==> r.None?
    ensures outcome.Placemarks? && outcome.results != [] ==>
              r == FirstCandidateCity(Candidates(outcome.results[0]), states, lowerTr, nfd)
    ensures r.Some? ==> r.value in states
  {
    if outcome.PermissionDenied? || outcome.LookupFailed? {
      return None;
    }
    if |outcome.results| == 0 {
      return None;
    }
    var names := Candidates(outcome.results[0]);
    for i := 0 to |names|
      invariant FirstCandidateCity(names, states, lowerTr, nfd) == FirstCandidateCity(names[i..], states, lowerTr, nfd)
    {
      var matched := FindCityByName(names[i], states, lowerTr, nfd);
      if matched.Some? {
        return matched;
      }
      assert names[i..][1..] == names[i + 1..];
    }
    return None;
  }
}
