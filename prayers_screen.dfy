/** The list logic of the prayers screen (src/features/prayers/screens/PrayersScreen.tsx):
    a category choice, then a text search, over the loaded prayers. */
module PrayersScreenModel {
  import opened Results
  import opened Types
  import opened Text
  import opened Ordering
  import opened Database

  /** The chip row: `'all'`, `'favorites'` or one category. */
  datatype CategoryChoice = ShowAll | ShowFavorites | ShowCategory(category: PrayerCategory)

  predicate Admits(choice: CategoryChoice, p: Prayer) {
    match choice
    case ShowAll => true
    case ShowFavorites => p.isFavorite
    case ShowCategory(c) => p.category == c
  }

  function AdmittedBy(choice: CategoryChoice): Prayer -> bool {
    (p: Prayer) => Admits(choice, p)
  }

  /** The search test: the three Latin-script fields are compared lower-cased, the Arabic
      text against the query exactly as typed. */
  predicate MatchesQuery(query: string, lower: StringMap, p: Prayer) {
    || Contains(lower(p.titleTr), lower(query))
    || Contains(p.arabicText, query)
    || Contains(lower(p.turkishTranslation), lower(query))
    || Contains(lower(p.transliteration), lower(query))
  }

  function QueryMatcher(query: string, lower: StringMap): Prayer -> bool {
    (p: Prayer) => MatchesQuery(query, lower, p)
  }

  /** `filterPrayers`: the category step (skipped for `'all'`), then the search step when
      the trimmed query is non-empty. */
  function FilterPrayers(prayers: seq<Prayer>, choice: CategoryChoice, query: string, lower: StringMap): seq<Prayer> {
    var byCategory := if choice == ShowAll then prayers else Filter(prayers, AdmittedBy(choice));
    if Trim(query) != "" then Filter(byCategory, QueryMatcher(query, lower)) else byCategory
  }

  /** Both steps together keep a prayer exactly when it passes the category test and,
      unless the query is blank, the search test. */
  predicate Shown(choice: CategoryChoice, query: string, lower: StringMap, p: Prayer) {
    Admits(choice, p) && (IsBlank(query) || MatchesQuery(query, lower, p))
  }

  function ShownBy(choice: CategoryChoice, query: string, lower: StringMap): Prayer -> bool {
    (p: Prayer) => Shown(choice, query, lower, p)
  }

  /** The two chained filters are one filter by the combined test, so the result is an
      order-preserving subsequence of the loaded list holding exactly the prayers that pass. */
  lemma FilterPrayersIsOneFilter(prayers: seq<Prayer>, choice: CategoryChoice, query: string, lower: StringMap)
    ensures FilterPrayers(prayers, choice, query, lower) == Filter(prayers, ShownBy(choice, query, lower))
    ensures IsSubsequence(FilterPrayers(prayers, choice, query, lower), prayers)
    ensures forall p :: p in FilterPrayers(prayers, choice, query, lower) <==> p in prayers && Shown(choice, query, lower, p)
  {
    var both := ShownBy(choice, query, lower);
    var byCategory := if choice == ShowAll then prayers else Filter(prayers, AdmittedBy(choice));
    if choice == ShowAll {
      FilterKeepsAll(prayers, AdmittedBy(choice));
    }
    assert byCategory == Filter(prayers, AdmittedBy(choice));
    if Trim(query) != "" {
      FilterTwice(prayers, AdmittedBy(choice), QueryMatcher(query, lower), both);
    } else {
      FilterTwice(prayers, AdmittedBy(choice), (p: Prayer) => true, both);
      FilterKeepsAll(byCategory, (p: Prayer) => true);
    }
    FilterIsSubsequence(prayers, both);
  }

  /** A blank query filters nothing: only the category step applies. */
  lemma BlankQueryFiltersNothing(prayers: seq<Prayer>, choice: CategoryChoice, query: string, lower: StringMap)
    requires IsBlank(query)
    ensures FilterPrayers(prayers, choice, query, lower) == if choice == ShowAll then prayers else Filter(prayers, AdmittedBy(choice))
  {
  }

  /** With `'all'` and a blank query the whole list shows; `'favorites'` shows exactly the
      favourites; a category shows exactly that category. */
  lemma ChoiceCases(prayers: seq<Prayer>, c: PrayerCategory, lower: StringMap, p: Prayer)
    ensures FilterPrayers(prayers, ShowAll, "", lower) == prayers
    ensures p in FilterPrayers(prayers, ShowFavorites, "", lower) <==> p in prayers && p.isFavorite
    ensures p in FilterPrayers(prayers, ShowCategory(c), "", lower) <==> p in prayers && p.category == c
  {
    assert Trim("") == "";
  }

  /** The Arabic text is searched case-sensitively with the raw query, the other fields
      through the lower-casing. */
  lemma SearchFields(query: string, lower: StringMap, p: Prayer)
    ensures Contains(p.arabicText, query) ==> MatchesQuery(query, lower, p)
    ensures MatchesQuery(query, lower, p) && !Contains(p.arabicText, query) ==>
              || Contains(lower(p.titleTr), lower(query))
              || Contains(lower(p.turkishTranslation), lower(query))
              || Contains(lower(p.transliteration), lower(query))
  {
  }

  class PrayersScreen {
    var prayers: seq<Prayer>
    var filtered: seq<Prayer>
    var loading: bool
    var searchQuery: string
    var selectedCategory: CategoryChoice
    const db: DatabaseService
    /** `String.prototype.toLowerCase`. */
    const lower: StringMap

    constructor (database: DatabaseService, toLower: StringMap)
      ensures db == database && lower == toLower
      ensures prayers == [] && filtered == [] && loading
      ensures searchQuery == "" && selectedCategory == ShowAll
      ensures Consistent()
    {
      db, lower := database, toLower;
      prayers, filtered := [], [];
      loading := true;
      searchQuery, selectedCategory := "", ShowAll;
    }

    /** The filtering effect has run on the current inputs. */
    predicate Consistent()
      reads this
    {
      filtered == FilterPrayers(prayers, selectedCategory, searchQuery, lower)
    }

    /** The list is what `getAllPrayers` returns now. */
    predicate Fresh()
      reads this, db
    {
      db.open && db.GetAllPrayers() == Ok(prayers)
    }

    method Refilter()
      modifies this`filtered
      ensures Consistent()
    {
      filtered := FilterPrayers(prayers, selectedCategory, searchQuery, lower);
    }

    /** `loadPrayers`, then the filtering effect. */
    method LoadPrayers()
      modifies this`prayers, this`filtered, this`loading
      ensures !loading && Consistent()
      ensures db.open ==> Fresh()
      ensures !db.open ==> prayers == old(prayers)
    {
      loading := true;
      var all := db.GetAllPrayers();
      if all.Ok? {
        prayers := all.value;
      }
      loading := false;
      Refilter();
    }

    method SetSearchQuery(q: string)
      modifies this`searchQuery, this`filtered
      ensures searchQuery == q && Consistent()
    {
      searchQuery := q;
      Refilter();
    }

    method SelectCategory(choice: CategoryChoice)
      modifies this`selectedCategory, this`filtered
      ensures selectedCategory == choice && Consistent()
    {
      selectedCategory := choice;
      Refilter();
    }

    /** `handleToggleFavorite(id)`: the database row first, then the same flip in the
        screen's list; a list fresh from the database stays fresh. */
    method HandleToggleFavorite(id: Id)
      modifies this`prayers, this`filtered, db`prayers
      ensures db.prayers == if db.open then ToggleFavoriteRows(old(db.prayers), id) else old(db.prayers)
      ensures prayers == if db.open then ToggleFavoriteRows(old(prayers), id) else old(prayers)
      ensures old(Consistent()) ==> Consistent()
      ensures old(Fresh()) ==> Fresh()
    {
      var r := db.TogglePrayerFavorite(id);
      if r.Failed? {
        return;
      }
      ToggleCommutesWithListing(old(db.prayers), id);
      prayers := ToggleFavoriteRows(prayers, id);
      Refilter();
    }
  }
}
