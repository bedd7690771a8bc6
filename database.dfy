/** The persistence service (src/core/database/index.ts): three tables kept in insertion
    (rowid) order, a handle that is open or not, and an initialised flag. Every query is a
    function of the tables; every write is a method that changes one table. */
module Database {
  import opened Results
  import opened Types
  import opened Text
  import opened Ordering
  import Constants

  /** 'Database not initialized' (no handle) and 'Failed to initialize database'. */
  datatype DbError = NotInitialized | InitFailed

  /** The step at which `initialize` throws, if any. */
  datatype InitFault = NoFault | OpenFault | SchemaFault | ZikirSeedFault | PrayerSeedFault

  // ---------------------------------------------------------------- zikirs

  /** A counter as it reads back from its row: `arabicText || ''` and
      `transliteration || ''` were written, so absent texts come back as ''. */
  function AsStored(z: Zikir): (r: Zikir)
    ensures r.arabicText == Some(OrEmpty(z.arabicText))
    ensures r.transliteration == Some(OrEmpty(z.transliteration))
    ensures r.(arabicText := z.arabicText, transliteration := z.transliteration) == z
  {
    z.(arabicText := Some(OrEmpty(z.arabicText)), transliteration := Some(OrEmpty(z.transliteration)))
  }

  /** What `createZikir` returns: the draft plus the new id and creation time. */
  function Created(d: ZikirDraft, s: Stamp): (z: Zikir)
    ensures z.id == s.id && z.createdAt == s.at
    ensures ZikirDraft(z.name, z.arabicText, z.transliteration, z.count, z.target, z.isCustom) == d
  {
    Zikir(s.id, d.name, d.arabicText, d.transliteration, d.count, d.target, d.isCustom, s.at)
  }

  /** The row `INSERT INTO zikirs` writes for a draft. */
  function ZikirRow(d: ZikirDraft, s: Stamp): (z: Zikir)
    ensures z == AsStored(Created(d, s))
  {
    Zikir(s.id, d.name, Some(OrEmpty(d.arabicText)), Some(OrEmpty(d.transliteration)),
          d.count, d.target, d.isCustom, s.at)
  }

  predicate IsBuiltIn(z: Zikir) {
    !z.isCustom
  }

  /** `SELECT * FROM zikirs WHERE isCustom = 0`. */
  function BuiltIns(rows: seq<Zikir>): seq<Zikir> {
    Filter(rows, IsBuiltIn)
  }

  /** The rows the seeding loop inserts for `defs`, one stamp per entry. */
  function SeedRows(defs: seq<ZikirDraft>, stamps: seq<Stamp>): (r: seq<Zikir>)
    requires |defs| <= |stamps|
    ensures |r| == |defs|
    ensures forall i :: 0 <= i < |defs| ==> r[i] == ZikirRow(defs[i], stamps[i])
  {
    if defs == [] then []
    else SeedRows(defs[..|defs| - 1], stamps) + [ZikirRow(defs[|defs| - 1], stamps[|defs| - 1])]
  }

  /** One more pass of the seeding loop inserts the next entry. */
  lemma SeedRowsStep(defs: seq<ZikirDraft>, stamps: seq<Stamp>, i: nat)
    requires i < |defs| <= |stamps|
    ensures SeedRows(defs[..i + 1], stamps) == SeedRows(defs[..i], stamps) + [ZikirRow(defs[i], stamps[i])]
  {
    assert defs[..i + 1][..i] == defs[..i];
  }

  /** The counters table after `seedDefaultZikirs`: the defaults are appended only when
      no built-in row exists. */
  function SeededZikirs(rows: seq<Zikir>, stamps: seq<Stamp>): seq<Zikir>
    requires |Constants.DefaultZikirs| <= |stamps|
  {
    if |BuiltIns(rows)| == 0 then rows + SeedRows(Constants.DefaultZikirs, stamps) else rows
  }

  /** Seeding inserts every default, each under its own stamp, not custom and at zero. */
  lemma SeedZikirsInsertsDefaults(rows: seq<Zikir>, stamps: seq<Stamp>)
    requires |Constants.DefaultZikirs| <= |stamps|
    requires |BuiltIns(rows)| == 0
    ensures SeededZikirs(rows, stamps)[..|rows|] == rows
    ensures |SeededZikirs(rows, stamps)| == |rows| + 5
    ensures forall i :: 0 <= i < 5 ==>
              var z := SeededZikirs(rows, stamps)[|rows| + i];
              && z.id == stamps[i].id && z.createdAt == stamps[i].at
              && z.name == Constants.DefaultZikirs[i].name
              && z.target == Constants.DefaultZikirs[i].target
              && z.count == 0 && !z.isCustom
  {
    Constants.DefaultZikirsShape();
  }

  /** A second seeding adds nothing, whatever stamps it is given. */
  lemma SeedZikirsIdempotent(rows: seq<Zikir>, s1: seq<Stamp>, s2: seq<Stamp>)
    requires |Constants.DefaultZikirs| <= |s1| && |Constants.DefaultZikirs| <= |s2|
    ensures SeededZikirs(SeededZikirs(rows, s1), s2) == SeededZikirs(rows, s1)
  {
    var once := SeededZikirs(rows, s1);
    if |BuiltIns(rows)| == 0 {
      var first := once[|rows|];
      assert first == ZikirRow(Constants.DefaultZikirs[0], s1[0]);
      assert first in once && IsBuiltIn(first);
      assert first in BuiltIns(once);
    }
  }

  /** Seeding only runs while no built-in row exists: once one exists the table is left as is,
      even when other built-ins were deleted. */
  lemma SeedZikirsSkippedWithBuiltIn(rows: seq<Zikir>, stamps: seq<Stamp>, z: Zikir)
    requires |Constants.DefaultZikirs| <= |stamps|
    requires z in rows && !z.isCustom
    ensures SeededZikirs(rows, stamps) == rows
  {
    assert z in BuiltIns(rows);
  }

  /** `createdAt ASC`. */
  predicate CreatedNoLater(a: Zikir, b: Zikir) {
    a.createdAt <= b.createdAt
  }

  /** `SELECT * FROM zikirs WHERE id = ?`, first match. */
  function FindZikir(rows: seq<Zikir>, id: Id): (r: Option<Zikir>)
    ensures r.Some? ==> r.value in rows && r.value.id == id
    ensures r.None? <==> forall z :: z in rows ==> z.id != id
  {
    if rows == [] then None
    else if rows[0].id == id then Some(rows[0])
    else FindZikir(rows[1..], id)
  }

  /** `UPDATE zikirs SET count = ? WHERE id = ?`. */
  function SetCount(rows: seq<Zikir>, id: Id, count: int): seq<Zikir> {
    seq(|rows|, i requires 0 <= i < |rows| => if rows[i].id == id then rows[i].(count := count) else rows[i])
  }

  /** `UPDATE zikirs SET target = ? WHERE id = ?`. */
  function SetTarget(rows: seq<Zikir>, id: Id, target: int): seq<Zikir> {
    seq(|rows|, i requires 0 <= i < |rows| => if rows[i].id == id then rows[i].(target := target) else rows[i])
  }

  /** The count update overwrites exactly the count of the rows with that id, without
      clamping: `getZikirById` then reports the new count, and every other id reads as
      before. */
  lemma SetCountOnlyThatRow(rows: seq<Zikir>, id: Id, count: int)
    ensures |SetCount(rows, id, count)| == |rows|
    ensures forall i :: 0 <= i < |rows| ==>
              SetCount(rows, id, count)[i] == if rows[i].id == id then rows[i].(count := count) else rows[i]
    ensures FindZikir(rows, id).Some? ==>
              FindZikir(SetCount(rows, id, count), id) == Some(FindZikir(rows, id).value.(count := count))
    ensures FindZikir(rows, id).None? ==> SetCount(rows, id, count) == rows
    ensures forall other :: other != id ==> FindZikir(SetCount(rows, id, count), other) == FindZikir(rows, other)
  {
    var f := (z: Zikir) => z.(count := count);
    FindAfterMap(rows, id, SetCount(rows, id, count), f);
    forall other | other != id
      ensures FindZikir(SetCount(rows, id, count), other) == FindZikir(rows, other)
    {
      FindOtherAfterMap(rows, id, SetCount(rows, id, count), f, other);
    }
  }

  /** The target update overwrites exactly the target of the rows with that id. */
  lemma SetTargetOnlyThatRow(rows: seq<Zikir>, id: Id, target: int)
    ensures |SetTarget(rows, id, target)| == |rows|
    ensures forall i :: 0 <= i < |rows| ==>
              SetTarget(rows, id, target)[i] == if rows[i].id == id then rows[i].(target := target) else rows[i]
    ensures FindZikir(rows, id).Some? ==>
              FindZikir(SetTarget(rows, id, target), id) == Some(FindZikir(rows, id).value.(target := target))
    ensures forall other :: other != id ==> FindZikir(SetTarget(rows, id, target), other) == FindZikir(rows, other)
  {
    var f := (z: Zikir) => z.(target := target);
    FindAfterMap(rows, id, SetTarget(rows, id, target), f);
    forall other | other != id
      ensures FindZikir(SetTarget(rows, id, target), other) == FindZikir(rows, other)
    {
      FindOtherAfterMap(rows, id, SetTarget(rows, id, target), f, other);
    }
  }

  /** Rewriting, id-preservingly, the rows that carry `id` makes the lookup return the
      rewritten first match. */
  lemma {:induction false} FindAfterMap(rows: seq<Zikir>, id: Id, out: seq<Zikir>, f: Zikir -> Zikir)
    requires |out| == |rows|
    requires forall i :: 0 <= i < |rows| ==> out[i] == if rows[i].id == id then f(rows[i]) else rows[i]
    requires forall z :: f(z).id == z.id
    ensures FindZikir(rows, id).Some? ==> FindZikir(out, id) == Some(f(FindZikir(rows, id).value))
    ensures FindZikir(rows, id).None? ==> out == rows
  {
    if rows != [] && rows[0].id != id {
      FindAfterMap(rows[1..], id, out[1..], f);
    }
  }

  /** ... and leaves the lookup of every other id as it was. */
  lemma {:induction false} FindOtherAfterMap(rows: seq<Zikir>, id: Id, out: seq<Zikir>, f: Zikir -> Zikir, other: Id)
    requires |out| == |rows|
    requires forall i :: 0 <= i < |rows| ==> out[i] == if rows[i].id == id then f(rows[i]) else rows[i]
    requires forall z :: f(z).id == z.id
    requires other != id
    ensures FindZikir(out, other) == FindZikir(rows, other)
  {
    if rows != [] {
      FindOtherAfterMap(rows[1..], id, out[1..], f, other);
    }
  }

  /** No two rows share an id (the primary key). */
  predicate UniqueIds(rows: seq<Zikir>) {
    forall i, j :: 0 <= i < j < |rows| ==> rows[i].id != rows[j].id
  }

  /** With unique ids, looking up a row's id finds that row. */
  lemma {:induction false} FindUnique(rows: seq<Zikir>, z: Zikir)
    requires UniqueIds(rows) && z in rows
    ensures FindZikir(rows, z.id) == Some(z)
  {
    if rows[0] != z {
      var k :| 0 <= k < |rows| && rows[k] == z;
      assert k > 0;
      assert rows[0].id != z.id;
      assert z in rows[1..] by {
        assert rows[1..][k - 1] == z;
      }
      FindUnique(rows[1..], z);
    }
  }

  function IdIsNot(id: Id): Zikir -> bool {
    (z: Zikir) => z.id != id
  }

  /** `DELETE FROM zikirs WHERE id = ?`. */
  function DeleteZikirRows(rows: seq<Zikir>, id: Id): (r: seq<Zikir>)
    ensures forall z :: z in r <==> z in rows && z.id != id
    ensures FindZikir(r, id).None?
  {
    Filter(rows, IdIsNot(id))
  }

  /** Deleting one id leaves the lookup of every other id as it was. */
  lemma {:induction false} FindAfterDelete(rows: seq<Zikir>, id: Id, other: Id)
    requires other != id
    ensures FindZikir(DeleteZikirRows(rows, id), other) == FindZikir(rows, other)
  {
    if rows != [] {
      FindAfterDelete(rows[1..], id, other);
      var rest := Filter(rows[1..], IdIsNot(id));
      if rows[0].id != id {
        assert Filter(rows, IdIsNot(id)) == [rows[0]] + rest;
        assert ([rows[0]] + rest)[0] == rows[0] && ([rows[0]] + rest)[1..] == rest;
      } else {
        assert Filter(rows, IdIsNot(id)) == rest;
      }
    }
  }

  /** Appending a row leaves every lookup that already succeeded as it was. */
  lemma {:induction false} FindAppendOther(rows: seq<Zikir>, z: Zikir, other: Id)
    requires FindZikir(rows, other).Some?
    ensures FindZikir(rows + [z], other) == FindZikir(rows, other)
  {
    if rows[0].id != other {
      assert (rows + [z])[1..] == rows[1..] + [z];
      FindAppendOther(rows[1..], z, other);
    }
  }

  /** Creating a counter under an unused id and looking it up returns the record that
      `createZikir` returned, as stored; the two agree when both texts were given. */
  lemma CreateThenFind(rows: seq<Zikir>, d: ZikirDraft, s: Stamp)
    requires forall z :: z in rows ==> z.id != s.id
    ensures FindZikir(rows + [ZikirRow(d, s)], s.id) == Some(AsStored(Created(d, s)))
    ensures d.arabicText.Some? && d.transliteration.Some? ==> AsStored(Created(d, s)) == Created(d, s)
  {
    FindAppend(rows, ZikirRow(d, s), s.id);
  }

  lemma {:induction false} FindAppend(rows: seq<Zikir>, z: Zikir, id: Id)
    requires forall x :: x in rows ==> x.id != id
    requires z.id == id
    ensures FindZikir(rows + [z], id) == Some(z)
  {
    if rows != [] {
      assert (rows + [z])[1..] == rows[1..] + [z];
      FindAppend(rows[1..], z, id);
    }
  }

  // ---------------------------------------------------------------- zikir_history

  /** The entry `saveZikirHistory` inserts: the day and the timestamp come from one clock
      reading. */
  function HistoryEntry(zikirId: Id, zikirName: string, count: int, s: Stamp): (h: ZikirHistory)
    ensures h.id == s.id && h.zikirId == zikirId && h.zikirName == zikirName && h.count == count
    ensures h.date == DayOf(s.at) && h.timestamp == s.at
  {
    ZikirHistory(s.id, zikirId, zikirName, count, DayOf(s.at), s.at)
  }

  /** `timestamp DESC`. */
  predicate NewerFirst(a: ZikirHistory, b: ZikirHistory) {
    a.timestamp >= b.timestamp
  }

  function InDateRange(start: Day, end: Day): ZikirHistory -> bool {
    (h: ZikirHistory) => start <= h.date <= end
  }

  function OnDay(d: Day): ZikirHistory -> bool {
    (h: ZikirHistory) => h.date == d
  }

  /** `SUM(count)`, or 0 for no rows (`COALESCE`). */
  function SumCounts(rows: seq<ZikirHistory>): int {
    if rows == [] then 0 else SumCounts(rows[..|rows| - 1]) + rows[|rows| - 1].count
  }

  lemma {:induction false} SumCountsConcat(a: seq<ZikirHistory>, b: seq<ZikirHistory>)
    ensures SumCounts(a + b) == SumCounts(a) + SumCounts(b)
    decreases |b|
  {
    if b != [] {
      assert (a + b)[..|a + b| - 1] == a + b[..|b| - 1];
      SumCountsConcat(a, b[..|b| - 1]);
    } else {
      assert a + b == a;
    }
  }

  /** The sum does not depend on row order. */
  lemma {:induction false} SumCountsPermutation(a: seq<ZikirHistory>, b: seq<ZikirHistory>)
    requires multiset(a) == multiset(b)
    ensures SumCounts(a) == SumCounts(b)
    decreases |a|
  {
    if a != [] {
      var x := a[|a| - 1];
      assert x in multiset(b);
      var k :| 0 <= k < |b| && b[k] == x;
      var rest := b[..k] + b[k + 1..];
      assert b == b[..k] + [x] + b[k + 1..];
      assert a == a[..|a| - 1] + [x];
      assert multiset(b) == multiset(b[..k]) + multiset{x} + multiset(b[k + 1..]);
      assert multiset(a) == multiset(a[..|a| - 1]) + multiset{x};
      assert multiset(rest) == multiset(b[..k]) + multiset(b[k + 1..]);
      assert multiset(a[..|a| - 1]) == multiset(a) - multiset{x};
      assert multiset(rest) == multiset(b) - multiset{x};
      SumCountsPermutation(a[..|a| - 1], rest);
      SumCountsConcat(b[..k] + [x], b[k + 1..]);
      SumCountsConcat(b[..k], [x]);
      SumCountsConcat(b[..k], b[k + 1..]);
      assert SumCounts([x]) == x.count by {
        assert [x][..0] == [];
      }
    } else {
      assert b == [];
    }
  }

  /** `SELECT * FROM zikir_history ORDER BY timestamp DESC LIMIT ?`. */
  function RecentHistory(rows: seq<ZikirHistory>, limit: int): seq<ZikirHistory> {
    Limit(SortBy(rows, NewerFirst), limit)
  }

  /** `... WHERE date BETWEEN ? AND ? ORDER BY timestamp DESC`. */
  function HistoryBetween(rows: seq<ZikirHistory>, start: Day, end: Day): seq<ZikirHistory> {
    SortBy(Filter(rows, InDateRange(start, end)), NewerFirst)
  }

  /** `... WHERE date = ?` summed. */
  function DailyCount(rows: seq<ZikirHistory>, d: Day): int {
    SumCounts(Filter(rows, OnDay(d)))
  }

  function EntryIdIsNot(id: Id): ZikirHistory -> bool {
    (h: ZikirHistory) => h.id != id
  }

  /** `DELETE FROM zikir_history WHERE id = ?`. */
  function DeleteHistoryRows(rows: seq<ZikirHistory>, id: Id): (r: seq<ZikirHistory>)
    ensures forall h :: h in r <==> h in rows && h.id != id
  {
    Filter(rows, EntryIdIsNot(id))
  }

  /** Appending an entry raises the total by its count, raises the daily sum of its own day
      by its count and leaves every other day's sum alone. Empty ledgers sum to 0. */
  lemma SumsAfterAppend(rows: seq<ZikirHistory>, h: ZikirHistory, d: Day)
    ensures SumCounts([]) == 0 && DailyCount([], d) == 0
    ensures SumCounts(rows + [h]) == SumCounts(rows) + h.count
    ensures DailyCount(rows + [h], d) == DailyCount(rows, d) + (if h.date == d then h.count else 0)
  {
    assert (rows + [h])[..|rows|] == rows;
    FilterAppend(rows, [h], OnDay(d));
    assert Filter([h], OnDay(d)) == if h.date == d then [h] else [];
    SumCountsConcat(Filter(rows, OnDay(d)), Filter([h], OnDay(d)));
    assert Filter(rows, OnDay(d)) + [] == Filter(rows, OnDay(d));
  }

  /** The total equals the sum over the whole recent listing (no limit). */
  lemma TotalIsSumOfListing(rows: seq<ZikirHistory>)
    ensures SumCounts(RecentHistory(rows, -1)) == SumCounts(rows)
  {
    SumCountsPermutation(SortBy(rows, NewerFirst), rows);
  }

  /** The recent listing keeps the newest entries: each listed entry is at least as new as
      every entry the limit leaves out. */
  lemma RecentHistoryNewest(rows: seq<ZikirHistory>, limit: int)
    ensures forall x, h :: x in RecentHistory(rows, limit) && h in multiset(rows) - multiset(RecentHistory(rows, limit)) ==>
              x.timestamp >= h.timestamp
  {
    NewerFirstIsPreorder();
    var sorted := SortBy(rows, NewerFirst);
    forall x, h | x in RecentHistory(rows, limit) && h in multiset(rows) - multiset(RecentHistory(rows, limit))
      ensures x.timestamp >= h.timestamp
    {
      LimitKeepsLeast(sorted, limit, NewerFirst, x, h);
    }
  }

  /** The range query [d, d] lists exactly that day's entries. */
  lemma SingleDayRange(rows: seq<ZikirHistory>, d: Day, h: ZikirHistory)
    ensures h in HistoryBetween(rows, d, d) <==> h in rows && h.date == d
  {
    SortByMembers(Filter(rows, InDateRange(d, d)), NewerFirst, h);
  }

  lemma NewerFirstIsPreorder()
    ensures TotalPreorder(NewerFirst)
  {
  }

  /** The range query lists, newest first, exactly the entries whose day is in range. */
  lemma HistoryBetweenSpec(rows: seq<ZikirHistory>, start: Day, end: Day)
    ensures SortedBy(HistoryBetween(rows, start, end), NewerFirst)
    ensures forall h :: h in HistoryBetween(rows, start, end) <==> h in rows && start <= h.date <= end
  {
    NewerFirstIsPreorder();
    var inRange := Filter(rows, InDateRange(start, end));
    forall h ensures h in HistoryBetween(rows, start, end) <==> h in inRange {
      SortByMembers(inRange, NewerFirst, h);
    }
  }

  // ---------------------------------------------------------------- prayers

  /** The row `INSERT INTO prayers` writes for a bundled entry: a new id, absent optional
      texts as '', and not a favourite. */
  function PrayerRow(b: Prayer, s: Stamp): (p: Prayer)
    ensures p.id == s.id && !p.isFavorite && p.titleTr == b.titleTr
    ensures p.(id := b.id, isFavorite := b.isFavorite, titleEn := b.titleEn, titleAr := b.titleAr,
               englishTranslation := b.englishTranslation, sourceDetail := b.sourceDetail) == b
  {
    b.(id := s.id, titleEn := Some(OrEmpty(b.titleEn)), titleAr := Some(OrEmpty(b.titleAr)),
       englishTranslation := Some(OrEmpty(b.englishTranslation)),
       sourceDetail := Some(OrEmpty(b.sourceDetail)), isFavorite := false)
  }

  /** `new Set(existingPrayers.map(p => p.title_tr))`. */
  function Titles(rows: seq<Prayer>): set<string> {
    set p | p in rows :: p.titleTr
  }

  /** The rows the seeding loop inserts: every bundled entry whose title is not in `titles`,
      in bundle order. The title set is read once before the loop. */
  function MissingRows(bundle: seq<Prayer>, titles: set<string>, stamps: seq<Stamp>): (r: seq<Prayer>)
    requires |bundle| <= |stamps|
    ensures |r| <= |bundle|
    ensures forall p :: p in r ==> !p.isFavorite && p.titleTr !in titles
  {
    if bundle == [] then []
    else
      var n := |bundle| - 1;
      MissingRows(bundle[..n], titles, stamps)
        + (if bundle[n].titleTr in titles then [] else [PrayerRow(bundle[n], stamps[n])])
  }

  /** One more pass of the seeding loop inserts the next entry when its title is new. */
  lemma MissingRowsStep(bundle: seq<Prayer>, titles: set<string>, stamps: seq<Stamp>, i: nat)
    requires i < |bundle| <= |stamps|
    ensures MissingRows(bundle[..i + 1], titles, stamps) == MissingRows(bundle[..i], titles, stamps)
              + (if bundle[i].titleTr in titles then [] else [PrayerRow(bundle[i], stamps[i])])
  {
    assert bundle[..i + 1][..i] == bundle[..i];
  }

  /** The prayers table after `seedDefaultPrayers`. */
  function SeededPrayers(rows: seq<Prayer>, bundle: seq<Prayer>, stamps: seq<Stamp>): seq<Prayer>
    requires |bundle| <= |stamps|
  {
    if |rows| < |bundle| then rows + MissingRows(bundle, Titles(rows), stamps) else rows
  }

  /** After the loop every bundled title is stored or was already known. */
  lemma {:induction false} MissingRowsCover(bundle: seq<Prayer>, titles: set<string>, stamps: seq<Stamp>)
    requires |bundle| <= |stamps|
    ensures forall b :: b in bundle ==> b.titleTr in titles + Titles(MissingRows(bundle, titles, stamps))
  {
    if bundle != [] {
      var n := |bundle| - 1;
      MissingRowsCover(bundle[..n], titles, stamps);
      var last := if bundle[n].titleTr in titles then [] else [PrayerRow(bundle[n], stamps[n])];
      var front := MissingRows(bundle[..n], titles, stamps);
      assert MissingRows(bundle, titles, stamps) == front + last;
      forall b | b in bundle
        ensures b.titleTr in titles + Titles(front + last)
      {
        if b in bundle[..n] {
          if b.titleTr !in titles {
            var p :| p in front && p.titleTr == b.titleTr;
            assert p in front + last;
          }
        } else {
          assert b == bundle[n];
          if b.titleTr !in titles {
            assert PrayerRow(b, stamps[n]) in front + last;
          }
        }
      }
    }
  }

  /** Nothing is missing when every bundled title is already known. */
  lemma {:induction false} MissingRowsNone(bundle: seq<Prayer>, titles: set<string>, stamps: seq<Stamp>)
    requires |bundle| <= |stamps|
    requires forall b :: b in bundle ==> b.titleTr in titles
    ensures MissingRows(bundle, titles, stamps) == []
  {
    if bundle != [] {
      var n := |bundle| - 1;
      assert bundle[n] in bundle;
      MissingRowsNone(bundle[..n], titles, stamps);
    }
  }

  function TitleNotIn(titles: set<string>): Prayer -> bool {
    (p: Prayer) => p.titleTr !in titles
  }

  /** The loop adds exactly one row per bundled entry with an unknown title. */
  lemma {:induction false} MissingRowsCount(bundle: seq<Prayer>, titles: set<string>, stamps: seq<Stamp>)
    requires |bundle| <= |stamps|
    ensures |MissingRows(bundle, titles, stamps)| == |Filter(bundle, TitleNotIn(titles))|
  {
    if bundle != [] {
      var n := |bundle| - 1;
      MissingRowsCount(bundle[..n], titles, stamps);
      assert bundle == bundle[..n] + [bundle[n]];
      FilterAppend(bundle[..n], [bundle[n]], TitleNotIn(titles));
      assert [bundle[n]][1..] == [];
      assert |Filter([bundle[n]], TitleNotIn(titles))| == if bundle[n].titleTr in titles then 0 else 1;
    }
  }

  /** Prayer seeding keeps every existing row (favourite flags included) as a prefix, adds
      one non-favourite row per bundled entry whose title is not stored, and afterwards every
      bundled title is stored. It runs only while the table is smaller than the bundle. */
  lemma SeedPrayersEffect(rows: seq<Prayer>, bundle: seq<Prayer>, stamps: seq<Stamp>)
    requires |bundle| <= |stamps|
    ensures SeededPrayers(rows, bundle, stamps)[..|rows|] == rows
    ensures |rows| >= |bundle| ==> SeededPrayers(rows, bundle, stamps) == rows
    ensures |rows| < |bundle| ==>
              && |SeededPrayers(rows, bundle, stamps)| == |rows| + |Filter(bundle, TitleNotIn(Titles(rows)))|
              && (forall b :: b in bundle ==> b.titleTr in Titles(SeededPrayers(rows, bundle, stamps)))
              && (forall i :: |rows| <= i < |SeededPrayers(rows, bundle, stamps)| ==>
                    !SeededPrayers(rows, bundle, stamps)[i].isFavorite)
  {
    if |rows| < |bundle| {
      var added := MissingRows(bundle, Titles(rows), stamps);
      var after := rows + added;
      MissingRowsCount(bundle, Titles(rows), stamps);
      MissingRowsCover(bundle, Titles(rows), stamps);
      forall b | b in bundle ensures b.titleTr in Titles(after) {
        if b.titleTr in Titles(rows) {
          var p :| p in rows && p.titleTr == b.titleTr;
          assert p in after;
        } else {
          var p :| p in added && p.titleTr == b.titleTr;
          assert p in after;
        }
      }
      forall i | |rows| <= i < |after| ensures !after[i].isFavorite {
        assert after[i] == added[i - |rows|];
        assert added[i - |rows|] in added;
      }
    }
  }

  /** Re-running prayer seeding with the same bundle adds nothing. */
  lemma SeedPrayersIdempotent(rows: seq<Prayer>, bundle: seq<Prayer>, s1: seq<Stamp>, s2: seq<Stamp>)
    requires |bundle| <= |s1| && |bundle| <= |s2|
    ensures SeededPrayers(SeededPrayers(rows, bundle, s1), bundle, s2) == SeededPrayers(rows, bundle, s1)
  {
    var once := SeededPrayers(rows, bundle, s1);
    if |rows| < |bundle| {
      SeedPrayersEffect(rows, bundle, s1);
      MissingRowsNone(bundle, Titles(once), s2);
      assert once + [] == once;
    }
  }

  /** `ORDER BY category`: the rank of a category's tag in alphabetical order. */
  function CategoryRank(c: PrayerCategory): nat {
    match c
    case Gunluk => 0
    case Hastalik => 1
    case Istighfar => 2
    case Namaz => 3
    case Quran => 4
    case SabahAksam => 5
    case Yemek => 6
    case Yolculuk => 7
  }

  /** `ORDER BY category, display_order`. */
  predicate CategoryThenOrder(a: Prayer, b: Prayer) {
    || CategoryRank(a.category) < CategoryRank(b.category)
    || (CategoryRank(a.category) == CategoryRank(b.category) && a.displayOrder <= b.displayOrder)
  }

  /** `ORDER BY display_order`. */
  predicate DisplayOrderNoLater(a: Prayer, b: Prayer) {
    a.displayOrder <= b.displayOrder
  }

  lemma PrayerOrdersArePreorders()
    ensures TotalPreorder(CategoryThenOrder) && TotalPreorder(DisplayOrderNoLater)
  {
  }

  function HasCategoryTag(tag: string): Prayer -> bool {
    (p: Prayer) => CategoryTag(p.category) == tag
  }

  /** `field LIKE '%' || q || '%'` under the engine's case folding `fold`, with `%` and `_`
      inside `q` read literally. */
  predicate Like(field: string, q: string, fold: StringMap) {
    Contains(fold(field), fold(q))
  }

  /** The `WHERE` clause of `searchPrayers`. */
  function MatchesSearch(q: string, fold: StringMap): Prayer -> bool {
    (p: Prayer) =>
      || Like(p.titleTr, q, fold) || Like(p.arabicText, q, fold)
      || Like(p.turkishTranslation, q, fold) || Like(p.transliteration, q, fold)
  }

  function IsFavorite(p: Prayer): bool {
    p.isFavorite
  }

  /** The flip of one row's favourite flag, when the row has that id. */
  function ToggleOne(id: Id): Prayer -> Prayer {
    (p: Prayer) => if p.id == id then p.(isFavorite := !p.isFavorite) else p
  }

  /** `UPDATE prayers SET is_favorite = NOT is_favorite WHERE id = ?`. */
  function ToggleFavoriteRows(rows: seq<Prayer>, id: Id): (r: seq<Prayer>)
    ensures |r| == |rows|
    ensures forall i :: 0 <= i < |rows| ==>
              r[i] == if rows[i].id == id then rows[i].(isFavorite := !rows[i].isFavorite) else rows[i]
  {
    MapSeq(rows, ToggleOne(id))
  }

  /** Two toggles restore the table. */
  lemma ToggleFavoriteTwice(rows: seq<Prayer>, id: Id)
    ensures ToggleFavoriteRows(ToggleFavoriteRows(rows, id), id) == rows
  {
  }

  /** The flag is no sort key, so toggling then listing is listing then toggling. */
  lemma ToggleCommutesWithListing(rows: seq<Prayer>, id: Id)
    ensures SortBy(ToggleFavoriteRows(rows, id), CategoryThenOrder) == ToggleFavoriteRows(SortBy(rows, CategoryThenOrder), id)
  {
    SortByMap(rows, CategoryThenOrder, ToggleOne(id));
  }

  /** The empty query matches every row, so `searchPrayers("")` lists the whole table. */
  lemma EmptySearchMatchesAll(rows: seq<Prayer>, fold: StringMap)
    requires fold("") == ""
    ensures Filter(rows, MatchesSearch("", fold)) == rows
  {
    forall i | 0 <= i < |rows| ensures MatchesSearch("", fold)(rows[i]) {
      ContainsTrivial(fold(rows[i].titleTr));
    }
    FilterKeepsAll(rows, MatchesSearch("", fold));
  }

  // ---------------------------------------------------------------- the service

  class DatabaseService {
    /** The `db` handle is non-null. */
    var open: bool
    var initialized: bool
    var zikirs: seq<Zikir>
    var history: seq<ZikirHistory>
    var prayers: seq<Prayer>
    /** `DEFAULT_PRAYERS`, the bundled reference library. */
    const bundledPrayers: seq<Prayer>
    /** The case folding the engine applies on both sides of `LIKE`. */
    const likeFold: StringMap

    /** A service over a database file that already holds the given tables. */
    constructor (bundled: seq<Prayer>, fold: StringMap, zikirRows: seq<Zikir>, historyRows: seq<ZikirHistory>, prayerRows: seq<Prayer>)
      ensures !open && !initialized && bundledPrayers == bundled && likeFold == fold
      ensures zikirs == zikirRows && history == historyRows && prayers == prayerRows
    {
      bundledPrayers, likeFold := bundled, fold;
      open, initialized := false, false;
      zikirs, history, prayers := zikirRows, historyRows, prayerRows;
    }

    /** The guard at the top of every data method. */
    function Handle(): (r: Status<DbError>)
      reads this
      ensures r.Done? <==> open
      ensures r.Failed? ==> r.error == NotInitialized
    {
      if open then Done else Failed(NotInitialized)
    }

    /** `initialize`: nothing when already initialised; otherwise open, create the tables,
        seed the counters, seed the prayers and only then set the flag. A throw at any step
        surfaces as `InitFailed` and keeps what the earlier steps did. */
    method Initialize(fault: InitFault, zikirStamps: seq<Stamp>, prayerStamps: seq<Stamp>) returns (r: Status<DbError>)
      requires |Constants.DefaultZikirs| <= |zikirStamps| && |bundledPrayers| <= |prayerStamps|
      modifies this
      ensures old(initialized) ==> r == Done && open == old(open) && initialized
      ensures old(initialized) ==> zikirs == old(zikirs) && prayers == old(prayers)
      ensures !old(initialized) ==> r == (if fault == NoFault then Done else Failed(InitFailed))
      ensures !old(initialized) ==> initialized == (fault == NoFault)
      ensures !old(initialized) ==> open == (old(open) || fault != OpenFault)
      ensures history == old(history)
      ensures zikirs == if !old(initialized) && (fault == NoFault || fault == PrayerSeedFault)
                        then SeededZikirs(old(zikirs), zikirStamps) else old(zikirs)
      ensures prayers == if !old(initialized) && fault == NoFault
                         then SeededPrayers(old(prayers), bundledPrayers, prayerStamps) else old(prayers)
    {
      if initialized {
        return Done;
      }
      if fault == OpenFault {
        return Failed(InitFailed);
      }
      open := true;
      var s := CreateTables(fault == SchemaFault);
      if s.Failed? {
        return Failed(InitFailed);
      }
      if fault == ZikirSeedFault {
        return Failed(InitFailed);
      }
      s := SeedDefaultZikirs(zikirStamps);
      if fault == PrayerSeedFault {
        return Failed(InitFailed);
      }
      var added;
      s, added := SeedDefaultPrayers(prayerStamps);
      initialized := true;
      r := Done;
    }

    /** `createTables`: every table and index is `CREATE ... IF NOT EXISTS`, so on a file
        that has them nothing changes; `fails` stands for the statement throwing. */
    method CreateTables(fails: bool) returns (r: Status<DbError>)
      ensures r == if !open then Failed(NotInitialized) else if fails then Failed(InitFailed) else Done
    {
      if !open {
        return Failed(NotInitialized);
      }
      r := if fails then Failed(InitFailed) else Done;
    }

    /** `seedDefaultZikirs`. */
    method SeedDefaultZikirs(stamps: seq<Stamp>) returns (r: Status<DbError>)
      requires |Constants.DefaultZikirs| <= |stamps|
      modifies this`zikirs
      ensures r == Handle()
      ensures zikirs == if r.Done? then SeededZikirs(old(zikirs), stamps) else old(zikirs)
    {
      if !open {
        return Failed(NotInitialized);
      }
      var existing := BuiltIns(zikirs);
      if |existing| == 0 {
        var defs := Constants.DefaultZikirs;
        for i := 0 to |defs|
          invariant zikirs == old(zikirs) + SeedRows(defs[..i], stamps)
        {
          SeedRowsStep(defs, stamps, i);
          AppendOne(old(zikirs), SeedRows(defs[..i], stamps), ZikirRow(defs[i], stamps[i]));
          zikirs := zikirs + [ZikirRow(defs[i], stamps[i])];
        }
        assert defs[..|defs|] == defs;
      }
      r := Done;
    }

    /** `seedDefaultPrayers`: returns how many rows it added (`addedCount`). */
    method SeedDefaultPrayers(stamps: seq<Stamp>) returns (r: Status<DbError>, added: nat)
      requires |bundledPrayers| <= |stamps|
      modifies this`prayers
      ensures r == Handle()
      ensures prayers == if r.Done? then SeededPrayers(old(prayers), bundledPrayers, stamps) else old(prayers)
      ensures added == |prayers| - |old(prayers)|
    {
      added := 0;
      if !open {
        return Failed(NotInitialized), 0;
      }
      var count := |prayers|;
      if count < |bundledPrayers| {
        var titles := Titles(prayers);
        var bundle := bundledPrayers;
        for i := 0 to |bundle|
          invariant prayers == old(prayers) + MissingRows(bundle[..i], titles, stamps)
          invariant added == |prayers| - |old(prayers)|
        {
          MissingRowsStep(bundle, titles, stamps, i);
          if bundle[i].titleTr !in titles {
            AppendOne(old(prayers), MissingRows(bundle[..i], titles, stamps), PrayerRow(bundle[i], stamps[i]));
            prayers := prayers + [PrayerRow(bundle[i], stamps[i])];
            added := added + 1;
          }
        }
        assert bundle[..|bundle|] == bundle;
      }
      r := Done;
    }

    /** `getAllZikirs`: every row, oldest first. */
    function GetAllZikirs(): (r: Result<seq<Zikir>, DbError>)
      reads this
      ensures r.Ok? <==> open
      ensures r.Err? ==> r.error == NotInitialized
      ensures r.Ok? ==> multiset(r.value) == multiset(zikirs) && SortedBy(r.value, CreatedNoLater)
    {
      if !open then Err(NotInitialized) else Ok(SortBy(zikirs, CreatedNoLater))
    }

    /** `getZikirById`: the row with that id, or null when there is none. */
    function GetZikirById(id: Id): (r: Result<Option<Zikir>, DbError>)
      reads this
      ensures r.Ok? <==> open
      ensures r.Ok? && r.value.Some? ==> r.value.value in zikirs && r.value.value.id == id
      ensures r.Ok? && r.value.None? ==> forall z :: z in zikirs ==> z.id != id
    {
      if !open then Err(NotInitialized) else Ok(FindZikir(zikirs, id))
    }

    /** `createZikir`. */
    method CreateZikir(d: ZikirDraft, s: Stamp) returns (r: Result<Zikir, DbError>)
      modifies this`zikirs
      ensures r == if open then Ok(Created(d, s)) else Err(NotInitialized)
      ensures zikirs == if open then old(zikirs) + [ZikirRow(d, s)] else old(zikirs)
    {
      if !open {
        return Err(NotInitialized);
      }
      zikirs := zikirs + [ZikirRow(d, s)];
      r := Ok(Created(d, s));
    }

    /** `updateZikirCount`: unconditional overwrite, no clamping. */
    method UpdateZikirCount(id: Id, count: int) returns (r: Status<DbError>)
      modifies this`zikirs
      ensures r == Handle()
      ensures zikirs == if open then SetCount(old(zikirs), id, count) else old(zikirs)
    {
      if !open {
        return Failed(NotInitialized);
      }
      zikirs := SetCount(zikirs, id, count);
      r := Done;
    }

    /** `updateZikirTarget`: unconditional overwrite. */
    method UpdateZikirTarget(id: Id, target: int) returns (r: Status<DbError>)
      modifies this`zikirs
      ensures r == Handle()
      ensures zikirs == if open then SetTarget(old(zikirs), id, target) else old(zikirs)
    {
      if !open {
        return Failed(NotInitialized);
      }
      zikirs := SetTarget(zikirs, id, target);
      r := Done;
    }

    /** `resetZikirCount`: the same as setting the count to 0. */
    method ResetZikirCount(id: Id) returns (r: Status<DbError>)
      modifies this`zikirs
      ensures r == Handle()
      ensures zikirs == if open then SetCount(old(zikirs), id, 0) else old(zikirs)
    {
      if !open {
        return Failed(NotInitialized);
      }
      zikirs := SetCount(zikirs, id, 0);
      r := Done;
    }

    /** `deleteZikir`: removes the row and nothing else. The schema declares
        `ON DELETE CASCADE`, but SQLite enforces foreign keys only after
        `PRAGMA foreign_keys = ON`, which is never issued, so history rows stay. */
    method DeleteZikir(id: Id) returns (r: Status<DbError>)
      modifies this`zikirs
      ensures r == Handle()
      ensures zikirs == if open then DeleteZikirRows(old(zikirs), id) else old(zikirs)
    {
      if !open {
        return Failed(NotInitialized);
      }
      zikirs := DeleteZikirRows(zikirs, id);
      r := Done;
    }

    /** `saveZikirHistory`: appends exactly one entry. */
    method SaveZikirHistory(zikirId: Id, zikirName: string, count: int, s: Stamp) returns (r: Status<DbError>)
      modifies this`history
      ensures r == Handle()
      ensures history == if open then old(history) + [HistoryEntry(zikirId, zikirName, count, s)] else old(history)
    {
      if !open {
        return Failed(NotInitialized);
      }
      history := history + [HistoryEntry(zikirId, zikirName, count, s)];
      r := Done;
    }

    /** `getZikirHistory(limit)`: newest first, at most `limit` entries. */
    function GetZikirHistory(limit: int): (r: Result<seq<ZikirHistory>, DbError>)
      reads this
      ensures r.Ok? <==> open
      ensures r.Ok? ==> SortedBy(r.value, NewerFirst) && multiset(r.value) <= multiset(history)
      ensures r.Ok? && limit >= 0 ==> |r.value| == if limit < |history| then limit else |history|
      ensures r.Ok? && limit < 0 ==> multiset(r.value) == multiset(history)
      ensures r.Ok? ==> forall x, h :: x in r.value && h in multiset(history) - multiset(r.value) ==>
                          x.timestamp >= h.timestamp
    {
      if !open then Err(NotInitialized)
      else
        NewerFirstIsPreorder();
        LimitKeeps(SortBy(history, NewerFirst), limit, NewerFirst);
        RecentHistoryNewest(history, limit);
        Ok(Limit(SortBy(history, NewerFirst), limit))
    }

    /** `getZikirHistoryByDate(start, end)`: the entries whose day lies in the closed range,
        newest first. */
    function GetZikirHistoryByDate(start: Day, end: Day): (r: Result<seq<ZikirHistory>, DbError>)
      reads this
      ensures r.Ok? <==> open
      ensures r.Ok? ==> SortedBy(r.value, NewerFirst)
      ensures r.Ok? ==> forall h :: h in r.value <==> h in history && start <= h.date <= end
    {
      if !open then Err(NotInitialized)
      else
        HistoryBetweenSpec(history, start, end);
        Ok(HistoryBetween(history, start, end))
    }

    /** `getTotalZikirCount`. */
    function GetTotalZikirCount(): (r: Result<int, DbError>)
      reads this
      ensures r.Ok? <==> open
      ensures r.Ok? ==> r.value == SumCounts(history)
      ensures r.Ok? && history == [] ==> r.value == 0
    {
      if !open then Err(NotInitialized) else Ok(SumCounts(history))
    }

    /** `getDailyZikirCount(date)`. */
    function GetDailyZikirCount(date: Day): (r: Result<int, DbError>)
      reads this
      ensures r.Ok? <==> open
      ensures r.Ok? ==> r.value == DailyCount(history, date)
      ensures r.Ok? && (forall h :: h in history ==> h.date != date) ==> r.value == 0
    {
      if !open then Err(NotInitialized)
      else
        var onDay := Filter(history, OnDay(date));
        assert (forall h :: h in history ==> h.date != date) ==> onDay == [] by {
          if onDay != [] { assert onDay[0] in onDay; }
        }
        Ok(DailyCount(history, date))
    }

    /** `deleteZikirHistory`. */
    method DeleteZikirHistory(id: Id) returns (r: Status<DbError>)
      modifies this`history
      ensures r == Handle()
      ensures history == if open then DeleteHistoryRows(old(history), id) else old(history)
    {
      if !open {
        return Failed(NotInitialized);
      }
      history := DeleteHistoryRows(history, id);
      r := Done;
    }

    /** `getAllPrayers`: every row by category, then display order. */
    function GetAllPrayers(): (r: Result<seq<Prayer>, DbError>)
      reads this
      ensures r.Ok? <==> open
      ensures r.Ok? ==> multiset(r.value) == multiset(prayers) && SortedBy(r.value, CategoryThenOrder)
    {
      if !open then Err(NotInitialized)
      else
        PrayerOrdersArePreorders();
        Ok(SortBy(prayers, CategoryThenOrder))
    }

    /** `getPrayersByCategory(category)`: rows whose category column equals the text. */
    function GetPrayersByCategory(category: string): (r: Result<seq<Prayer>, DbError>)
      reads this
      ensures r.Ok? <==> open
      ensures r.Ok? ==> SortedBy(r.value, DisplayOrderNoLater)
      ensures r.Ok? ==> forall p :: p in r.value <==> p in prayers && CategoryTag(p.category) == category
      ensures r.Ok? && CategoryOfTag(category).None? ==> r.value == []
    {
      if !open then Err(NotInitialized)
      else
        PrayerOrdersArePreorders();
        var r := SortBy(Filter(prayers, HasCategoryTag(category)), DisplayOrderNoLater);
        assert forall p :: p in r <==> p in multiset(r);
        assert CategoryOfTag(category).None? ==> r == [] by {
          if r != [] {
            assert r[0] in r;
            CategoriesClosed(r[0].category, r[0].category);
          }
        }
        Ok(r)
    }

    /** `searchPrayers(q)`: rows where `q` occurs, case folded, in the title, the
        Arabic text, the Turkish translation or the transliteration; same order as the full
        listing. */
    function SearchPrayers(q: string): (r: Result<seq<Prayer>, DbError>)
      reads this
      ensures r.Ok? <==> open
      ensures r.Ok? ==> SortedBy(r.value, CategoryThenOrder)
      ensures r.Ok? ==> forall p :: p in r.value <==> p in prayers && MatchesSearch(q, likeFold)(p)
      ensures r.Ok? && q == "" && likeFold("") == "" ==> r == GetAllPrayers()
    {
      if !open then Err(NotInitialized)
      else
        PrayerOrdersArePreorders();
        var r := SortBy(Filter(prayers, MatchesSearch(q, likeFold)), CategoryThenOrder);
        assert forall p :: p in r <==> p in multiset(r);
        if q == "" && likeFold("") == "" then EmptySearchMatchesAll(prayers, likeFold); Ok(r) else Ok(r)
    }

    /** `togglePrayerFavorite`. */
    method TogglePrayerFavorite(id: Id) returns (r: Status<DbError>)
      modifies this`prayers
      ensures r == Handle()
      ensures prayers == if open then ToggleFavoriteRows(old(prayers), id) else old(prayers)
    {
      if !open {
        return Failed(NotInitialized);
      }
      prayers := ToggleFavoriteRows(prayers, id);
      r := Done;
    }

    /** `getFavoritePrayers`: exactly the flagged rows, full-listing order. */
    function GetFavoritePrayers(): (r: Result<seq<Prayer>, DbError>)
      reads this
      ensures r.Ok? <==> open
      ensures r.Ok? ==> SortedBy(r.value, CategoryThenOrder)
      ensures r.Ok? ==> forall p :: p in r.value <==> p in prayers && p.isFavorite
    {
      if !open then Err(NotInitialized)
      else
        PrayerOrdersArePreorders();
        var r := SortBy(Filter(prayers, IsFavorite), CategoryThenOrder);
        assert forall p :: p in r <==> p in multiset(r);
        Ok(r)
    }

    /** `close`: when a handle is open, drop it and clear the flag; the file keeps its
        tables. */
    method Close()
      modifies this`open, this`initialized
      ensures !open
      ensures initialized == (old(initialized) && !old(open))
    {
      if open {
        open := false;
        initialized := false;
      }
    }
  }
}
