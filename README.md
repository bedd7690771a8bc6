# Zikirmatik data layer, stores and selection rules in Dafny

Zikirmatik is a React Native dhikr counter with a library of prayers. This project models:

- the local persistence service;
- the counter and settings stores built on it;
- the key-value settings storage;
- the selection and filter rules that the screens and components embed.

Each part is modelled in the form its source takes.

- **Persistence service** (`Database`, database.dfy). `DatabaseService` is a class over three tables: `zikirs`, `history` and `prayers`. They are held as sequences in insertion (rowid) order. It also has an `open` handle, an `initialized` flag, the bundled prayer library and the engine's `LIKE` case folding.
  - Every query is a function of the tables: a filter, then a stable sort, then a limit.
  - Every write is a method. It changes one table, and its postcondition states the new table exactly.
  - The seeding loops carry loop invariants that tie them to specification functions (`SeededZikirs`, `SeededPrayers`). Lemmas prove idempotence, coverage and counts about those functions.
- **Counter store** (`ZikirStoreModel`). A class over the list and the selection, sharing the database and storage objects.
  - Every action changes state only after the database call succeeds.
  - Each action preserves two invariants: `Synced`, under which every held counter is what `getZikirById` returns for its id, and `CountsNonNegative`.
  - There are two exceptions. `SelectZikir` preserves them only for a counter the store holds. `DeleteZikir` keeps `Synced` only when it succeeds: if persisting the new selection fails, the row is already gone while the store still holds the counter, as in the source.
- **Key-value storage** (`Storage`). A class over a `map<string, string>` and two flags: `available` says whether writes succeed and `readable` whether reads do. They fail independently, so `updateSettings` can fail its read, merge over the defaults and overwrite the stored settings, as the source does.
  - Settings are stored as the exact JSON text `JSON.stringify` prints. A decoder reads that text back, and a round-trip lemma proves it does.
  - Each writer states that the other readings are unchanged.
- **Settings store** (`SettingsStoreModel`). This is the read-merge-write on the settings state, plus the haptic service's enabled flag.
- **Pure rules**:
  - the theme hook (`ThemeResolution`);
  - the prayers screen filter and its favourite toggle (`PrayersScreenModel`);
  - the prayer card's language fallback (`PrayerCardModel`);
  - the counter screen's form handlers (`ZikirmatikScreenModel`);
  - city-name normalisation and gazetteer matching (`Location`, `CityPicker`).

Helper modules:

- `Results` (Option, Result, Status).
- `Text` holds the JavaScript string functions that the code uses:
  - `includes`, with a proof that it holds exactly when there is an occurrence;
  - `trim` and `trimStart`, with the ECMAScript white-space set;
  - `parseInt(_, 10)` and integer `toString`, with a round-trip lemma.
- `Ordering` holds filter, stable insertion sort by a total preorder, `LIMIT` and `find`.

Inputs to the model:

- Ids and clock readings come in as `Stamp` values. Lemmas that need fresh ids take freshness as a hypothesis.
- Unicode lower-casing, `toLocaleLowerCase('tr-TR')`, NFD decomposition and SQLite's `LIKE` folding are function-typed parameters (`StringMap`).
- The gazetteer `TURKISH_STATES` and the bundled `DEFAULT_PRAYERS` come in as parameters. The modules that define them are not part of this model.

Where the source behaves differently from what its schema and signatures suggest:

- `deleteZikir` does not cascade to history rows. The schema at src/core/database/index.ts:48 declares `ON DELETE CASCADE`. SQLite enforces foreign keys only after `PRAGMA foreign_keys = ON`, which the service never issues. `DatabaseService.DeleteZikir` therefore changes only the `zikirs` table.
- `createZikir` returns the draft with absent texts left absent. The row it writes stores `''` for them (`ZikirRow` is `AsStored(Created(..))`). The store appends the returned record, while a later `getZikirById` reads the stored one. The `Synced` invariant is stated up to this normalisation, and `Database.CreateThenFind` shows both sides.
- `getCurrentTheme` reports `auto` as light. `SettingsStoreModel.CurrentTheme` proves that this is `useTheme`'s rule with no system scheme.

## Model

| member | source | states |
|---|---|---|
| Types.CategoryOfTag | src/core/types/index.ts:40-48 | a text that reads as a category is exactly that category's tag |
| Types.CategoriesClosed | src/core/types/index.ts:40-48 | there are exactly eight categories, every tag reads back as its category, and distinct categories have distinct tags |
| Types.SourcesClosed | src/core/types/index.ts:34 | a prayer's source is one of exactly five values |
| Types.OrEmpty | src/core/database/index.ts:87-88 | `x \|\| ''` is the text when present and non-empty, else the empty string |
| Constants.DefaultZikirsShape | src/core/constants/index.ts:4-45 | five built-ins; each has count 0, is not custom, is transliterated as its own name and has a positive target; the targets in order are 33, 33, 34, 100, 100 |
| Constants.DefaultSettingsShape | src/core/constants/index.ts:78-84 | default settings are theme auto, language tr, and all three flags on |
| Constants.StorageKeysDistinct | src/core/constants/index.ts:48-54 | the five storage keys are pairwise distinct |
| Text.Trim | src/features/zikirmatik/screens/ZikirmatikScreen.tsx:112 | `trim()` is empty exactly when the input is all ECMAScript white space; otherwise it starts and ends with a non-space character |
| Text.ContainsIffOccurs | src/features/prayers/screens/PrayersScreen.tsx:65-68 | `includes` holds exactly when the needle occurs at some position |
| Text.ParseIntOfIntToString | src/features/zikirmatik/screens/ZikirmatikScreen.tsx:51-101 | `parseInt` of an integer's `toString()` gives the integer back |
| Database.AsStored | src/core/database/index.ts:87-88 | a stored counter's optional texts read back as the given text or `''`; every other field is kept |
| Database.Created | src/core/database/index.ts:165-187 | `createZikir` returns the draft with the fresh id and creation time added and nothing else changed |
| Database.ZikirRow | src/core/database/index.ts:170-182 | the inserted row is the returned record with absent texts stored as `''` |
| Database.SeedRows | src/core/database/index.ts:80-95 | the seeding loop inserts one row per default, in order, each under its own stamp |
| Database.SeedZikirsInsertsDefaults | src/core/database/index.ts:74-98 | with no built-in row, seeding keeps the table as a prefix and appends the five defaults with fresh ids, count 0 and not custom |
| Database.SeedZikirsIdempotent | src/core/database/index.ts:77-79 | a second seeding adds nothing |
| Database.SeedZikirsSkippedWithBuiltIn | src/core/database/index.ts:77-79 | any built-in row present means seeding leaves the table unchanged |
| Database.FindZikir | src/core/database/index.ts:153-163 | the lookup returns a row with that id, or null exactly when no row has it |
| Database.SetCountOnlyThatRow | src/core/database/index.ts:189-205 | the count update overwrites, without clamping, only the count of rows with that id; lookups of every other id are unchanged |
| Database.SetTargetOnlyThatRow | src/core/database/index.ts:195-199 | the target update overwrites only the target of rows with that id; other ids read as before |
| Database.FindUnique | src/core/database/index.ts:30 | with unique primary keys, looking up a row's id finds that row |
| Database.DeleteZikirRows | src/core/database/index.ts:207-211 | deletion keeps exactly the rows with another id, and the id is no longer found |
| Database.FindAfterDelete | src/core/database/index.ts:207-211 | deleting one id leaves the lookup of every other id unchanged |
| Database.FindAppendOther | src/core/database/index.ts:165-187 | appending a row leaves every lookup that already succeeded unchanged |
| Database.CreateThenFind | src/core/database/index.ts:153-187 | after creating under an unused id, `getZikirById` returns the created record as stored; the two are equal when both texts were given |
| Database.HistoryEntry | src/core/database/index.ts:214-226 | a ledger entry carries the fresh id, the counter's id, name and count, and a date and timestamp from one clock reading |
| Database.SumCountsPermutation | src/core/database/index.ts:246-254 | the sum does not depend on row order |
| Database.SumsAfterAppend | src/core/database/index.ts:246-265 | empty ledgers sum to 0; one appended entry raises the total, and its own day's sum, by its count and leaves other days alone |
| Database.RecentHistoryNewest | src/core/database/index.ts:228-235 | `ORDER BY timestamp DESC LIMIT ?` keeps the newest entries: each listed entry is at least as new as every entry left out |
| Database.TotalIsSumOfListing | src/core/database/index.ts:228-254 | the total equals the sum over the unlimited newest-first listing |
| Database.SingleDayRange | src/core/database/index.ts:237-244 | the range query from a day to the same day lists exactly that day's entries |
| Database.HistoryBetweenSpec | src/core/database/index.ts:237-244 | the range query is sorted newest first and holds exactly the entries dated inside the range |
| Database.DeleteHistoryRows | src/core/database/index.ts:267-271 | history deletion keeps exactly the entries with another id |
| Database.PrayerRow | src/core/database/index.ts:116-134 | a seeded prayer row has a fresh id, is not a favourite, stores absent texts as `''` and otherwise copies the bundled entry |
| Database.MissingRows | src/core/database/index.ts:110-137 | the prayer loop adds no more rows than the bundle has, none a favourite, none with a known title |
| Database.MissingRowsCover | src/core/database/index.ts:110-137 | after the loop, every bundled title is known or was added |
| Database.MissingRowsCount | src/core/database/index.ts:113-136 | the loop adds exactly one row per bundled entry whose title is unknown |
| Database.SeedPrayersEffect | src/core/database/index.ts:100-140 | prayer seeding runs only below the bundle size; it keeps existing rows and their flags as a prefix, adds one non-favourite row per missing title, and afterwards every bundled title is stored |
| Database.SeedPrayersIdempotent | src/core/database/index.ts:100-140 | a second prayer seeding adds nothing |
| Database.PrayerOrdersArePreorders | src/core/database/index.ts:274-295 | `ORDER BY category, display_order` and `ORDER BY display_order` are total preorders, so the listings are sorted |
| Database.ToggleFavoriteRows | src/core/database/index.ts:313-320 | the toggle flips the flag of exactly the rows with that id |
| Database.ToggleFavoriteTwice | src/core/database/index.ts:313-320 | two toggles restore the table |
| Database.ToggleCommutesWithListing | src/core/database/index.ts:274-320 | toggling then listing equals listing then toggling |
| Database.EmptySearchMatchesAll | src/core/database/index.ts:297-311 | under a folding that keeps `''`, the empty query matches every row |
| Database.DatabaseService.constructor | src/core/database/index.ts:6-8 | a new service has no handle and is not initialised |
| Database.DatabaseService.Handle | src/core/database/index.ts:144 | a data method fails with 'Database not initialized' exactly when the handle is null |
| Database.DatabaseService.Initialize | src/core/database/index.ts:10-24 | already initialised: nothing happens; otherwise open, create, seed counters, seed prayers, and set the flag only when no step threw; a throw gives 'Failed to initialize database' and keeps the earlier steps' effects |
| Database.DatabaseService.CreateTables | src/core/database/index.ts:26-72 | no handle: not initialised; otherwise the schema step succeeds unless it throws, and changes no table |
| Database.DatabaseService.SeedDefaultZikirs | src/core/database/index.ts:74-98 | the loop leaves the counters table equal to `SeededZikirs` of the old table |
| Database.DatabaseService.SeedDefaultPrayers | src/core/database/index.ts:100-140 | the loop leaves the prayers table equal to `SeededPrayers`; `addedCount` is the number of rows added |
| Database.DatabaseService.GetAllZikirs | src/core/database/index.ts:143-151 | every row, as a permutation of the table, oldest first |
| Database.DatabaseService.GetZikirById | src/core/database/index.ts:153-163 | a row of the table with that id, or null exactly when there is none |
| Database.DatabaseService.CreateZikir | src/core/database/index.ts:165-187 | returns the created record and appends exactly its stored row |
| Database.DatabaseService.UpdateZikirCount | src/core/database/index.ts:189-193 | the table becomes the unconditional count overwrite of that id |
| Database.DatabaseService.UpdateZikirTarget | src/core/database/index.ts:195-199 | the table becomes the target overwrite of that id |
| Database.DatabaseService.ResetZikirCount | src/core/database/index.ts:201-205 | the table becomes the count overwrite to 0 of that id |
| Database.DatabaseService.DeleteZikir | src/core/database/index.ts:207-211 | removes that id's rows from the counters table and touches no other table (no cascade) |
| Database.DatabaseService.SaveZikirHistory | src/core/database/index.ts:214-226 | appends exactly one ledger entry |
| Database.DatabaseService.GetZikirHistory | src/core/database/index.ts:228-235 | newest first, drawn from the ledger, length `min(limit, size)`, the whole ledger for a negative limit; every returned entry is at least as new as every entry left out |
| Database.DatabaseService.GetZikirHistoryByDate | src/core/database/index.ts:237-244 | newest first; holds exactly the entries in the closed date range |
| Database.DatabaseService.GetTotalZikirCount | src/core/database/index.ts:246-254 | the sum of every entry's count (`SumCounts`, whose growth and order laws are proved), 0 on an empty ledger |
| Database.DatabaseService.GetDailyZikirCount | src/core/database/index.ts:256-265 | the sum of the counts recorded on that day (`DailyCount`, which grows by exactly a saved entry's count), 0 when no entry has that date |
| Database.DatabaseService.DeleteZikirHistory | src/core/database/index.ts:267-271 | removes exactly the entries with that id |
| Database.DatabaseService.GetAllPrayers | src/core/database/index.ts:274-282 | every row, as a permutation of the table, by category then display order |
| Database.DatabaseService.GetPrayersByCategory | src/core/database/index.ts:284-295 | exactly the rows whose category tag equals the text, in display order; none for a text that is no tag |
| Database.DatabaseService.SearchPrayers | src/core/database/index.ts:297-311 | exactly the rows where the folded query occurs in the folded title, Arabic text, Turkish translation or transliteration, sorted by category then display order; the empty query gives the full listing |
| Database.DatabaseService.TogglePrayerFavorite | src/core/database/index.ts:313-320 | the table becomes the flag flip of that id |
| Database.DatabaseService.GetFavoritePrayers | src/core/database/index.ts:322-332 | exactly the flagged rows, sorted by category then display order |
| Database.DatabaseService.Close | src/core/database/index.ts:357-363 | with a handle, clears both the handle and the flag; without one, nothing changes |
| Storage.EncodeSettings | src/core/services/storage.ts:27 | the stored text of a settings record is never empty, so it never reads as missing |
| Storage.Expect | src/core/services/storage.ts:13 | the literal is matched exactly when the text starts with it, and the rest is what follows |
| Storage.DecodeEncode | src/core/services/storage.ts:9-31 | whatever `saveSettings` writes, `getSettings` parses back unchanged |
| Storage.EncodeInjective | src/core/services/storage.ts:27 | distinct settings are stored as distinct texts |
| Storage.MergeLaws | src/core/services/storage.ts:40 | the spread merge keeps every absent key, takes every present one, is the identity for the empty patch, and is idempotent |
| Storage.SettingsIn | src/core/services/storage.ts:9-20 | a missing entry reads as the defaults; a stored settings text reads as what it encodes |
| Storage.SelectedIn | src/core/services/storage.ts:52-59 | the selected id is the stored value, or null exactly when unset |
| Storage.SettingsRoundTrip | src/core/services/storage.ts:9-32 | write then read gives the settings written; the other two readings are unchanged |
| Storage.SelectedRoundTrip | src/core/services/storage.ts:52-71 | write then read gives the id; the other readings are unchanged |
| Storage.OnboardingExactlyTrue | src/core/services/storage.ts:76-84 | onboarding reads as complete for exactly the stored text `'true'`; any other text or a missing entry reads as not complete |
| Storage.OnboardingRoundTrip | src/core/services/storage.ts:76-96 | completing onboarding makes it read as complete; the other readings are unchanged |
| Storage.EmptyReads | src/core/services/storage.ts:101-108 | a cleared store reads as the defaults, no selection and onboarding not complete |
| Storage.StorageService.constructor | src/core/services/storage.ts:5 | the service starts over the given map |
| Storage.StorageService.GetSettings | src/core/services/storage.ts:9-20 | a failed read gives the defaults; otherwise the map's reading |
| Storage.StorageService.SaveSettings | src/core/services/storage.ts:25-32 | fails exactly when writes fail; otherwise writes only the settings key, which then reads back as the record; other readings are unchanged |
| Storage.StorageService.UpdateSettings | src/core/services/storage.ts:37-47 | returns and persists the merge of the current reading with the patch; after a failed read that reading is the defaults, so the stored settings are overwritten; a failed write is rethrown and writes nothing |
| Storage.StorageService.GetSelectedZikirId | src/core/services/storage.ts:52-59 | null on a failed read, otherwise the stored id |
| Storage.StorageService.SaveSelectedZikirId | src/core/services/storage.ts:64-71 | writes only the selection key, which then reads back as the id |
| Storage.StorageService.IsOnboardingComplete | src/core/services/storage.ts:76-84 | true exactly when the read succeeds and the stored value is `'true'`; false on a failed read |
| Storage.StorageService.CompleteOnboarding | src/core/services/storage.ts:89-96 | writes `'true'` under the onboarding key only, which then reads as complete |
| Storage.StorageService.ClearAll | src/core/services/storage.ts:101-108 | empties the map, after which the readings are the defaults, null and false |
| ThemeResolution.ResolveCases | src/core/hooks/useTheme.ts:6-15 | auto follows a dark system scheme and is light otherwise, including null; an explicit theme is itself |
| ThemeResolution.ResolveDarkIff | src/core/hooks/useTheme.ts:10-14 | the result is dark exactly for the dark theme, or auto under a dark system |
| ThemeResolution.ResolveIgnoresSchemeUnlessAuto | src/core/hooks/useTheme.ts:14 | an explicit theme does not depend on the system scheme |
| SettingsStoreModel.ToggleLaws | src/store/settingsStore.ts:57-70 | the theme cycle is light, dark, auto and back after three steps; the language swap is an involution |
| SettingsStoreModel.CurrentTheme | src/store/settingsStore.ts:87-94 | auto is reported as light, which is the theme hook's rule without a system scheme |
| SettingsStoreModel.SettingsStore.constructor | src/store/settingsStore.ts:23-25 | the store starts at the default settings, not loading |
| SettingsStoreModel.SettingsStore.LoadSettings | src/store/settingsStore.ts:27-39 | the state becomes what storage reports, and the haptic flag follows it; after a successful read the state is what storage holds |
| SettingsStoreModel.SettingsStore.UpdateSettings | src/store/settingsStore.ts:41-55 | on success the state is storage's merge and storage holds exactly it, with only the settings key written; on failure nothing changes; the haptic flag follows a `hapticEnabled` key; being in step with storage is preserved |
| SettingsStoreModel.SettingsStore.ToggleTheme | src/store/settingsStore.ts:57-64 | the patch asks for the next theme of the cycle; on success the state is storage's merge with it and only the settings key is written; on failure nothing changes; from a state in step with storage, only the theme moves to the next one in the cycle |
| SettingsStoreModel.SettingsStore.ToggleLanguage | src/store/settingsStore.ts:66-70 | the patch asks for tr→en, anything else→tr; on success the state is storage's merge with it and only the settings key is written; on failure nothing changes; from a state in step with storage, only the language swaps |
| SettingsStoreModel.SettingsStore.ToggleSound | src/store/settingsStore.ts:72-75 | the patch negates the sound flag; on success the state is storage's merge with it and only the settings key is written; on failure nothing changes; from a state in step with storage, only the sound flag is negated |
| SettingsStoreModel.SettingsStore.ToggleHaptic | src/store/settingsStore.ts:77-80 | the patch negates the haptic setting, and the haptic service follows; on success the state is storage's merge with it and only the settings key is written; on failure nothing changes; from a state in step with storage, only the haptic setting is negated |
| SettingsStoreModel.SettingsStore.ToggleNotifications | src/store/settingsStore.ts:82-85 | the patch negates the notifications flag; on success the state is storage's merge with it and only the settings key is written; on failure nothing changes; from a state in step with storage, only the notifications flag is negated |
| SettingsStoreModel.SettingsStore.GetCurrentTheme | src/store/settingsStore.ts:87-94 | dark exactly when the stored theme is dark |
| ZikirStoreModel.ReplaceById | src/store/zikirStore.ts:71-73 | the map rewrites exactly the elements with that id |
| ZikirStoreModel.ReplaceByIdMembers | src/store/zikirStore.ts:71-73 | every element afterwards is the replacement or an untouched element with another id; ids stay in place |
| ZikirStoreModel.NonNegativeAfterReplace | src/store/zikirStore.ts:89-104 | rewriting one counter with a non-negative count keeps every count non-negative |
| ZikirStoreModel.InitialSelection | src/store/zikirStore.ts:37-41 | the persisted id's counter when present, otherwise the first counter, otherwise null |
| ZikirStoreModel.Fallback | src/store/zikirStore.ts:198-199 | the first remaining counter, or null exactly when none is left |
| ZikirStoreModel.CustomDraft | src/store/zikirStore.ts:169-178 | a custom counter has count 0, is custom, is transliterated as its name, and has target 33 unless one is given |
| ZikirStoreModel.MirrorsAfterReplace | src/store/zikirStore.ts:60-148 | rewriting one counter the same way in the list and the table keeps every counter mirrored |
| ZikirStoreModel.LoadedRowsMirror | src/store/zikirStore.ts:31-43 | rows loaded from a table with unique stored rows are each what the lookup returns |
| ZikirStoreModel.MirrorsAfterDelete | src/store/zikirStore.ts:189-205 | deleting one id in both places keeps every remaining counter mirrored |
| ZikirStoreModel.MirrorsAfterCreate | src/store/zikirStore.ts:169-181 | appending a created counter under a fresh id keeps every counter mirrored, the new one included |
| ZikirStoreModel.MirrorsAfterSetCount | src/store/zikirStore.ts:60-128 | after a count update, the selected counter with its new count mirrors its row, and other ids are unaffected |
| ZikirStoreModel.MirrorsAfterSetTarget | src/store/zikirStore.ts:130-148 | after a target update, the selection with its new target mirrors its row, and other ids are unaffected |
| ZikirStoreModel.ZikirStore.constructor | src/store/zikirStore.ts:25-29 | the store starts empty, with no selection, not loading and no error |
| ZikirStoreModel.ZikirStore.LoadZikirs | src/store/zikirStore.ts:31-48 | the list is every row oldest first and the selection is restored; a failure sets 'Failed to load zikirs' and keeps the state |
| ZikirStoreModel.ZikirStore.SelectZikir | src/store/zikirStore.ts:50-58 | the id is persisted under the selection key only, then selected; a failed persist changes nothing; both invariants are kept for a held counter |
| ZikirStoreModel.ZikirStore.IncrementCount | src/store/zikirStore.ts:60-87 | the selected count goes up by exactly 1 in the selection, the list and the table; no selection or a failing database changes nothing |
| ZikirStoreModel.ZikirStore.DecrementCount | src/store/zikirStore.ts:89-108 | nothing happens at count 0; otherwise the count goes down by 1 everywhere, so counts never go negative |
| ZikirStoreModel.ZikirStore.ResetCount | src/store/zikirStore.ts:110-128 | the selected count becomes 0 in all three places |
| ZikirStoreModel.ZikirStore.UpdateTarget | src/store/zikirStore.ts:130-148 | only the selected counter's target changes, in all three places |
| ZikirStoreModel.ZikirStore.SaveToHistory | src/store/zikirStore.ts:150-167 | nothing happens at count 0; otherwise one entry with the selected id, name and count is appended and the count is reset |
| ZikirStoreModel.ZikirStore.CreateCustomZikir | src/store/zikirStore.ts:169-187 | exactly one counter is appended to the list and one row to the table; a failure is rethrown and changes nothing |
| ZikirStoreModel.ZikirStore.DeleteZikir | src/store/zikirStore.ts:189-211 | the id leaves the list and the table; a deleted selection moves to the first counter left, whose id is persisted first and is the only storage write; failures are rethrown |
| PrayersScreenModel.FilterPrayersIsOneFilter | src/features/prayers/screens/PrayersScreen.tsx:50-73 | the category filter followed by the search filter is one order-preserving filter, holding exactly the prayers that pass both |
| PrayersScreenModel.BlankQueryFiltersNothing | src/features/prayers/screens/PrayersScreen.tsx:61 | a white-space-only query applies no search filter |
| PrayersScreenModel.ChoiceCases | src/features/prayers/screens/PrayersScreen.tsx:51-58 | 'all' keeps everything, 'favorites' exactly the favourites, a category exactly that category |
| PrayersScreenModel.SearchFields | src/features/prayers/screens/PrayersScreen.tsx:62-69 | the Arabic text matches the raw query; otherwise a match is in a lower-cased Latin field |
| PrayersScreenModel.PrayersScreen.constructor | src/features/prayers/screens/PrayersScreen.tsx:24-28 | the screen starts with empty lists, loading, no query and 'all' |
| PrayersScreenModel.PrayersScreen.Refilter | src/features/prayers/screens/PrayersScreen.tsx:34-36 | the filtered list is the filter of the current inputs |
| PrayersScreenModel.PrayersScreen.LoadPrayers | src/features/prayers/screens/PrayersScreen.tsx:38-48 | the list is the full database listing; a failure keeps it; loading ends |
| PrayersScreenModel.PrayersScreen.SetSearchQuery | src/features/prayers/screens/PrayersScreen.tsx:34-36 | a new query re-runs the filter |
| PrayersScreenModel.PrayersScreen.SelectCategory | src/features/prayers/screens/PrayersScreen.tsx:34-36 | a new category re-runs the filter |
| PrayersScreenModel.PrayersScreen.HandleToggleFavorite | src/features/prayers/screens/PrayersScreen.tsx:75-85 | the row is flipped first, then the same id in the list; a failure changes neither; a list fresh from the database stays fresh |
| PrayerCardModel.Render | src/features/prayers/components/PrayerCard.tsx:23-96 | the title follows the locale fallback, the source line shows only a set detail, and the details (transliteration, translation) show exactly when expanded |
| PrayerCardModel.LanguageFallback | src/features/prayers/components/PrayerCard.tsx:26-85 | English title and translation show exactly under 'en' when present and non-empty; otherwise the Turkish ones |
| PrayerCardModel.SourceLineAndIcon | src/features/prayers/components/PrayerCard.tsx:28-43 | the source line shows exactly when the detail is non-empty; the heart is filled exactly for a favourite; the button passes the prayer's id |
| PrayerCardModel.PrayerCard.constructor | src/features/prayers/components/PrayerCard.tsx:15 | a card starts collapsed |
| PrayerCardModel.PrayerCard.View | src/features/prayers/components/PrayerCard.tsx:54-87 | details show exactly when expanded |
| PrayerCardModel.PrayerCard.Press | src/features/prayers/components/PrayerCard.tsx:20 | pressing flips `isExpanded` |
| ZikirmatikScreenModel.TargetFallback | src/features/zikirmatik/screens/ZikirmatikScreen.tsx:107 | the reset text is '33' without a selection, otherwise text that parses back as the selection's target |
| ZikirmatikScreenModel.AddFormCheck | src/features/zikirmatik/screens/ZikirmatikScreen.tsx:111-121 | accepted exactly for a name that is not blank after trim and a target that parses to a number above 0; a blank name is reported first |
| ZikirmatikScreenModel.DefaultTargetAccepted | src/features/zikirmatik/screens/ZikirmatikScreen.tsx:127 | the form's default target '33' is accepted as 33 |
| ZikirmatikScreenModel.ZikirmatikScreen.constructor | src/features/zikirmatik/screens/ZikirmatikScreen.tsx:30-37 | the screen's state starts empty, with target text '33' |
| ZikirmatikScreenModel.ZikirmatikScreen.LoadTodayHistory | src/features/zikirmatik/screens/ZikirmatikScreen.tsx:55-66 | today's list is the range query from today to today, exactly that day's entries; a failure keeps it |
| ZikirmatikScreenModel.ZikirmatikScreen.HandleSaveToHistory | src/features/zikirmatik/screens/ZikirmatikScreen.tsx:68-75 | saving comes before reloading, so an entry saved today is in today's list; the entry is appended and the count reset to 0 in the selection, the list and the table; otherwise nothing changes; both store invariants are kept |
| ZikirmatikScreenModel.ZikirmatikScreen.HandleTargetChange | src/features/zikirmatik/screens/ZikirmatikScreen.tsx:100-109 | a positive number with a selection becomes the target in the selection, the list and the table, the field shows it and editing ends; if the store's write fails, the selection, the list, the table and the typed text stay as they were; otherwise an alert is raised, the text is reset, and no counter changes; both store invariants are kept |
| ZikirmatikScreenModel.ZikirmatikScreen.SyncTargetInput | src/features/zikirmatik/screens/ZikirmatikScreen.tsx:49-53 | the text becomes the selection's target written out, and parses back to it |
| ZikirmatikScreenModel.ZikirmatikScreen.HandleAddZikir | src/features/zikirmatik/screens/ZikirmatikScreen.tsx:111-132 | a rejected form raises its alert and creates nothing; an accepted one proceeds as `SubmitForm`; the selection is untouched and both store invariants are kept under a fresh id |
| ZikirmatikScreenModel.ZikirmatikScreen.SubmitForm | src/features/zikirmatik/screens/ZikirmatikScreen.tsx:123-131 | on success one counter with the untrimmed name, no Arabic text and the parsed target is appended to the list and its stored row to the table, and the form closes and resets; on failure an alert is raised and nothing else changes; both store invariants are kept under a fresh id |
| Location.ReplaceChar | src/services/locationService.ts:69-75 | a global one-character replace rewrites exactly the occurrences and keeps the length |
| Location.FoldTurkishPointwise | src/services/locationService.ts:69-75 | the six replaces fold ı, ş, ğ, ç, ö, ü to i, s, g, c, o, u character by character, leave none of them and keep every other character |
| Location.FoldTurkishIdempotent | src/services/locationService.ts:69-75 | folding twice is folding once |
| Location.NormalizeName | src/services/locationService.ts:61-75 | the normalised name contains none of the six letters and no combining mark |
| Location.FindCityByName | src/services/locationService.ts:51-59 | a result is a gazetteer entry whose normalised name or state name equals the normalised input; null exactly when no entry matches |
| Location.FindCityByNameIsFirst | src/services/locationService.ts:54-58 | every entry before the result fails the match |
| Location.Candidates | src/services/locationService.ts:34-35 | at most four candidate names, none empty |
| Location.FirstCandidateCity | src/services/locationService.ts:37-44 | the first candidate that finds a city wins, the result is in the gazetteer, and it is null exactly when no candidate matches |
| Location.GetCurrentCity | src/services/locationService.ts:18-49 | null for a refused permission, a failed call or no placemark; otherwise the loop's result equals the first-candidate rule |
| CityPicker.PickerNormalize | src/components/SimpleCityPicker.tsx:157-166 | the picker's normal form has none of the six letters and is empty exactly when the lower-cased input is blank |
| CityPicker.FilteredCitiesSpec | src/components/SimpleCityPicker.tsx:45-52 | an empty query gives the whole gazetteer; otherwise exactly the cities whose normalised name contains the normalised query, in gazetteer order |
| CityPicker.BlankQueryListsAll | src/components/SimpleCityPicker.tsx:45-52 | a query that lower-cases to white space normalises to '' and lists every city |

## Left out

- I/O and the environment:
  - Device and engine calls are inputs or flags, not behaviour. This covers SQLite itself, AsyncStorage, the clock, `generateId`, GPS permission, position and reverse geocoding, and `Alert`.
  - A closed handle, an `InitFault` value and the storage's `available` and `readable` flags stand for the failures.
- Haptics, ads, rendering and navigation: styles, the progress ratio, the interstitial ad after a save and the haptic calls (`light`, `selection`, `success`) are not modelled. Only the haptic service's enabled flag is kept, as a field of the settings store.
- Concurrency: the model is sequential. Interleaved awaits, such as two taps before a write finishes, are not modelled.
- `resetDatabase`: development-only file deletion, not modelled.
- Database.DatabaseService.GetZikirHistory: the default argument `limit = 50` is not modelled; the limit is always passed explicitly, as the statistics screen does with 20.
- Database.DatabaseService.Initialize: a throw inside a seeding loop after some rows were inserted is not modelled. A seeding step either completes or throws before its first insert.
- Database.DatabaseService.SearchPrayers: `%` and `_` inside the query are matched literally, not as wildcards. The engine's case folding is an abstract function.
- Database.DatabaseService.CreateZikir: an SQL statement throwing on an open handle, for example a duplicate id, is not modelled. Ids are assumed fresh.
- Storage.StorageService.GetSettings: stored text other than the exact `JSON.stringify` output of a full settings record reads as the defaults here. In the source, JSON.parse accepts any valid JSON, and a partial or differently spaced object would be returned as is.
- Text.ParseIntOfIntToString: covers integer values only. Number precision, exponent notation and `NaN` targets are not modelled.
- Types.DayOf: the `YYYY-MM-DD` day is the UTC day number of the instant. The two clock reads `saveZikirHistory` makes are treated as one.
- ZikirmatikScreenModel.ZikirmatikScreen.HandleSaveToHistory: `handleDeleteHistory` and the ad are not modelled.
- PrayerCardModel.Render: the interface locale comes from a translation file that is not part of this model; it is an input. Labels from the translation tables are not modelled.
- The city picker's `handleCitySelect` and `handleUseLocation`, which reset the query and call the location service, are not modelled.
- `TURKISH_STATES` and `DEFAULT_PRAYERS` are not part of this model. They are parameters, so no property depends on their contents.
- Unicode lower-casing (`toLowerCase`, `toLocaleLowerCase('tr-TR')`) and NFD decomposition are parameters without a definition. `CityPicker.BlankQueryListsAll` takes as a hypothesis that the lower-cased query is blank.
- City coordinates are `real` and take part in no computation.
