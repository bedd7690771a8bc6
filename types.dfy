/** The record and enumeration shapes of the app (src/core/types/index.ts). Optional
    properties (`x?: string`) are `Option<string>`; boolean columns stored as 0/1 are `bool`. */
module Types {
  import opened Results

  type Id = string

  /** Milliseconds since the epoch, as `Date.now()` returns. An ISO-8601 `createdAt` string
      orders exactly as the instant it prints, so it is kept as the instant. */
  type Instant = nat

  /** A UTC calendar day: the `YYYY-MM-DD` part of `toISOString()`, ordered as days. */
  type Day = int

  const MillisPerDay: nat := 86400000

  function DayOf(t: Instant): Day {
    t / MillisPerDay
  }

  /** One reading of the id generator (`Date.now()` plus random digits) and of the clock. */
  datatype Stamp = Stamp(id: Id, at: Instant)

  /** A counter (`Zikir`). */
  datatype Zikir = Zikir(
    id: Id,
    name: string,
    arabicText: Option<string>,
    transliteration: Option<string>,
    count: int,
    target: int,
    isCustom: bool,
    createdAt: Instant)

  /** `Omit<Zikir, 'id' | 'createdAt'>`: a counter before the store gives it an id. */
  datatype ZikirDraft = ZikirDraft(
    name: string,
    arabicText: Option<string>,
    transliteration: Option<string>,
    count: int,
    target: int,
    isCustom: bool)

  /** One ledger entry (`ZikirHistory`). */
  datatype ZikirHistory = ZikirHistory(
    id: Id,
    zikirId: Id,
    zikirName: string,
    count: int,
    date: Day,
    timestamp: Instant)

  datatype PrayerCategory =
    | Namaz | SabahAksam | Yemek | Yolculuk | Gunluk | Quran | Hastalik | Istighfar

  const AllCategories: seq<PrayerCategory> :=
    [Namaz, SabahAksam, Yemek, Yolculuk, Gunluk, Quran, Hastalik, Istighfar]

  /** The text stored in the `category` column. */
  function CategoryTag(c: PrayerCategory): string {
    match c
    case Namaz => "namaz"
    case SabahAksam => "sabah_aksam"
    case Yemek => "yemek"
    case Yolculuk => "yolculuk"
    case Gunluk => "gunluk"
    case Quran => "quran"
    case Hastalik => "hastalik"
    case Istighfar => "istighfar"
  }

  /** Reads a `category` column value back; any other text is no category. */
  function CategoryOfTag(s: string): (r: Option<PrayerCategory>)
    ensures r.Some? ==> CategoryTag(r.value) == s
  {
    if s == "namaz" then Some(Namaz)
    else if s == "sabah_aksam" then Some(SabahAksam)
    else if s == "yemek" then Some(Yemek)
    else if s == "yolculuk" then Some(Yolculuk)
    else if s == "gunluk" then Some(Gunluk)
    else if s == "quran" then Some(Quran)
    else if s == "hastalik" then Some(Hastalik)
    else if s == "istighfar" then Some(Istighfar)
    else None
  }

  /** The category union has exactly eight members, each with its own tag. */
  lemma CategoriesClosed(c: PrayerCategory, d: PrayerCategory)
    ensures |AllCategories| == 8 && c in AllCategories
    ensures CategoryOfTag(CategoryTag(c)) == Some(c)
    ensures CategoryTag(c) == CategoryTag(d) ==> c == d
  {
    assert CategoryOfTag(CategoryTag(d)) == Some(d);
  }

  /** `Prayer.source`: one of five attributions. */
  datatype PrayerSource = SourceQuran | SourceHadith | SourceMasnun | SourceAqidah | SourceDua

  const AllSources: seq<PrayerSource> :=
    [SourceQuran, SourceHadith, SourceMasnun, SourceAqidah, SourceDua]

  lemma SourcesClosed(s: PrayerSource)
    ensures |AllSources| == 5 && s in AllSources
  {
  }

  /** A reference-library entry (`Prayer`). */
  datatype Prayer = Prayer(
    id: Id,
    category: PrayerCategory,
    titleTr: string,
    titleEn: Option<string>,
    titleAr: Option<string>,
    arabicText: string,
    turkishTranslation: string,
    englishTranslation: Option<string>,
    transliteration: string,
    source: PrayerSource,
    sourceDetail: Option<string>,
    isFavorite: bool,
    displayOrder: int)

  /** `AppSettings.theme`. */
  datatype Theme = Light | Dark | Auto

  /** `AppSettings.language`. */
  datatype Language = Tr | En

  datatype AppSettings = AppSettings(
    theme: Theme,
    language: Language,
    soundEnabled: bool,
    hapticEnabled: bool,
    notificationsEnabled: bool)

  /** `ThemeMode`: a resolved theme; `auto` is not one of its values. */
  datatype ThemeMode = LightMode | DarkMode

  /** A gazetteer entry. Coordinates are floating point in the source. */
  datatype City = City(id: Id, name: string, stateName: string, latitude: real, longitude: real)

  /** JavaScript truthiness of an optional string: present and non-empty. */
  predicate Truthy(s: Option<string>) {
    s.Some? && s.value != ""
  }

  /** `s || ''`. */
  function OrEmpty(s: Option<string>): (r: string)
    ensures Truthy(s) ==> r == s.value
    ensures !Truthy(s) ==> r == ""
  {
    if s.Some? then s.value else ""
  }
}
