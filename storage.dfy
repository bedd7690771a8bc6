/** The key-value storage service (src/core/services/storage.ts) over AsyncStorage, which
    is a map from string keys to string values. Settings are stored as the JSON text
    `JSON.stringify` prints for them. */
module Storage {
  import opened Results
  import opened Types
  import opened Text
  import opened Constants

  /** A failed AsyncStorage call, rethrown by the writers. */
  datatype StorageError = StorageUnavailable

  // ---------------------------------------------------------------- settings as JSON

  function ThemeJson(t: Theme): string {
    match t
    case Light => "\"light\""
    case Dark => "\"dark\""
    case Auto => "\"auto\""
  }

  function LanguageJson(l: Language): string {
    match l
    case Tr => "\"tr\""
    case En => "\"en\""
  }

  function BoolJson(b: bool): string {
    if b then "true" else "false"
  }

  /** The literal text before each value: `{"theme":`, `,"language":` and so on. */
  const ThemeField: string := "{\"theme\":"
  const LanguageField: string := ",\"language\":"
  const SoundField: string := ",\"soundEnabled\":"
  const HapticField: string := ",\"hapticEnabled\":"
  const NotificationsField: string := ",\"notificationsEnabled\":"

  /** `JSON.stringify(settings)`: the keys in declaration order, no white space. */
  function EncodeSettings(s: AppSettings): (r: string)
    ensures r != ""
  {
    ThemeField + (ThemeJson(s.theme)
    + (LanguageField + (LanguageJson(s.language)
    + (SoundField + (BoolJson(s.soundEnabled)
    + (HapticField + (BoolJson(s.hapticEnabled)
    + (NotificationsField + (BoolJson(s.notificationsEnabled) + "}")))))))))
  }

  /** The text after the literal `lit`, when `t` starts with it. */
  function Expect(lit: string, t: string): (r: Option<string>)
    ensures r.Some? <==> StartsWith(t, lit)
    ensures r.Some? ==> t == lit + r.value
  {
    if StartsWith(t, lit) then
      assert t == t[..|lit|] + t[|lit|..];
      Some(t[|lit|..])
    else None
  }

  lemma ExpectLiteral(lit: string, rest: string)
    ensures Expect(lit, lit + rest) == Some(rest)
  {
    assert (lit + rest)[..|lit|] == lit;
    assert (lit + rest)[|lit|..] == rest;
  }

  function ReadTheme(t: string): Option<(Theme, string)> {
    if StartsWith(t, ThemeJson(Light)) then Some((Light, t[|ThemeJson(Light)|..]))
    else if StartsWith(t, ThemeJson(Dark)) then Some((Dark, t[|ThemeJson(Dark)|..]))
    else if StartsWith(t, ThemeJson(Auto)) then Some((Auto, t[|ThemeJson(Auto)|..]))
    else None
  }

  function ReadLanguage(t: string): Option<(Language, string)> {
    if StartsWith(t, LanguageJson(Tr)) then Some((Tr, t[|LanguageJson(Tr)|..]))
    else if StartsWith(t, LanguageJson(En)) then Some((En, t[|LanguageJson(En)|..]))
    else None
  }

  function ReadBool(t: string): Option<(bool, string)> {
    if StartsWith(t, "true") then Some((true, t[4..]))
    else if StartsWith(t, "false") then Some((false, t[5..]))
    else None
  }

  /** Reads back exactly the texts `EncodeSettings` prints; anything else is `None`. */
  function DecodeSettings(t: string): Option<AppSettings> {
    var t0 :- Expect(ThemeField, t);
    var (theme, t1) :- ReadTheme(t0);
    var t2 :- Expect(LanguageField, t1);
    var (language, t3) :- ReadLanguage(t2);
    DecodeFlags(theme, language, t3)
  }

  /** The three flags and the closing brace. */
  function DecodeFlags(theme: Theme, language: Language, t: string): Option<AppSettings> {
    var t4 :- Expect(SoundField, t);
    var (sound, t5) :- ReadBool(t4);
    var t6 :- Expect(HapticField, t5);
    var (haptic, t7) :- ReadBool(t6);
    var t8 :- Expect(NotificationsField, t7);
    var (notifications, t9) :- ReadBool(t8);
    if t9 == "}" then Some(AppSettings(theme, language, sound, haptic, notifications)) else None
  }

  lemma ReadThemeJson(th: Theme, rest: string)
    ensures ReadTheme(ThemeJson(th) + rest) == Some((th, rest))
  {
    var t := ThemeJson(th) + rest;
    assert t[..|ThemeJson(th)|] == ThemeJson(th);
    assert t[|ThemeJson(th)|..] == rest;
    assert t[1] == ThemeJson(th)[1];
  }

  lemma ReadLanguageJson(l: Language, rest: string)
    ensures ReadLanguage(LanguageJson(l) + rest) == Some((l, rest))
  {
    var t := LanguageJson(l) + rest;
    assert t[..|LanguageJson(l)|] == LanguageJson(l);
    assert t[|LanguageJson(l)|..] == rest;
    assert t[1] == LanguageJson(l)[1];
  }

  lemma ReadBoolJson(b: bool, rest: string)
    ensures ReadBool(BoolJson(b) + rest) == Some((b, rest))
  {
    var t := BoolJson(b) + rest;
    assert t[..|BoolJson(b)|] == BoolJson(b);
    assert t[|BoolJson(b)|..] == rest;
    assert t[0] == BoolJson(b)[0];
  }

  lemma DecodeFlagsOf(s: AppSettings)
    ensures DecodeFlags(s.theme, s.language,
                        SoundField + (BoolJson(s.soundEnabled)
                        + (HapticField + (BoolJson(s.hapticEnabled)
                        + (NotificationsField + (BoolJson(s.notificationsEnabled) + "}"))))))
            == Some(s)
  {
    var r9 := "}";
    var r8 := BoolJson(s.notificationsEnabled) + r9;
    var r7 := NotificationsField + r8;
    var r6 := BoolJson(s.hapticEnabled) + r7;
    var r5 := HapticField + r6;
    var r4 := BoolJson(s.soundEnabled) + r5;
    ExpectLiteral(SoundField, r4);
    ReadBoolJson(s.soundEnabled, r5);
    ExpectLiteral(HapticField, r6);
    ReadBoolJson(s.hapticEnabled, r7);
    ExpectLiteral(NotificationsField, r8);
    ReadBoolJson(s.notificationsEnabled, r9);
  }

  /** Whatever `saveSettings` writes, `getSettings` reads back unchanged. */
  lemma DecodeEncode(s: AppSettings)
    ensures DecodeSettings(EncodeSettings(s)) == Some(s)
  {
    var r3 := SoundField + (BoolJson(s.soundEnabled)
              + (HapticField + (BoolJson(s.hapticEnabled)
              + (NotificationsField + (BoolJson(s.notificationsEnabled) + "}")))));
    var r2 := LanguageJson(s.language) + r3;
    var r1 := LanguageField + r2;
    var r0 := ThemeJson(s.theme) + r1;
    ExpectLiteral(ThemeField, r0);
    ReadThemeJson(s.theme, r1);
    ExpectLiteral(LanguageField, r2);
    ReadLanguageJson(s.language, r3);
    DecodeFlagsOf(s);
  }

  /** Two settings records never share a text, so the stored text determines them. */
  lemma EncodeInjective(s: AppSettings, t: AppSettings)
    ensures EncodeSettings(s) == EncodeSettings(t) ==> s == t
  {
    DecodeEncode(s);
    DecodeEncode(t);
  }

  // ---------------------------------------------------------------- partial settings

  /** `Partial<AppSettings>`: a key is present or absent. */
  datatype SettingsPatch = SettingsPatch(
    theme: Option<Theme>,
    language: Option<Language>,
    soundEnabled: Option<bool>,
    hapticEnabled: Option<bool>,
    notificationsEnabled: Option<bool>)

  const NoChange: SettingsPatch := SettingsPatch(None, None, None, None, None)

  function Pick<T>(o: Option<T>, d: T): T {
    if o.Some? then o.value else d
  }

  /** `{ ...current, ...partial }`. */
  function Merge(s: AppSettings, p: SettingsPatch): AppSettings {
    AppSettings(Pick(p.theme, s.theme), Pick(p.language, s.language), Pick(p.soundEnabled, s.soundEnabled),
                Pick(p.hapticEnabled, s.hapticEnabled), Pick(p.notificationsEnabled, s.notificationsEnabled))
  }

  /** The patch that sets every key to the value in `t`. */
  function Whole(t: AppSettings): SettingsPatch {
    SettingsPatch(Some(t.theme), Some(t.language), Some(t.soundEnabled), Some(t.hapticEnabled), Some(t.notificationsEnabled))
  }

  /** The merge keeps every absent key, takes every present one, and merging the same patch
      twice is merging it once. */
  lemma MergeLaws(s: AppSettings, t: AppSettings, p: SettingsPatch)
    ensures Merge(s, NoChange) == s
    ensures Merge(s, Whole(t)) == t
    ensures Merge(Merge(s, p), p) == Merge(s, p)
    ensures p.theme.None? ==> Merge(s, p).theme == s.theme
    ensures p.theme.Some? ==> Merge(s, p).theme == p.theme.value
    ensures p.language.None? ==> Merge(s, p).language == s.language
    ensures p.language.Some? ==> Merge(s, p).language == p.language.value
    ensures p.soundEnabled.None? ==> Merge(s, p).soundEnabled == s.soundEnabled
    ensures p.soundEnabled.Some? ==> Merge(s, p).soundEnabled == p.soundEnabled.value
    ensures p.hapticEnabled.None? ==> Merge(s, p).hapticEnabled == s.hapticEnabled
    ensures p.hapticEnabled.Some? ==> Merge(s, p).hapticEnabled == p.hapticEnabled.value
    ensures p.notificationsEnabled.None? ==> Merge(s, p).notificationsEnabled == s.notificationsEnabled
    ensures p.notificationsEnabled.Some? ==> Merge(s, p).notificationsEnabled == p.notificationsEnabled.value
  {
  }

  // ---------------------------------------------------------------- reads over the map

  /** `getSettings` after a successful read: a missing or empty entry (falsy) gives the
      defaults, and so does text that is not a settings record. */
  function SettingsIn(items: map<string, string>): (r: AppSettings)
    ensures SettingsKey !in items ==> r == DefaultSettings
    ensures SettingsKey in items && DecodeSettings(items[SettingsKey]).Some? ==>
              r == DecodeSettings(items[SettingsKey]).value
  {
    if SettingsKey in items && items[SettingsKey] != "" then
      match DecodeSettings(items[SettingsKey])
      case Some(s) => s
      case None => DefaultSettings
    else DefaultSettings
  }

  /** `getSelectedZikirId` after a successful read: the stored id, or null. */
  function SelectedIn(items: map<string, string>): (r: Option<Id>)
    ensures r.Some? <==> SelectedZikirKey in items
    ensures r.Some? ==> r.value == items[SelectedZikirKey]
  {
    if SelectedZikirKey in items then Some(items[SelectedZikirKey]) else None
  }

  /** `isOnboardingComplete` after a successful read. */
  predicate OnboardedIn(items: map<string, string>) {
    OnboardingKey in items && items[OnboardingKey] == "true"
  }

  /** Writing the settings and reading them back gives what was written; the other
      readings stay as they were. */
  lemma SettingsRoundTrip(items: map<string, string>, s: AppSettings)
    ensures SettingsIn(items[SettingsKey := EncodeSettings(s)]) == s
    ensures SelectedIn(items[SettingsKey := EncodeSettings(s)]) == SelectedIn(items)
    ensures OnboardedIn(items[SettingsKey := EncodeSettings(s)]) == OnboardedIn(items)
  {
    DecodeEncode(s);
    assert SettingsKey != SelectedZikirKey && SettingsKey != OnboardingKey;
  }

  /** Writing the selected id and reading it back gives the id; the other readings stay. */
  lemma SelectedRoundTrip(items: map<string, string>, id: Id)
    ensures SelectedIn(items[SelectedZikirKey := id]) == Some(id)
    ensures SettingsIn(items[SelectedZikirKey := id]) == SettingsIn(items)
    ensures OnboardedIn(items[SelectedZikirKey := id]) == OnboardedIn(items)
  {
    var after := items[SelectedZikirKey := id];
    assert SettingsKey != SelectedZikirKey && SelectedZikirKey != OnboardingKey;
    assert SettingsKey in after <==> SettingsKey in items;
    assert SettingsKey in items ==> after[SettingsKey] == items[SettingsKey];
  }

  /** Completing onboarding makes it read as complete; the other readings stay. */
  lemma OnboardingRoundTrip(items: map<string, string>)
    ensures OnboardedIn(items[OnboardingKey := "true"])
    ensures SettingsIn(items[OnboardingKey := "true"]) == SettingsIn(items)
    ensures SelectedIn(items[OnboardingKey := "true"]) == SelectedIn(items)
  {
    var after := items[OnboardingKey := "true"];
    assert SettingsKey != OnboardingKey && SelectedZikirKey != OnboardingKey;
    assert SettingsKey in after <==> SettingsKey in items;
    assert SettingsKey in items ==> after[SettingsKey] == items[SettingsKey];
  }

  /** Onboarding reads as complete for exactly the stored text `'true'`: any other text,
      or no entry at all, reads as not complete. */
  lemma OnboardingExactlyTrue(items: map<string, string>, v: string)
    ensures OnboardedIn(items[OnboardingKey := v]) <==> v == "true"
    ensures !OnboardedIn(items - {OnboardingKey})
  {
  }

  /** An empty store reads as defaults, no selection and no onboarding. */
  lemma EmptyReads()
    ensures SettingsIn(map[]) == DefaultSettings
    ensures SelectedIn(map[]) == None
    ensures !OnboardedIn(map[])
  {
  }

  // ---------------------------------------------------------------- the service

  class StorageService {
    var items: map<string, string>
    /** Whether AsyncStorage writes (`setItem`, `clear`) currently succeed. */
    var available: bool
    /** Whether AsyncStorage reads (`getItem`) currently succeed. */
    var readable: bool

    constructor (initial: map<string, string>, writable: bool, canRead: bool)
      ensures items == initial && available == writable && readable == canRead
    {
      items, available, readable := initial, writable, canRead;
    }

    /** `getSettings`: never throws; a failed read gives the defaults. */
    function GetSettings(): (r: AppSettings)
      reads this
      ensures !readable ==> r == DefaultSettings
      ensures readable ==> r == SettingsIn(items)
    {
      if readable then SettingsIn(items) else DefaultSettings
    }

    /** `saveSettings`: rethrows a failed write. */
    method SaveSettings(s: AppSettings) returns (r: Status<StorageError>)
      modifies this`items
      ensures r.Done? <==> available
      ensures items == if available then old(items)[SettingsKey := EncodeSettings(s)] else old(items)
      ensures available && readable ==> GetSettings() == s
      ensures available ==> SettingsIn(items) == s
      ensures GetSelectedZikirId() == old(GetSelectedZikirId()) && IsOnboardingComplete() == old(IsOnboardingComplete())
    {
      if !available {
        return Failed(StorageUnavailable);
      }
      items := items[SettingsKey := EncodeSettings(s)];
      SettingsRoundTrip(old(items), s);
      r := Done;
    }

    /** `updateSettings`: read, merge, write, and return the merge. A failed read is
        swallowed by `getSettings`, so the merge is then taken over the defaults and
        overwrites whatever settings were stored. */
    method UpdateSettings(p: SettingsPatch) returns (r: Result<AppSettings, StorageError>)
      modifies this`items
      ensures r.Ok? <==> available
      ensures r.Ok? ==> r.value == Merge(old(GetSettings()), p)
      ensures r.Ok? && !readable ==> r.value == Merge(DefaultSettings, p)
      ensures items == if available then old(items)[SettingsKey := EncodeSettings(Merge(old(GetSettings()), p))]
                       else old(items)
      ensures available ==> SettingsIn(items) == Merge(old(GetSettings()), p)
      ensures available && readable ==> GetSettings() == Merge(old(GetSettings()), p)
    {
      var current := GetSettings();
      var updated := Merge(current, p);
      var s := SaveSettings(updated);
      if s.Failed? {
        return Err(s.error);
      }
      r := Ok(updated);
    }

    /** `getSelectedZikirId`: null when unset or when the read fails. */
    function GetSelectedZikirId(): (r: Option<Id>)
      reads this
      ensures !readable ==> r.None?
      ensures readable ==> r == SelectedIn(items)
    {
      if readable then SelectedIn(items) else None
    }

    method SaveSelectedZikirId(id: Id) returns (r: Status<StorageError>)
      modifies this`items
      ensures r.Done? <==> available
      ensures items == if available then old(items)[SelectedZikirKey := id] else old(items)
      ensures available && readable ==> GetSelectedZikirId() == Some(id)
      ensures available ==> SelectedIn(items) == Some(id)
      ensures GetSettings() == old(GetSettings()) && IsOnboardingComplete() == old(IsOnboardingComplete())
    {
      if !available {
        return Failed(StorageUnavailable);
      }
      items := items[SelectedZikirKey := id];
      SelectedRoundTrip(old(items), id);
      r := Done;
    }

    /** `isOnboardingComplete`: false when the read fails. */
    predicate IsOnboardingComplete()
      reads this
      ensures IsOnboardingComplete() <==> readable && OnboardingKey in items && items[OnboardingKey] == "true"
    {
      readable && OnboardedIn(items)
    }

    method CompleteOnboarding() returns (r: Status<StorageError>)
      modifies this`items
      ensures r.Done? <==> available
      ensures items == if available then old(items)[OnboardingKey := "true"] else old(items)
      ensures available && readable ==> IsOnboardingComplete()
      ensures available ==> OnboardedIn(items)
      ensures GetSettings() == old(GetSettings()) && GetSelectedZikirId() == old(GetSelectedZikirId())
    {
      if !available {
        return Failed(StorageUnavailable);
      }
      items := items[OnboardingKey := "true"];
      OnboardingRoundTrip(old(items));
      r := Done;
    }

    /** `clearAll`: removes every key. */
    method ClearAll() returns (r: Status<StorageError>)
      modifies this`items
      ensures r.Done? <==> available
      ensures items == if available then map[] else old(items)
      ensures GetSettings() == if available then DefaultSettings else old(GetSettings())
      ensures available ==> GetSelectedZikirId().None? && !IsOnboardingComplete()
    {
      if !available {
        return Failed(StorageUnavailable);
      }
      items := map[];
      r := Done;
    }
  }
}
