/** Literal data of src/core/constants/index.ts: the built-in counters, the default
    settings and the key-value storage keys. */
module Constants {
  import opened Results
  import opened Types

  const DefaultZikirs: seq<ZikirDraft> := [
    ZikirDraft("Subhanallah", Some("سُبْحَانَ اللّٰهِ"), Some("Subhanallah"), 0, 33, false),
    ZikirDraft("Elhamdulillah", Some("اَلْحَمْدُ لِلّٰهِ"), Some("Elhamdulillah"), 0, 33, false),
    ZikirDraft("Allahu Ekber", Some("اَللّٰهُ اَكْبَرُ"), Some("Allahu Ekber"), 0, 34, false),
    ZikirDraft("Estağfirullah", Some("اَسْتَغْفِرُ اللّٰهَ"), Some("Estağfirullah"), 0, 100, false),
    ZikirDraft("La ilahe illallah", Some("لَا اِلٰهَ اِلَّا اللّٰهُ"), Some("La ilahe illallah"), 0, 100, false)
  ]

  /** Five built-ins, none custom, all at zero, each transliterated as its own name,
      with targets 33, 33, 34, 100, 100. */
  lemma DefaultZikirsShape()
    ensures |DefaultZikirs| == 5
    ensures forall i :: 0 <= i < |DefaultZikirs| ==>
              && DefaultZikirs[i].count == 0
              && !DefaultZikirs[i].isCustom
              && DefaultZikirs[i].transliteration == Some(DefaultZikirs[i].name)
              && DefaultZikirs[i].target > 0
    ensures seq(5, i requires 0 <= i < 5 => DefaultZikirs[i].target) == [33, 33, 34, 100, 100]
  {
  }

  const DefaultSettings: AppSettings := AppSettings(Auto, Tr, true, true, true)

  lemma DefaultSettingsShape()
    ensures DefaultSettings.theme == Auto && DefaultSettings.language == Tr
    ensures DefaultSettings.soundEnabled && DefaultSettings.hapticEnabled
    ensures DefaultSettings.notificationsEnabled
  {
  }

  const SettingsKey: string := "@zikirmatik_settings"
  const SelectedZikirKey: string := "@zikirmatik_selected_zikir"
  const ThemeKey: string := "@zikirmatik_theme"
  const LanguageKey: string := "@zikirmatik_language"
  const OnboardingKey: string := "@zikirmatik_onboarding"

  const StorageKeys: seq<string> := [SettingsKey, SelectedZikirKey, ThemeKey, LanguageKey, OnboardingKey]

  /** No two storage keys collide, so writing one entry never overwrites another. */
  lemma StorageKeysDistinct()
    ensures forall i, j :: 0 <= i < j < |StorageKeys| ==> StorageKeys[i] != StorageKeys[j]
  {
  }
}
