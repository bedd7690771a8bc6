/** The settings store (src/store/settingsStore.ts): the in-memory settings, kept in step
    with the storage service, plus the haptic service's enabled flag it drives. */
module SettingsStoreModel {
  import opened Results
  import opened Types
  import opened Constants
  import opened Storage
  import ThemeResolution

  /** `toggleTheme`: the next entry of `['light', 'dark', 'auto']`, wrapping around. */
  function NextTheme(t: Theme): Theme {
    match t
    case Light => Dark
    case Dark => Auto
    case Auto => Light
  }

  /** `toggleLanguage`: `'tr'` becomes `'en'`, anything else `'tr'`. */
  function OtherLanguage(l: Language): Language {
    if l == Tr then En else Tr
  }

  /** The cycle visits every theme and returns after three steps; the language swap is an
      involution. */
  lemma ToggleLaws(t: Theme, l: Language)
    ensures NextTheme(t) != t && NextTheme(NextTheme(t)) != t
    ensures NextTheme(NextTheme(NextTheme(t))) == t
    ensures NextTheme(Light) == Dark && NextTheme(Dark) == Auto && NextTheme(Auto) == Light
    ensures OtherLanguage(l) != l && OtherLanguage(OtherLanguage(l)) == l
  {
  }

  function ThemeOnly(t: Theme): SettingsPatch {
    NoChange.(theme := Some(t))
  }

  function LanguageOnly(l: Language): SettingsPatch {
    NoChange.(language := Some(l))
  }

  function SoundOnly(b: bool): SettingsPatch {
    NoChange.(soundEnabled := Some(b))
  }

  function HapticOnly(b: bool): SettingsPatch {
    NoChange.(hapticEnabled := Some(b))
  }

  function NotificationsOnly(b: bool): SettingsPatch {
    NoChange.(notificationsEnabled := Some(b))
  }

  /** `getCurrentTheme`: `auto` is reported as light, which is `useTheme`'s rule when the
      system scheme is unknown. */
  function CurrentTheme(s: AppSettings): (m: ThemeMode)
    ensures m == ThemeResolution.Resolve(s.theme, None)
    ensures s.theme == Auto ==> m == LightMode
  {
    if s.theme == Auto then LightMode
    else if s.theme == Dark then DarkMode else LightMode
  }

  class SettingsStore {
    var settings: AppSettings
    var isLoading: bool
    /** `hapticService.enabled`. */
    var hapticEnabled: bool
    const storage: StorageService

    constructor (service: StorageService)
      ensures storage == service
      ensures settings == DefaultSettings && !isLoading && hapticEnabled
    {
      storage := service;
      settings := DefaultSettings;
      isLoading := false;
      hapticEnabled := true;
    }

    /** The in-memory settings are what storage holds. */
    predicate InSync()
      reads this, storage
    {
      settings == SettingsIn(storage.items)
    }

    /** `loadSettings`: the settings storage reports (defaults when the read fails) and the
        haptic flag that follows them. */
    method LoadSettings()
      modifies this`settings, this`isLoading, this`hapticEnabled
      ensures settings == storage.GetSettings() && !isLoading
      ensures hapticEnabled == settings.hapticEnabled
      ensures storage.readable ==> InSync()
    {
      isLoading := true;
      var s := storage.GetSettings();
      settings, isLoading := s, false;
      hapticEnabled := s.hapticEnabled;
    }

    /** `updateSettings(p)`: on success the state becomes storage's merge, which storage now
        holds, and the haptic flag follows a `hapticEnabled` key in `p`; on failure nothing
        changes. Only the settings key of storage is written. */
    method UpdateSettings(p: SettingsPatch)
      modifies this`settings, this`hapticEnabled, storage`items
      ensures storage.items == if storage.available then old(storage.items)[SettingsKey := EncodeSettings(settings)]
                               else old(storage.items)
      ensures storage.available ==> settings == Merge(old(storage.GetSettings()), p) && InSync()
      ensures storage.available && !storage.readable ==> settings == Merge(DefaultSettings, p)
      ensures !storage.available ==> settings == old(settings)
      ensures storage.GetSelectedZikirId() == old(storage.GetSelectedZikirId())
      ensures storage.IsOnboardingComplete() == old(storage.IsOnboardingComplete())
      ensures hapticEnabled == if storage.available && p.hapticEnabled.Some? then p.hapticEnabled.value
                               else old(hapticEnabled)
      ensures old(InSync()) ==> InSync()
      ensures old(InSync()) && storage.readable && storage.available ==> settings == Merge(old(settings), p)
    {
      var r := storage.UpdateSettings(p);
      if r.Err? {
        return;
      }
      settings := r.value;
      if p.hapticEnabled.Some? {
        hapticEnabled := p.hapticEnabled.value;
      }
    }

    /** `toggleTheme`: asks for the next theme of the cycle, computed from the in-memory theme. */
    method ToggleTheme()
      modifies this`settings, this`hapticEnabled, storage`items
      ensures storage.items == if storage.available then old(storage.items)[SettingsKey := EncodeSettings(settings)]
                               else old(storage.items)
      ensures storage.available ==> settings == Merge(old(storage.GetSettings()), ThemeOnly(NextTheme(old(settings.theme))))
      ensures !storage.available ==> settings == old(settings)
      ensures old(InSync()) ==> InSync()
      ensures old(InSync()) && storage.readable ==>
                settings == if storage.available then old(settings).(theme := NextTheme(old(settings.theme))) else old(settings)
      ensures hapticEnabled == old(hapticEnabled)
    {
      UpdateSettings(ThemeOnly(NextTheme(settings.theme)));
    }

    /** `toggleLanguage`: asks for the other language. */
    method ToggleLanguage()
      modifies this`settings, this`hapticEnabled, storage`items
      ensures storage.items == if storage.available then old(storage.items)[SettingsKey := EncodeSettings(settings)]
                               else old(storage.items)
      ensures storage.available ==> settings == Merge(old(storage.GetSettings()), LanguageOnly(OtherLanguage(old(settings.language))))
      ensures !storage.available ==> settings == old(settings)
      ensures old(InSync()) ==> InSync()
      ensures old(InSync()) && storage.readable ==>
                settings == if storage.available then old(settings).(language := OtherLanguage(old(settings.language))) else old(settings)
      ensures hapticEnabled == old(hapticEnabled)
    {
      UpdateSettings(LanguageOnly(OtherLanguage(settings.language)));
    }

    /** `toggleSound`: asks for the negated sound flag. */
    method ToggleSound()
      modifies this`settings, this`hapticEnabled, storage`items
      ensures storage.items == if storage.available then old(storage.items)[SettingsKey := EncodeSettings(settings)]
                               else old(storage.items)
      ensures storage.available ==> settings == Merge(old(storage.GetSettings()), SoundOnly(!old(settings.soundEnabled)))
      ensures !storage.available ==> settings == old(settings)
      ensures old(InSync()) ==> InSync()
      ensures old(InSync()) && storage.readable ==>
                settings == if storage.available then old(settings).(soundEnabled := !old(settings.soundEnabled)) else old(settings)
      ensures hapticEnabled == old(hapticEnabled)
    {
      UpdateSettings(SoundOnly(!settings.soundEnabled));
    }

    /** `toggleHaptic`: asks for the negated haptic flag, which the haptic service then follows. */
    method ToggleHaptic()
      modifies this`settings, this`hapticEnabled, storage`items
      ensures storage.items == if storage.available then old(storage.items)[SettingsKey := EncodeSettings(settings)]
                               else old(storage.items)
      ensures storage.available ==> settings == Merge(old(storage.GetSettings()), HapticOnly(!old(settings.hapticEnabled)))
      ensures !storage.available ==> settings == old(settings)
      ensures old(InSync()) ==> InSync()
      ensures old(InSync()) && storage.readable ==>
                settings == if storage.available then old(settings).(hapticEnabled := !old(settings.hapticEnabled)) else old(settings)
      ensures hapticEnabled == if storage.available then !old(settings.hapticEnabled) else old(hapticEnabled)
    {
      UpdateSettings(HapticOnly(!settings.hapticEnabled));
    }

    /** `toggleNotifications`: asks for the negated notifications flag. */
    method ToggleNotifications()
      modifies this`settings, this`hapticEnabled, storage`items
      ensures storage.items == if storage.available then old(storage.items)[SettingsKey := EncodeSettings(settings)]
                               else old(storage.items)
      ensures storage.available ==> settings == Merge(old(storage.GetSettings()), NotificationsOnly(!old(settings.notificationsEnabled)))
      ensures !storage.available ==> settings == old(settings)
      ensures old(InSync()) ==> InSync()
      ensures old(InSync()) && storage.readable ==>
                settings == if storage.available then old(settings).(notificationsEnabled := !old(settings.notificationsEnabled)) else old(settings)
      ensures hapticEnabled == old(hapticEnabled)
    {
      UpdateSettings(NotificationsOnly(!settings.notificationsEnabled));
    }

    /** `getCurrentTheme`. */
    function GetCurrentTheme(): (m: ThemeMode)
      reads this
      ensures m == CurrentTheme(settings)
      ensures settings.theme == Dark <==> m == DarkMode
    {
      CurrentTheme(settings)
    }
  }
}
