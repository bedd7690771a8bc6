/** The theme resolution rule of src/core/hooks/useTheme.ts. */
module ThemeResolution {
  import opened Results
  import opened Types

  /** `useTheme`: an `auto` theme follows the system colour scheme, which is `'dark'`,
      `'light'`, or absent (`null`); an explicit theme ignores it. */
  function Resolve(theme: Theme, systemScheme: Option<string>): ThemeMode {
    if theme == Auto then
      if systemScheme == Some("dark") then DarkMode else LightMode
    else if theme == Dark then DarkMode else LightMode
  }

  /** The four cases of the rule. */
  lemma ResolveCases(systemScheme: Option<string>)
    ensures systemScheme == Some("dark") ==> Resolve(Auto, systemScheme) == DarkMode
    ensures systemScheme != Some("dark") ==> Resolve(Auto, systemScheme) == LightMode
    ensures Resolve(Dark, systemScheme) == DarkMode
    ensures Resolve(Light, systemScheme) == LightMode
  {
  }

  /** The result is dark exactly when the theme is dark, or auto under a dark system. */
  lemma ResolveDarkIff(theme: Theme, systemScheme: Option<string>)
    ensures Resolve(theme, systemScheme) == DarkMode <==>
            theme == Dark || (theme == Auto && systemScheme == Some("dark"))
  {
  }

  /** Only an `auto` theme depends on the system scheme. */
  lemma ResolveIgnoresSchemeUnlessAuto(theme: Theme, a: Option<string>, b: Option<string>)
    requires theme != Auto
    ensures Resolve(theme, a) == Resolve(theme, b)
  {
  }
}
