/** What a prayer card shows (src/features/prayers/components/PrayerCard.tsx): the
    language fallbacks, the optional source line, the favourite icon and the expandable
    details. The interface locale is an input. */
module PrayerCardModel {
  import opened Results
  import opened Types

  /** Which translation the card labels and shows. */
  datatype TranslationKind = EnglishTranslation | TurkishTranslation

  /** Everything on the card that depends on the prayer, the locale and `isExpanded`. */
  datatype CardView = CardView(
    title: string,
    sourceLine: Option<string>,
    favoriteIcon: string,
    arabicText: string,
    details: Option<Details>,
    chevron: string)

  /** The expanded part: the transliteration and one translation. */
  datatype Details = Details(transliteration: string, kind: TranslationKind, translation: string)

  /** `t.locale === 'en' && prayer.title_en ? prayer.title_en : prayer.title_tr`. */
  function ShownTitle(p: Prayer, locale: string): string {
    if locale == "en" && Truthy(p.titleEn) then p.titleEn.value else p.titleTr
  }

  function ShownTranslationKind(p: Prayer, locale: string): TranslationKind {
    if locale == "en" && Truthy(p.englishTranslation) then EnglishTranslation else TurkishTranslation
  }

  function ShownTranslation(p: Prayer, locale: string): string {
    if ShownTranslationKind(p, locale) == EnglishTranslation then p.englishTranslation.value else p.turkishTranslation
  }

  /** `{prayer.source_detail && ...}`. */
  function SourceLine(p: Prayer): Option<string> {
    if Truthy(p.sourceDetail) then Some(p.sourceDetail.value) else None
  }

  function FavoriteIcon(p: Prayer): string {
    if p.isFavorite then "heart" else "heart-outline"
  }

  /** The argument the heart button passes to `onToggleFavorite`. */
  function FavoriteTarget(p: Prayer): Id {
    p.id
  }

  function Render(p: Prayer, locale: string, expanded: bool): (v: CardView)
    ensures v.details.Some? <==> expanded
    ensures v.arabicText == p.arabicText
    ensures v.title == ShownTitle(p, locale) && v.sourceLine == SourceLine(p)
    ensures v.details.Some? ==> v.details.value.translation == ShownTranslation(p, locale)
  {
    CardView(
      ShownTitle(p, locale),
      SourceLine(p),
      FavoriteIcon(p),
      p.arabicText,
      if expanded then Some(Details(p.transliteration, ShownTranslationKind(p, locale), ShownTranslation(p, locale))) else None,
      if expanded then "chevron-up" else "chevron-down")
  }

  /** The English title and translation show exactly under the `en` locale when present and
      non-empty; otherwise the Turkish ones. */
  lemma LanguageFallback(p: Prayer, locale: string)
    ensures ShownTitle(p, locale) == p.titleEn.value <== locale == "en" && Truthy(p.titleEn)
    ensures ShownTitle(p, locale) == p.titleTr <== locale != "en" || !Truthy(p.titleEn)
    ensures ShownTranslationKind(p, locale) == EnglishTranslation <==> locale == "en" && Truthy(p.englishTranslation)
    ensures ShownTranslation(p, locale) == p.turkishTranslation <== locale != "en" || !Truthy(p.englishTranslation)
    ensures ShownTranslation(p, locale) != "" <== p.turkishTranslation != ""
  {
  }

  /** The source line appears exactly when the detail is present and non-empty; the icon is
      the filled heart exactly for a favourite. */
  lemma SourceLineAndIcon(p: Prayer)
    ensures SourceLine(p).Some? <==> Truthy(p.sourceDetail)
    ensures SourceLine(p).Some? ==> SourceLine(p).value == p.sourceDetail.value
    ensures FavoriteIcon(p) == "heart" <==> p.isFavorite
    ensures FavoriteIcon(p.(isFavorite := !p.isFavorite)) != FavoriteIcon(p)
    ensures FavoriteTarget(p) == p.id
  {
  }

  /** The card's one piece of state. */
  class PrayerCard {
    var isExpanded: bool
    const prayer: Prayer

    constructor (p: Prayer)
      ensures prayer == p && !isExpanded
    {
      prayer := p;
      isExpanded := false;
    }

    function View(locale: string): (v: CardView)
      reads this
      ensures v.details.Some? <==> isExpanded
    {
      Render(prayer, locale, isExpanded)
    }

    /** Pressing the card flips `isExpanded`; pressing twice restores the view. */
    method Press()
      modifies this`isExpanded
      ensures isExpanded == !old(isExpanded)
    {
      isExpanded := !isExpanded;
    }
  }
}
