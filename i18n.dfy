/** The translation rules of `public/js/app.js`: how a cached locale
    dictionary is applied to the marked elements of the page, which language
    the page starts in, and which language buttons end up active. */
module I18n {
  import opened Wrappers
  import opened Dom
  import Strings

  /** The one key whose value gets the current year substituted. */
  const FooterKey: string := "footer_copyright"
  /** The placeholder replaced by the year. */
  const YearToken: string := "{year}"
  /** The language used when storage holds none. */
  const DefaultLanguage: string := "es"

  /** A locale file: translation key to localized string. */
  type Dictionary = map<string, string>
  /** The module-level `translations` object: language code to its loaded dictionary. */
  type Cache = map<string, Dictionary>

  /** `translations[lang][key]` when `translations[lang] && translations[lang][key]`
      holds: the language is loaded, the key is present and its value is not
      the (falsy) empty string. */
  function Lookup(cache: Cache, lang: string, key: string): (r: Option<string>)
    ensures r.Some? ==> lang in cache && key in cache[lang] && r.value == cache[lang][key] && r.value != ""
    ensures r.None? ==> lang !in cache || key !in cache[lang] || cache[lang][key] == ""
  {
    if lang in cache && key in cache[lang] && cache[lang][key] != "" then
      Some(cache[lang][key])
    else
      None
  }

  /** The text written for `key`: for the copyright key the first `{year}`
      becomes the decimal year, every other value is written as it is. */
  function Localize(key: string, value: string, year: nat): (r: string)
    ensures key != FooterKey ==> r == value
    ensures key == FooterKey && (forall j: nat :: !Strings.OccursAt(value, YearToken, j)) ==> r == value
    ensures key == FooterKey ==> forall j: nat :: Strings.FirstOccurrence(value, YearToken, j) ==>
              r == value[..j] + Strings.DecimalString(year) + value[j + |YearToken|..]
  {
    if key == FooterKey then
      Strings.ReplaceFirst(value, YearToken, Strings.DecimalString(year))
    else
      value
  }

  /** The body of the `forEach` in `applyTranslations` for one element. */
  function TranslateElement(e: Element, cache: Cache, lang: string, year: nat): (r: Element)
    ensures r == e.(content := r.content)
    ensures e.key.None? || Lookup(cache, lang, e.key.value).None? ==> r == e
    ensures e.key.Some? && Lookup(cache, lang, e.key.value).Some? ==>
              r.content == Markup(Localize(e.key.value, cache[lang][e.key.value], year))
  {
    if e.key.Some? && Lookup(cache, lang, e.key.value).Some? then
      e.(content := Markup(Localize(e.key.value, Lookup(cache, lang, e.key.value).value, year)))
    else
      e
  }

  /** `applyTranslations(lang)` over the whole page: only contents change,
      and an element's content changes only to markup. */
  function TranslatePage(page: seq<Element>, cache: Cache, lang: string, year: nat): (r: seq<Element>)
    ensures |r| == |page|
    ensures forall i :: 0 <= i < |r| ==> r[i] == page[i].(content := r[i].content)
    ensures forall i :: 0 <= i < |r| ==> r[i].content == page[i].content || r[i].content.Markup?
  {
    seq(|page|, i requires 0 <= i < |page| => TranslateElement(page[i], cache, lang, year))
  }

  /** An unmarked element, an unloaded language, a missing key or an empty
      value leaves the element exactly as it was. */
  lemma TranslateUntouched(page: seq<Element>, cache: Cache, lang: string, year: nat, i: nat)
    requires i < |page|
    requires page[i].key.None? || lang !in cache || page[i].key.value !in cache[lang]
             || cache[lang][page[i].key.value] == ""
    ensures TranslatePage(page, cache, lang, year)[i] == page[i]
  {
  }

  /** Nothing is ever blanked: an element either keeps its content or shows
      a non-empty markup string. */
  lemma TranslateNeverBlanks(page: seq<Element>, cache: Cache, lang: string, year: nat, i: nat)
    requires i < |page|
    ensures var c := TranslatePage(page, cache, lang, year)[i].content;
            c == page[i].content || (c.Markup? && c.html != "")
  {
    var e := page[i];
    if e.key.Some? && Lookup(cache, lang, e.key.value).Some? && e.key.value == FooterKey {
      Strings.ReplaceFirstNonEmpty(Lookup(cache, lang, e.key.value).value, YearToken,
                                   Strings.DecimalString(year));
    }
  }

  /** A present, non-empty value under any key but the copyright key
      becomes the element's content exactly. */
  lemma TranslateWritesValue(page: seq<Element>, cache: Cache, lang: string, year: nat, i: nat)
    requires i < |page| && page[i].key.Some? && page[i].key.value != FooterKey
    requires lang in cache && page[i].key.value in cache[lang]
    requires cache[lang][page[i].key.value] != ""
    ensures TranslatePage(page, cache, lang, year)[i]
         == page[i].(content := Markup(cache[lang][page[i].key.value]))
  {
  }

  /** The copyright value gets its FIRST `{year}` replaced by the year's
      digits and nothing else; without a `{year}` it is written unchanged. */
  lemma TranslateFooter(page: seq<Element>, cache: Cache, lang: string, year: nat, i: nat)
    requires i < |page| && page[i].key == Some(FooterKey)
    requires lang in cache && FooterKey in cache[lang] && cache[lang][FooterKey] != ""
    ensures var v, c := cache[lang][FooterKey], TranslatePage(page, cache, lang, year)[i].content;
            && ((forall j: nat :: !Strings.OccursAt(v, YearToken, j)) ==> c == Markup(v))
            && (forall j: nat :: Strings.FirstOccurrence(v, YearToken, j) ==>
                  c == Markup(v[..j] + Strings.DecimalString(year) + v[j + |YearToken|..]))
  {
  }

  /** Applying the same dictionary twice with the same year gives what
      applying it once gives. */
  lemma TranslateIdempotent(page: seq<Element>, cache: Cache, lang: string, year: nat)
    ensures TranslatePage(TranslatePage(page, cache, lang, year), cache, lang, year)
         == TranslatePage(page, cache, lang, year)
  {
  }

  /** Translating for `first` and then for `second` gives what translating
      for `second` alone gives, provided `second` has a value for every key
      `first` has one for: each element `first` wrote is overwritten again. */
  lemma TranslateLastWins(page: seq<Element>, cache: Cache, first: string, second: string, year: nat)
    requires forall k :: Lookup(cache, first, k).Some? ==> Lookup(cache, second, k).Some?
    ensures TranslatePage(TranslatePage(page, cache, first, year), cache, second, year)
         == TranslatePage(page, cache, second, year)
  {
  }

  /** Switching from `es` to `en` and back restores the Spanish page when
      the Spanish dictionary covers every key the English one has. */
  lemma TranslateRoundTrip(page: seq<Element>, cache: Cache, year: nat)
    requires forall k :: Lookup(cache, "en", k).Some? ==> Lookup(cache, "es", k).Some?
    ensures var es := TranslatePage(page, cache, "es", year);
            TranslatePage(TranslatePage(es, cache, "en", year), cache, "es", year) == es
  {
    var es := TranslatePage(page, cache, "es", year);
    TranslateLastWins(es, cache, "en", "es", year);
    TranslateIdempotent(page, cache, "es", year);
  }

  /** Without that coverage switching back does not restore the page: an
      element whose key only the English dictionary has keeps the English
      text after returning to Spanish. */
  lemma TranslateRoundTripFails()
    ensures var cache := map["es" := map[], "en" := map["k" := "EN"]];
            var es := TranslatePage([Marked("k", "ES")], cache, "es", 0);
            TranslatePage(TranslatePage(es, cache, "en", 0), cache, "es", 0) != es
  {
    var cache: Cache := map["es" := map[], "en" := map["k" := "EN"]];
    var page := [Marked("k", "ES")];
    var es := TranslatePage(page, cache, "es", 0);
    assert es[0] == page[0];
    var en := TranslatePage(es, cache, "en", 0);
    assert en[0].content == Markup("EN");
    var back := TranslatePage(en, cache, "es", 0);
    assert back[0].content == Markup("EN");
  }

  /** `localStorage.getItem('language') || 'es'`: a stored, non-empty
      language wins; an absent or empty one gives the default. */
  function StartupLanguage(stored: Option<string>): (lang: string)
    ensures stored.Some? && stored.value != "" ==> lang == stored.value
    ensures stored.None? || stored.value == "" ==> lang == DefaultLanguage
    ensures lang != ""
  {
    if stored.Some? && stored.value != "" then stored.value else DefaultLanguage
  }

  /** The click guard: a language button switches only to a language other
      than the stored one (a missing stored value differs from every language). */
  function ShouldSwitch(selected: string, stored: Option<string>): (switch: bool)
    ensures switch <==> stored != Some(selected)
  {
    match stored
    case None => true
    case Some(current) => selected != current
  }

  /** The `classList.toggle('active', btn.dataset.lang === lang)` loop: a
      button is active afterwards iff its language is `lang`. */
  function ActivateButtons(buttons: seq<LangButton>, lang: string): (r: seq<LangButton>)
    ensures |r| == |buttons|
    ensures forall i :: 0 <= i < |r| ==> r[i].lang == buttons[i].lang
    ensures forall i :: 0 <= i < |r| ==> (r[i].active <==> buttons[i].lang == lang)
  {
    seq(|buttons|, i requires 0 <= i < |buttons| => buttons[i].(active := buttons[i].lang == lang))
  }

  /** After activation every active button shows the same language, and
      activating again for it changes nothing. */
  lemma ActivateButtonsSettled(buttons: seq<LangButton>, lang: string)
    ensures forall i, j ::
              && 0 <= i < j < |buttons|
              && ActivateButtons(buttons, lang)[i].active
              && ActivateButtons(buttons, lang)[j].active
              ==> buttons[i].lang == buttons[j].lang
    ensures ActivateButtons(ActivateButtons(buttons, lang), lang) == ActivateButtons(buttons, lang)
  {
  }
}
