/** The earlier draft of the translation bootstrap, `public/js/translation.js`:
    a single global dictionary that every load replaces (no per-language
    cache), values written as plain text with no `{year}` substitution, and
    a `setLanguage` that goes on after a failed load. */
module Draft {
  import opened Wrappers
  import opened Dom
  import I18n

  /** The `forEach` body of `translatePage`: a truthy `translations[key]`
      becomes the element's `textContent`, verbatim. */
  function DraftTranslateElement(e: Element, dict: I18n.Dictionary): (r: Element)
    ensures r == e.(content := r.content)
    ensures e.key.None? || e.key.value !in dict || dict[e.key.value] == "" ==> r == e
    ensures e.key.Some? && e.key.value in dict && dict[e.key.value] != "" ==> r.content == PlainText(dict[e.key.value])
  {
    if e.key.Some? && e.key.value in dict && dict[e.key.value] != "" then
      e.(content := PlainText(dict[e.key.value]))
    else
      e
  }

  /** `translatePage()` over the whole page: only contents change, and an
      element's content changes only to plain text. */
  function DraftTranslatePage(page: seq<Element>, dict: I18n.Dictionary): (r: seq<Element>)
    ensures |r| == |page|
    ensures forall i :: 0 <= i < |r| ==> r[i] == page[i].(content := r[i].content)
    ensures forall i :: 0 <= i < |r| ==> r[i].content == page[i].content || r[i].content.PlainText?
  {
    seq(|page|, i requires 0 <= i < |page| => DraftTranslateElement(page[i], dict))
  }

  /** An unmarked element, a missing key or an empty value leaves the
      element as it was; a present value is written exactly, `{year}` and
      all, under every key including the copyright key. */
  lemma DraftTranslateEntry(page: seq<Element>, dict: I18n.Dictionary, i: nat)
    requires i < |page|
    ensures page[i].key.None? || page[i].key.value !in dict || dict[page[i].key.value] == "" ==>
              DraftTranslatePage(page, dict)[i] == page[i]
    ensures page[i].key.Some? && page[i].key.value in dict && dict[page[i].key.value] != "" ==>
              DraftTranslatePage(page, dict)[i] == page[i].(content := PlainText(dict[page[i].key.value]))
  {
  }

  /** `translatePage` is idempotent for a fixed dictionary. */
  lemma DraftTranslateIdempotent(page: seq<Element>, dict: I18n.Dictionary)
    ensures DraftTranslatePage(DraftTranslatePage(page, dict), dict) == DraftTranslatePage(page, dict)
  {
  }

  /** The two drafts agree on the text for every key but the copyright
      key: with the draft's dictionary loaded as `lang`, both leave the same
      elements alone and write the same string into the others; only the
      way it is written differs (plain text against markup). */
  lemma DraftAgreesWithApp(page: seq<Element>, dict: I18n.Dictionary, lang: string, year: nat, i: nat)
    requires i < |page| && page[i].key != Some(I18n.FooterKey)
    ensures var draft, app := DraftTranslatePage(page, dict)[i], I18n.TranslatePage(page, map[lang := dict], lang, year)[i];
            if page[i].key.Some? && page[i].key.value in dict && dict[page[i].key.value] != "" then
              && draft == page[i].(content := PlainText(dict[page[i].key.value]))
              && app == page[i].(content := Markup(dict[page[i].key.value]))
            else
              draft == page[i] && app == page[i]
  {
  }

  class DraftSite {
    /** The module-level `translations` dictionary (one language at a time). */
    var translations: I18n.Dictionary
    /** `localStorage.getItem('language')`. */
    var storage: Option<string>
    /** `document.documentElement.lang`. */
    var docLang: string
    /** The page's elements, in document order. */
    var elements: seq<Element>

    /** A freshly loaded page: the dictionary starts empty (`{}`). */
    constructor (storage: Option<string>, docLang: string, elements: seq<Element>)
      ensures this.translations == map[]
      ensures this.storage == storage && this.docLang == docLang && this.elements == elements
    {
      this.translations := map[];
      this.storage := storage;
      this.docLang := docLang;
      this.elements := elements;
    }

    /** `loadTranslations(lang)`: `response` is the outcome of fetching
        `/public/locales/<lang>.json`. A success replaces the whole
        dictionary (no merge, no cache); a failure keeps the previous one. */
    method LoadTranslations(lang: string, response: Fetch<I18n.Dictionary>)
      modifies this`translations
      ensures translations == if response.Loaded? then response.value else old(translations)
    {
      match response
      case Loaded(dict) =>
        translations := dict;
      case Failed =>
    }

    /** `translatePage()`. */
    method TranslatePage()
      modifies this`elements
      ensures elements == DraftTranslatePage(old(elements), translations)
    {
      var i := 0;
      while i < |elements|
        invariant 0 <= i <= |elements| == |old(elements)|
        invariant forall k :: 0 <= k < i ==> elements[k] == DraftTranslateElement(old(elements)[k], translations)
        invariant forall k :: i <= k < |elements| ==> elements[k] == old(elements)[k]
      {
        var element := elements[i];
        if element.key.Some? {
          var key := element.key.value;
          if key in translations && translations[key] != "" {
            elements := elements[i := element.(content := PlainText(translations[key]))];
          }
        }
        i := i + 1;
      }
    }

    /** `setLanguage(lang)`: load, translate, persist, set the document
        language. Even after a failed load it re-translates with the OLD
        dictionary and still records `lang` in storage and on the document. */
    method SetLanguage(lang: string, response: Fetch<I18n.Dictionary>)
      modifies this`translations, this`elements, this`storage, this`docLang
      ensures translations == if response.Loaded? then response.value else old(translations)
      ensures elements == DraftTranslatePage(old(elements), translations)
      ensures storage == Some(lang)
      ensures docLang == lang
    {
      LoadTranslations(lang, response);
      TranslatePage();
      storage := Some(lang);
      docLang := lang;
    }

    /** The `DOMContentLoaded` handler: the stored language, or `es`. */
    method Start(response: Fetch<I18n.Dictionary>) returns (lang: string)
      modifies this`translations, this`elements, this`storage, this`docLang
      ensures lang == I18n.StartupLanguage(old(storage))
      ensures translations == if response.Loaded? then response.value else old(translations)
      ensures elements == DraftTranslatePage(old(elements), translations)
      ensures storage == Some(lang) && docLang == lang
    {
      lang := I18n.StartupLanguage(storage);
      SetLanguage(lang, response);
    }
  }
}
