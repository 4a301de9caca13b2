/** The page state that `public/js/app.js` changes, and its operations in
    the order the script runs them: partials, projects, then the language. */
module App {
  import opened Wrappers
  import opened Dom
  import Strings
  import I18n
  import BlogLinks
  import Projects
  import Partials

  class Site {
    /** `basePath`, fixed when the script loads. */
    const basePath: string
    /** Whether the page has an element with id `blog`. */
    const hasBlog: bool
    /** Whether the page has an element with id `projects-grid`. */
    const hasGrid: bool

    /** The module-level `translations` cache. */
    var translations: I18n.Cache
    /** `localStorage.getItem('language')`. */
    var storage: Option<string>
    /** `document.documentElement.lang`. */
    var docLang: string
    /** The page's elements outside the project grid, in document order. */
    var elements: seq<Element>
    /** The `.lang-btn` buttons. */
    var buttons: seq<LangButton>
    /** The cards rendered into `#projects-grid`. */
    var grid: seq<Projects.Card>

    /** A freshly loaded page at `pathname`: nothing is cached yet, and a
        page without `#projects-grid` has no cards. */
    constructor (pathname: string, hasBlog: bool, hasGrid: bool, storage: Option<string>, docLang: string,
                 elements: seq<Element>, buttons: seq<LangButton>, grid: seq<Projects.Card>)
      requires !hasGrid ==> grid == []
      ensures this.basePath == BlogLinks.BasePath(pathname)
      ensures this.hasBlog == hasBlog && this.hasGrid == hasGrid
      ensures this.translations == map[]
      ensures this.storage == storage && this.docLang == docLang
      ensures this.elements == elements && this.buttons == buttons && this.grid == grid
    {
      this.basePath := BlogLinks.BasePath(pathname);
      this.hasBlog := hasBlog;
      this.hasGrid := hasGrid;
      this.translations := map[];
      this.storage := storage;
      this.docLang := docLang;
      this.elements := elements;
      this.buttons := buttons;
      this.grid := grid;
    }

    /** The `forEach` body of `applyTranslations` for one element. */
    method TranslateElement(e: Element, lang: string, year: nat) returns (r: Element)
      ensures r == I18n.TranslateElement(e, translations, lang, year)
    {
      r := e;
      if e.key.Some? {
        var key := e.key.value;
        if lang in translations && key in translations[lang] && translations[lang][key] != "" {
          var text := translations[lang][key];
          if key == I18n.FooterKey {
            text := Strings.ReplaceFirst(text, I18n.YearToken, Strings.DecimalString(year));
          }
          r := e.(content := Markup(text));
        }
      }
    }

    /** `applyTranslations(lang)`: every marked element of the page, the
        cards of the grid included, is looked up in `translations[lang]`. */
    method ApplyTranslations(lang: string, year: nat)
      modifies this`elements, this`grid
      ensures elements == I18n.TranslatePage(old(elements), translations, lang, year)
      ensures grid == Projects.TranslateGrid(old(grid), translations, lang, year)
    {
      var i := 0;
      while i < |elements|
        invariant 0 <= i <= |elements| == |old(elements)|
        invariant forall k :: 0 <= k < i ==>
                    elements[k] == I18n.TranslateElement(old(elements)[k], translations, lang, year)
        invariant forall k :: i <= k < |elements| ==> elements[k] == old(elements)[k]
        invariant grid == old(grid)
      {
        var e := TranslateElement(elements[i], lang, year);
        elements := elements[i := e];
        i := i + 1;
      }
      var j := 0;
      while j < |grid|
        invariant 0 <= j <= |grid| == |old(grid)|
        invariant elements == I18n.TranslatePage(old(elements), translations, lang, year)
        invariant forall k :: 0 <= k < j ==>
                    grid[k] == Projects.TranslateCard(old(grid)[k], translations, lang, year)
        invariant forall k :: j <= k < |grid| ==> grid[k] == old(grid)[k]
      {
        var card := grid[j];
        var title := TranslateElement(card.title, lang, year);
        var description := TranslateElement(card.description, lang, year);
        var githubLabel := TranslateElement(card.githubLabel, lang, year);
        grid := grid[j := card.(title := title, description := description, githubLabel := githubLabel)];
        j := j + 1;
      }
    }

    /** The new `href` of one blog link: the part after the last `/`, with
        `en/` stripped, under the language's directory. */
    method RewriteHref(href: string, lang: string) returns (r: string)
      ensures r == BlogLinks.BlogHref(href, lang, basePath)
    {
      var postName := href[Strings.LastIndexOf(href, '/') + 1..];
      var cleanPostName := Strings.ReplaceFirst(postName, BlogLinks.StalePrefix, "");
      assert cleanPostName == postName by {
        Strings.NoOccurrenceWithout(postName, BlogLinks.StalePrefix, '/', 2);
      }
      if lang == "en" {
        r := basePath + BlogLinks.EnglishDir + cleanPostName;
      } else {
        r := basePath + BlogLinks.DefaultDir + cleanPostName;
      }
    }

    /** `updateBlogLinks(lang)`: each blog link is pointed at the post of
        the same name under the language's directory. */
    method UpdateBlogLinks(lang: string)
      modifies this`elements
      ensures elements == BlogLinks.UpdateLinks(old(elements), lang, basePath)
    {
      var i := 0;
      while i < |elements|
        invariant 0 <= i <= |elements| == |old(elements)|
        invariant forall k :: 0 <= k < i ==> elements[k] == BlogLinks.UpdateLink(old(elements)[k], lang, basePath)
        invariant forall k :: i <= k < |elements| ==> elements[k] == old(elements)[k]
      {
        var link := elements[i];
        if link.blogLink {
          var href := RewriteHref(link.href, lang);
          link := link.(href := href);
        }
        elements := elements[i := link];
        i := i + 1;
      }
    }

    /** The page as `setLanguage(lang)` leaves it once the dictionary is
        available: translated, and with blog links rewritten when there is
        a blog section. */
    ghost function Relocalized(page: seq<Element>, lang: string, year: nat): seq<Element>
      reads this
    {
      var translated := I18n.TranslatePage(page, translations, lang, year);
      if hasBlog then BlogLinks.UpdateLinks(translated, lang, basePath) else translated
    }

    /** What `setLanguage(lang)` does to the state, given `response`, the
        outcome of fetching the language's locale file, consulted only when
        the language is not cached yet. */
    twostate predicate LanguageSet(lang: string, response: Fetch<I18n.Dictionary>, year: nat,
                                   fetched: bool, applied: bool)
      reads this
    {
      && (fetched <==> lang !in old(translations))
      && (applied <==> !fetched || response.Loaded?)
      // a loaded dictionary is never replaced or dropped
      && (forall l :: l in old(translations) ==> l in translations && translations[l] == old(translations)[l])
      // a failed load returns before anything else is touched
      && (!applied ==>
            && translations == old(translations) && storage == old(storage) && docLang == old(docLang)
            && elements == old(elements) && grid == old(grid) && buttons == old(buttons))
      && (applied ==>
            && translations == (if fetched then old(translations)[lang := response.value] else old(translations))
            && elements == Relocalized(old(elements), lang, year)
            && grid == Projects.TranslateGrid(old(grid), translations, lang, year)
            && storage == Some(lang)
            && docLang == lang
            && buttons == I18n.ActivateButtons(old(buttons), lang))
    }

    /** `setLanguage(lang)`: fetch the dictionary unless it is cached, bail
        out on failure, then translate, rewrite blog links, persist the
        language, set the document language and mark the active button. */
    method SetLanguage(lang: string, response: Fetch<I18n.Dictionary>, year: nat)
      returns (fetched: bool, applied: bool)
      modifies this`translations, this`storage, this`docLang, this`elements, this`grid, this`buttons
      ensures LanguageSet(lang, response, year, fetched, applied)
    {
      fetched := lang !in translations;
      applied := true;
      if fetched {
        match response
        case Failed =>
          applied := false;
          return;
        case Loaded(dict) =>
          translations := translations[lang := dict];
      }

      ApplyTranslations(lang, year);
      if hasBlog {
        UpdateBlogLinks(lang);
      }

      storage := Some(lang);
      docLang := lang;
      ActivateButtons(lang);
    }

    /** The `.lang-btn` loop of `setLanguage`: `classList.toggle('active',
        btn.dataset.lang === lang)` on every button. */
    method ActivateButtons(lang: string)
      modifies this`buttons
      ensures buttons == I18n.ActivateButtons(old(buttons), lang)
    {
      var i := 0;
      while i < |buttons|
        invariant 0 <= i <= |buttons| == |old(buttons)|
        invariant forall k :: 0 <= k < i ==> buttons[k] == old(buttons)[k].(active := old(buttons)[k].lang == lang)
        invariant forall k :: i <= k < |buttons| ==> buttons[k] == old(buttons)[k]
      {
        buttons := buttons[i := buttons[i].(active := buttons[i].lang == lang)];
        i := i + 1;
      }
    }

    /** `includePartials()`: each element with a non-empty `data-include`
        is fetched in turn; `fetchAt(i)` is the outcome for element `i`. */
    method IncludePartials(fetchAt: nat -> Fetch<string>)
      modifies this`elements
      ensures elements == Partials.IncludeAll(old(elements), fetchAt)
    {
      var i := 0;
      while i < |elements|
        invariant 0 <= i <= |elements| == |old(elements)|
        invariant forall k :: 0 <= k < i ==> elements[k] == Partials.IncludeOne(old(elements)[k], fetchAt(k))
        invariant forall k :: i <= k < |elements| ==> elements[k] == old(elements)[k]
      {
        var el := elements[i];
        if el.partialUrl.Some? && el.partialUrl.value != "" {
          match fetchAt(i)
          case Loaded(text) =>
            elements := elements[i := el.(content := Markup(text))];
          case Failed =>
        }
        i := i + 1;
      }
    }

    /** `loadProjects()`: without a grid nothing is requested; otherwise a
        loaded list replaces the grid's cards and a failure leaves them. */
    method LoadProjects(response: Fetch<seq<Projects.Project>>) returns (requested: bool)
      modifies this`grid
      ensures requested == hasGrid
      ensures grid == if hasGrid && response.Loaded? then Projects.RenderGrid(response.value) else old(grid)
    {
      requested := hasGrid;
      if !hasGrid {
        return;
      }
      match response
      case Loaded(projects) =>
        grid := Projects.RenderGrid(projects);
      case Failed =>
    }

    /** The click handler of a language button whose `data-lang` is `selected`. */
    method OnLanguageClick(selected: string, response: Fetch<I18n.Dictionary>, year: nat)
      returns (switched: bool, fetched: bool, applied: bool)
      modifies this`translations, this`storage, this`docLang, this`elements, this`grid, this`buttons
      ensures switched == I18n.ShouldSwitch(selected, old(storage))
      ensures switched ==> LanguageSet(selected, response, year, fetched, applied)
      ensures !switched ==>
                && !fetched && !applied
                && translations == old(translations) && storage == old(storage) && docLang == old(docLang)
                && elements == old(elements) && grid == old(grid) && buttons == old(buttons)
    {
      switched := storage != Some(selected);
      fetched, applied := false, false;
      if switched {
        fetched, applied := SetLanguage(selected, response, year);
      }
    }

    /** The `DOMContentLoaded` handler up to binding the buttons: partials,
        then projects when there is a grid, then the startup language. The
        cards are rendered before the language is applied, so the
        translation pass covers them. */
    method Bootstrap(fetchAt: nat -> Fetch<string>, projects: Fetch<seq<Projects.Project>>,
                     response: Fetch<I18n.Dictionary>, year: nat)
      returns (lang: string, applied: bool)
      modifies this`translations, this`storage, this`docLang, this`elements, this`grid, this`buttons
      ensures lang == I18n.StartupLanguage(old(storage))
      ensures applied <==> lang in old(translations) || response.Loaded?
      ensures translations == if lang !in old(translations) && response.Loaded?
                              then old(translations)[lang := response.value] else old(translations)
      ensures applied ==> lang in translations
      ensures applied ==> storage == Some(lang) && docLang == lang
      ensures !applied ==> storage == old(storage) && docLang == old(docLang)
      ensures !applied ==> elements == Partials.IncludeAll(old(elements), fetchAt)
      ensures applied ==> elements == Relocalized(Partials.IncludeAll(old(elements), fetchAt), lang, year)
      ensures var cards := if hasGrid && projects.Loaded? then Projects.RenderGrid(projects.value) else old(grid);
              grid == if applied then Projects.TranslateGrid(cards, translations, lang, year) else cards
      ensures buttons == if applied then I18n.ActivateButtons(old(buttons), lang) else old(buttons)
      ensures applied && hasGrid && projects.Loaded? && Projects.KeysCovered(projects.value, translations[lang]) ==>
                |grid| == |projects.value| && Projects.ShowsTranslated(grid, translations[lang])
    {
      IncludePartials(fetchAt);
      if hasGrid {
        var _ := LoadProjects(projects);
      }
      lang := I18n.StartupLanguage(storage);
      var fetched;
      fetched, applied := SetLanguage(lang, response, year);
      if applied && hasGrid && projects.Loaded? && Projects.KeysCovered(projects.value, translations[lang]) {
        Projects.GridTranslated(projects.value, translations, lang, year);
      }
    }
  }
}
