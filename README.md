# Portfolio site i18n bootstrap — a Dafny model

The site is a static portfolio with pages in Spanish and English. Its only
logic with stateable rules is the client-side bootstrap in
`public/js/app.js`:

- it injects the header/footer partials;
- it renders the project cards from `projects.json`;
- it loads a locale dictionary per language (cached for the page visit) and
  applies it to every element marked with `data-i18n-key`;
- it points the blog card links at the post of the current language;
- it persists the chosen language and marks the active language button.

`public/js/translation.js` is an earlier draft of the same bootstrap. It has
one global dictionary that every load replaces, plain-text writes, and no
`{year}` substitution. It is modelled as its own module so that the two
policies can be compared.

The browser is abstracted away:

- the page is a sequence of `Dom.Element` records (translation key, partial
  URL, blog-link flag, `href`, content);
- the content carries a tag: `Markup` for `innerHTML` writes, `PlainText`
  for `textContent` writes;
- a locale dictionary is a `map<string, string>`, and the per-language cache
  a map from language code to dictionary;
- `localStorage` is one `Option<string>`;
- every `fetch` is an oracle parameter of type `Dom.Fetch<T>`, which is
  `Failed` or `Loaded(value)`;
- the clock gives the year as a parameter, and `window.location.pathname`
  is a constructor parameter.

Layout, one module per concern:

- `wrappers.dfy` (`Wrappers`): the `Option` type.
- `dom.dfy` (`Dom`): element, button and fetch records.
- `strings.dfy` (`Strings`): the JavaScript builtins the script uses, which
  are `lastIndexOf`, first-occurrence `replace`, and number-to-decimal
  conversion. Each is proved against a declarative specification.
- `i18n.dfy` (`I18n`): the translation rules of `applyTranslations`, the
  startup language, the click guard and the button state.
- `blog_links.dfy` (`BlogLinks`): the `href` rewrite of `updateBlogLinks`,
  with its idempotence and round-trip lemmas.
- `projects.dfy` (`Projects`): the positional zip and card rendering of
  `loadProjects`, and how the translation pass fills the cards in.
- `partials.dfy` (`Partials`): the effect of `includePartials`.
- `app.dfy` (`App.Site`): the class holding the state `app.js` mutates. Its
  loops are methods proved against the functions above.
- `translation.dfy` (`Draft`): the draft's functions and its class
  `DraftSite`.

The two policies differ after a failed dictionary load:

- `App.Site.SetLanguage` returns before touching anything, so storage, the
  document language, the page and the buttons are unchanged.
- `Draft.DraftSite.SetLanguage` keeps the previous dictionary. It re-applies
  that dictionary to the page and still records the new language in storage
  and on the document. By `Draft.DraftTranslateIdempotent`, a page already
  showing the old dictionary keeps showing it, while the document claims the
  new language.

Memoization follows from the contract of `App.Site.SetLanguage`, for calls
that complete one at a time. A fetch happens exactly when the language is
not cached. After any successful call the language is cached. A loaded
dictionary is never replaced. So among calls that do not overlap, a
language is fetched successfully at most once per visit. Overlapping calls
are not covered (see "## Left out").

Switching languages and back restores the page only conditionally. An
element whose key has no value in the current language is left as it is
(public/js/app.js:14). So switching from `es` to `en` and back to `es`
restores the Spanish page when the Spanish dictionary has a value for
every key the English one has (`I18n.TranslateRoundTrip`). Otherwise an
element keyed only in English keeps its English text
(`I18n.TranslateRoundTripFails`).

On its failure paths the code does the following:

- a failed partial leaves its placeholder as it was (not emptied);
- a failed project fetch only logs; no inline error message is rendered;
- the projects response's HTTP status is never checked; only a body that
  does not parse counts as a failure.

## Model

| member | source | states |
|---|---|---|
| `Strings.LastIndexOf` | public/js/app.js:36 | The result is -1 exactly when the character is absent. Otherwise it is an index holding the character with no further occurrence after it. |
| `Strings.ReplaceFirst` | public/js/app.js:19 | With no occurrence of the pattern the string is returned unchanged. Otherwise exactly the first occurrence is replaced: the result is the prefix before it, the replacement, then the rest. |
| `Strings.ReplaceFirstNonEmpty` | public/js/app.js:19 | Replacing with a non-empty text never turns a non-empty string into the empty one. |
| `Strings.FirstExists` | public/js/app.js:19 | Any occurrence of a pattern implies a first occurrence at or before it. |
| `Strings.NoOccurrenceWithout` | public/js/app.js:37 | A string lacking a character contains no occurrence of any pattern that has that character. This is why `replace('en/', '')` cannot match a post name. |
| `Strings.DecimalString` | public/js/app.js:19 | The year's text is non-empty, all decimal digits, and has no leading zero unless the year is 0. |
| `Strings.DecimalRoundTrip` | public/js/app.js:19 | The digits written for the year denote the year itself. |
| `I18n.Lookup` | public/js/app.js:14-15 | A value is found exactly when the language is loaded, the key is present, and its value is not the (falsy) empty string. A found value is the dictionary's and is never empty. |
| `I18n.Localize` | public/js/app.js:15-20 | A value under any key but `footer_copyright` is written as it is. For `footer_copyright` a value without `{year}` is unchanged, and otherwise its first `{year}` becomes the year's digits. |
| `I18n.TranslateElement` | public/js/app.js:12-24 | Only the content can change. Without a key or a found value the element is unchanged. With one, the content becomes the localized value as markup. |
| `I18n.TranslatePage` | public/js/app.js:11-26 | One element per element. Only contents change, an element's key, URL, link flag and href stay the same, and a changed content is always markup (`innerHTML`). |
| `I18n.TranslateUntouched` | public/js/app.js:14 | An unmarked element, an unloaded language, an absent key or an empty (falsy) value leaves the element exactly as it was. |
| `I18n.TranslateNeverBlanks` | public/js/app.js:14-23 | After translation an element either keeps its content or shows non-empty markup. Nothing is blanked. |
| `I18n.TranslateWritesValue` | public/js/app.js:12-23 | For a present, non-empty value under any key but `footer_copyright`, the element's content becomes exactly that value as markup, and nothing else about it changes. |
| `I18n.TranslateFooter` | public/js/app.js:18-20 | For `footer_copyright` only the first `{year}` is replaced by the year's digits. A value without `{year}` is written unchanged. |
| `I18n.TranslateIdempotent` | public/js/app.js:11-26 | Applying the same cache, language and year twice gives the same page as applying them once. |
| `I18n.TranslateLastWins` | public/js/app.js:11-26 | If the second language has a value for every key the first has one for, translating for the first and then the second equals translating for the second alone. |
| `I18n.TranslateRoundTrip` | public/js/app.js:11-26 | If the Spanish dictionary covers the English keys, switching `es`, then `en`, then `es` leaves the page as the first `es` pass left it. |
| `I18n.TranslateRoundTripFails` | public/js/app.js:14 | An example without that coverage: a key only English has keeps its English text after switching back to `es`, so switching back does not restore the page. |
| `I18n.StartupLanguage` | public/js/app.js:142 | A stored non-empty language is used. An absent or empty (falsy) stored value gives `es`. The result is never empty. The same rule is at public/js/translation.js:40. |
| `I18n.ShouldSwitch` | public/js/app.js:148-152 | A click switches exactly when the stored value is not the selected language. A missing stored value differs from every language. |
| `I18n.ActivateButtons` | public/js/app.js:72-74 | Every button keeps its language, and is active afterwards iff its `data-lang` equals the new language. |
| `I18n.ActivateButtonsSettled` | public/js/app.js:72-74 | All active buttons share one language, and activating the same language again changes nothing. |
| `BlogLinks.BasePath` | public/js/app.js:3 | The base path is `../` iff the pathname contains `/views/`, and `./` otherwise. |
| `BlogLinks.BlogDir` | public/js/app.js:39-43 | English posts live under `views/blog/en/`. Every other language uses `views/blog/`. |
| `BlogLinks.PostName` | public/js/app.js:36 | The post name has no `/` and is a suffix of the href. It is either the whole href or preceded by a `/`, which fixes it uniquely as the part after the last `/`. |
| `BlogLinks.BlogHref` | public/js/app.js:35-43 | The new href is the base path, then the language's directory, then the post name. The `replace('en/', '')` step never changes the name. |
| `BlogLinks.PostNameAfterSlash` | public/js/app.js:36 | The post name of a directory ending in `/`, followed by a slash-free name, is that name. |
| `BlogLinks.BlogHrefLastWins` | public/js/app.js:32-45 | Rewriting an already rewritten href for any language equals rewriting the original for that language. |
| `BlogLinks.BlogHrefIdempotent` | public/js/app.js:32-45 | For a fixed language the rewrite is idempotent. |
| `BlogLinks.BlogHrefRoundTrip` | public/js/app.js:32-45 | Rewriting for `es`, then `en`, then `es` restores the first `es` href. |
| `BlogLinks.UpdateLink` | public/js/app.js:34-44 | Only the href can change. A blog link's new href is the base path, the language's directory, then the post name. Any other element is unchanged. |
| `BlogLinks.UpdateLinks` | public/js/app.js:32-45 | Only hrefs change. Each blog link's new href is `BlogHref` of its old href for the language, and elements that are not blog links stay exactly as they were. |
| `BlogLinks.UpdateLinksLastWins` | public/js/app.js:32-45 | Rewriting a page for one language and then another equals rewriting it once for the second. |
| `BlogLinks.UpdateLinksIdempotent` | public/js/app.js:32-45 | `updateBlogLinks` is idempotent for a fixed language. |
| `BlogLinks.UpdateLinksRoundTrip` | public/js/app.js:32-45 | `es`, then `en`, then `es` leaves every link as the first `es` rewrite left it. |
| `Projects.Merge` | public/js/app.js:114 | A key row overrides the entry's two key fields and nothing else. A missing row (`projectKeys[i]` undefined) leaves the entry unchanged. |
| `Projects.Interpolate` | public/js/app.js:120-121 | A present field prints as itself. An absent field prints as "undefined". |
| `Projects.WithKeys` | public/js/app.js:114 | One entry per project. Entry `i` has project `i`'s fields, with its keys overridden by key row `i` when there is one. Past the table's end the entry is the project unchanged. |
| `Projects.RenderCard` | public/js/app.js:116-126 | The card has the entry's icon and link. Its title and description are marked with the interpolated key fields and show the entry's texts. Its label is `project_view_on_github` showing "Ver en GitHub". |
| `Projects.RenderGrid` | public/js/app.js:114-128 | The number of rendered cards equals the number of fetched projects. |
| `Projects.RenderGridEntry` | public/js/app.js:102-128 | Card `i` shows project `i`'s icon, link, title and description, and the fixed GitHub label. Its keys come from row `i` of the six-row table, or past it from the project's own fields, which print as "undefined" when absent. |
| `Projects.TranslateCard` | public/js/app.js:11-26 | A card keeps its icon and link. Its title, description and label are each translated exactly as a page element is, so every `I18n` lemma about `TranslatePage` applies to them. |
| `Projects.TranslateGrid` | public/js/app.js:11-26 | The translation pass keeps the number of cards and every card's icon and link. Each card's three marked elements are translated exactly as page elements are. |
| `Projects.GridTranslated` | public/js/app.js:102-128 | Take N ≤ 6 projects and a dictionary with values for the key rows of those N. Then exactly N cards render, each showing its row's translated title and description. |
| `Projects.GridBeyondKeysKept` | public/js/app.js:114-121 | A card past the sixth, whose entry has no `titleKey`, is keyed "undefined". Unless the dictionary has a value for "undefined", it keeps the entry's own title after translation. |
| `Partials.IncludeOne` | public/js/app.js:85-91 | Only the content can change. With a non-empty `data-include` and a successful fetch it becomes the fetched markup. Otherwise the element is unchanged. |
| `Partials.IncludeAll` | public/js/app.js:82-93 | Only contents change. An element with a non-empty `data-include` and a successful fetch shows the fetched markup. A missing or empty URL or a failed fetch leaves the element unchanged. |
| `Partials.IncludeIsolated` | public/js/app.js:86-91 | A placeholder's outcome depends only on its own fetch. One failure does not affect the others. |
| `App.Site.constructor` | public/js/app.js:2-3 | The cache starts empty, and the base path is computed from the pathname. A page without `#projects-grid` starts with no cards. |
| `App.Site.TranslateElement` | public/js/app.js:12-24 | The loop body computes exactly the specified translation of one element. |
| `App.Site.ApplyTranslations` | public/js/app.js:11-26 | The elements become `I18n.TranslatePage` of the old ones, and the grid's cards become `Projects.TranslateGrid` of the old ones. Nothing else changes. |
| `App.Site.RewriteHref` | public/js/app.js:35-43 | The loop body computes exactly `BlogLinks.BlogHref` of the link's href for the language. |
| `App.Site.UpdateBlogLinks` | public/js/app.js:32-45 | The elements become `BlogLinks.UpdateLinks` of the old ones, and nothing else changes. |
| `App.Site.SetLanguage` | public/js/app.js:51-75 | It fetches iff `lang` is not cached. The call goes through iff `lang` was cached or the fetch loaded, and a cached dictionary is never replaced. On failure every field is unchanged. On success the cache gains exactly the fetched dictionary, the page is translated (blog links rewritten if there is a blog), storage is `lang`, the document language is `lang`, and a button is active iff its language is `lang`. |
| `App.Site.ActivateButtons` | public/js/app.js:72-74 | The buttons become `I18n.ActivateButtons` of the old ones. |
| `App.Site.IncludePartials` | public/js/app.js:82-93 | The elements become `Partials.IncludeAll` of the old ones under the given fetch outcomes. |
| `App.Site.LoadProjects` | public/js/app.js:98-132 | Nothing is requested without a grid. With a grid, a loaded list replaces the cards with `Projects.RenderGrid` of it, and a failure leaves them. |
| `App.Site.OnLanguageClick` | public/js/app.js:146-154 | It switches iff `I18n.ShouldSwitch` holds for the stored language. A switch has exactly `SetLanguage`'s effect. Otherwise nothing is fetched and nothing changes. |
| `App.Site.Bootstrap` | public/js/app.js:135-143 | Partials, then projects, then the startup language chosen from storage. The cache gains the fetched dictionary only when the language was not cached and the fetch loaded. On success storage and the document language are that language, and the page is the included page translated and relinked. The grid is the freshly rendered cards (or the old ones), translated, and a button is active iff its language is the startup one. With at most six fetched projects whose key rows the dictionary covers, every card shows its translated title and description. On failure storage, the document language, the cards and the buttons keep their old values, and the page is the included page. |
| `Draft.DraftTranslateElement` | public/js/translation.js:20-23 | Only the content can change. A missing key, or an absent or empty value, leaves the element unchanged. A present value becomes the content verbatim as plain text. |
| `Draft.DraftTranslatePage` | public/js/translation.js:18-25 | Only contents change, and a changed content is always plain text (`textContent`). |
| `Draft.DraftTranslateEntry` | public/js/translation.js:19-23 | An absent key or empty value leaves the element unchanged. A present value is written verbatim as plain text under every key, with no `{year}` substitution. |
| `Draft.DraftTranslateIdempotent` | public/js/translation.js:18-25 | `translatePage` is idempotent for a fixed dictionary. |
| `Draft.DraftAgreesWithApp` | public/js/translation.js:19-23 | For any key but `footer_copyright`, the draft and `app.js` (with the same dictionary loaded) leave the same elements alone. They write the same string into the others: the draft as plain text, `app.js` as markup. |
| `Draft.DraftSite.constructor` | public/js/translation.js:2 | The dictionary starts empty. |
| `Draft.DraftSite.LoadTranslations` | public/js/translation.js:5-15 | A success replaces the whole dictionary, with no merge or cache. A failure keeps the previous one. |
| `Draft.DraftSite.TranslatePage` | public/js/translation.js:18-25 | The elements become `Draft.DraftTranslatePage` of the old ones under the current dictionary. |
| `Draft.DraftSite.SetLanguage` | public/js/translation.js:28-35 | Even after a failed load, the page is re-translated with the current (possibly old) dictionary, storage holds `lang`, and the document language is `lang`. |
| `Draft.DraftSite.Start` | public/js/translation.js:38-42 | The startup language is `I18n.StartupLanguage` of storage, and the page gets `SetLanguage`'s effect for it. |

## Left out

- `fetch`, HTTP status and JSON parsing are left out. Each request is an oracle parameter: `Failed` covers a rejected fetch, a non-ok status where the code checks one, and a body that does not parse.
- Non-object JSON is not modelled: a locale file that parses to `null` or to a non-string value, and a project list that is not an array of objects. Object keys found on the prototype chain (such as `toString`) are not modelled either: dictionaries are plain maps.
- The markup a partial or a card template injects is not parsed. The marked elements and language buttons a header or footer brings are given to the constructor instead of appearing when `includePartials` runs. The grid's cards are kept in their own field, and the translation pass covers them.
- The click listeners are not bound with `addEventListener`: a click is a call to `App.Site.OnLanguageClick`, and each call completes before the next begins.
- Overlapping clicks are not modelled. The handler calls `setLanguage` without `await` (public/js/app.js:151), and storage changes only at its end (public/js/app.js:69). So two clicks on an uncached language while its fetch is pending both pass the guard and both fetch, and the later response overwrites the cached dictionary. Also, a click on a cached language made while another language's fetch is pending is applied at once, then undone when that fetch completes. The memoization and "a cached dictionary is never replaced" hold only for calls that do not overlap.
- `console.error` diagnostics have no observable state and are left out.
- The year is a `nat` parameter in place of `new Date().getFullYear()`, so years before 1 AD (negative) are not modelled.
- A blog link without an `href` attribute (where `getAttribute` returns `null` and the code throws) is not modelled: `href` is always a string. A language button without `data-lang` is not modelled either.
- `String.prototype.replace` expands `$` patterns in its replacement. The replacements used here (decimal digits and the empty string) contain none, so this is not modelled.
- JavaScript strings are UTF-16 code-unit sequences; here they are Dafny `string`s.
- `public/js/main.js` is left out (smooth scrolling, scroll-spy from layout measurements, `IntersectionObserver`, cards built from hard-coded arrays): it is UI with no stateable rule. So are `models/data.js` and `controllers/mainController.js` (constant arrays and identity getters) and `utils/helpers.js` (a wrapper over `Date`/`Intl` date formatting).
- The contact form handler is not in app.js or translation.js, and it is not modelled.
- Project fields other than the icon, the two texts, the link and the two key fields are ignored.
