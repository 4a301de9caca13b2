/** The parts of the page that the bootstrap script reads and writes, as
    plain records in place of DOM nodes, and the outcome of a fetch. */
module Dom {
  import opened Wrappers

  /** What an element currently shows. `Markup` is content written through
      `innerHTML` (rendered as HTML); `PlainText` is content written through
      `textContent` (shown verbatim). The markup itself is not parsed. */
  datatype Content = Markup(html: string) | PlainText(text: string)

  /** One element of the page:
      - `key`: its `data-i18n-key` attribute, if it has one;
      - `partialUrl`: its `data-include` attribute (a partial's URL), if any;
      - `blogLink`: whether it matches the selector `#blog .blog-link`;
      - `href`: its `href` attribute, as written;
      - `content`: what it shows. */
  datatype Element = Element(
    key: Option<string>,
    partialUrl: Option<string>,
    blogLink: bool,
    href: string,
    content: Content)

  /** An element carrying only a translation key and markup content. */
  function Marked(key: string, html: string): Element
  {
    Element(Some(key), None, false, "", Markup(html))
  }

  /** A `.lang-btn` button: its `data-lang` value and whether it has the
      `active` class. */
  datatype LangButton = LangButton(lang: string, active: bool)

  /** The outcome of an awaited `fetch` and its body parse. `Failed` stands
      for every path that ends in the caller's `catch` or `!res.ok` branch. */
  datatype Fetch<T> = Failed | Loaded(value: T)
}
