/** `updateBlogLinks` of `public/js/app.js`: every blog card link is pointed
    at the post of the same name in the directory of the current language. */
module BlogLinks {
  import opened Dom
  import Strings

  /** Directory of the English posts, relative to the base path. */
  const EnglishDir: string := "views/blog/en/"
  /** Directory of the posts of every other language. */
  const DefaultDir: string := "views/blog/"
  /** The prefix `updateBlogLinks` strips from the post name "just in case". */
  const StalePrefix: string := "en/"

  /** `window.location.pathname.includes('/views/') ? '../' : './'`. */
  function BasePath(pathname: string): (base: string)
    ensures base == "../" || base == "./"
    ensures base == "../" <==> exists i: nat :: Strings.OccursAt(pathname, "/views/", i)
  {
    if exists i: nat | i <= |pathname| :: Strings.OccursAt(pathname, "/views/", i) then "../" else "./"
  }

  /** The directory a language's posts live in. */
  function BlogDir(lang: string): (dir: string)
    ensures lang == "en" ==> dir == EnglishDir
    ensures lang != "en" ==> dir == DefaultDir
  {
    if lang == "en" then EnglishDir else DefaultDir
  }

  /** `href.substring(href.lastIndexOf('/') + 1)`: the part of `href` after
      its last `/`, or all of `href` when it has none. */
  function PostName(href: string): (name: string)
    ensures '/' !in name
    ensures |name| <= |href| && href[|href| - |name|..] == name
    ensures |name| < |href| ==> href[|href| - |name| - 1] == '/'
  {
    href[Strings.LastIndexOf(href, '/') + 1..]
  }

  /** The new `href` of one blog link. The `replace('en/', '')` of the
      source never changes the post name, since the name has no `/`. */
  function BlogHref(href: string, lang: string, basePath: string): (r: string)
    ensures r == basePath + BlogDir(lang) + PostName(href)
  {
    var postName := PostName(href);
    Strings.NoOccurrenceWithout(postName, StalePrefix, '/', 2);
    var cleanPostName := Strings.ReplaceFirst(postName, StalePrefix, "");
    basePath + BlogDir(lang) + cleanPostName
  }

  /** The post name of a path ending in `/` then a slash-free name is that name. */
  lemma PostNameAfterSlash(dir: string, name: string)
    requires |dir| > 0 && dir[|dir| - 1] == '/' && '/' !in name
    ensures PostName(dir + name) == name
  {
    var href := dir + name;
    var n := PostName(href);
    assert href[|dir| - 1] == '/' && href[|dir|..] == name;
    assert n == href[|href| - |n|..];
  }

  /** Rewriting a rewritten link for any language gives what rewriting the
      original for that language gives: the last rewrite wins. */
  lemma BlogHrefLastWins(href: string, first: string, second: string, basePath: string)
    ensures BlogHref(BlogHref(href, first, basePath), second, basePath)
         == BlogHref(href, second, basePath)
  {
    var name := PostName(href);
    var dir := basePath + BlogDir(first);
    assert dir[|dir| - 1] == '/';
    assert BlogHref(href, first, basePath) == dir + name;
    PostNameAfterSlash(dir, name);
  }

  /** For a fixed language the rewrite is idempotent. */
  lemma BlogHrefIdempotent(href: string, lang: string, basePath: string)
    ensures BlogHref(BlogHref(href, lang, basePath), lang, basePath) == BlogHref(href, lang, basePath)
  {
    BlogHrefLastWins(href, lang, lang, basePath);
  }

  /** Switching Spanish, English, Spanish restores the first Spanish link. */
  lemma BlogHrefRoundTrip(href: string, basePath: string)
    ensures BlogHref(BlogHref(BlogHref(href, "es", basePath), "en", basePath), "es", basePath)
         == BlogHref(href, "es", basePath)
  {
    BlogHrefLastWins(BlogHref(href, "es", basePath), "en", "es", basePath);
    BlogHrefLastWins(href, "es", "es", basePath);
  }

  /** The `forEach` body of `updateBlogLinks` for one element. */
  function UpdateLink(e: Element, lang: string, basePath: string): (r: Element)
    ensures r == e.(href := r.href)
    ensures e.blogLink ==> r.href == basePath + BlogDir(lang) + PostName(e.href)
    ensures !e.blogLink ==> r == e
  {
    if e.blogLink then e.(href := BlogHref(e.href, lang, basePath)) else e
  }

  /** `updateBlogLinks(lang)` over the whole page: blog links get their new
      `href`; nothing else about any element changes. */
  function UpdateLinks(page: seq<Element>, lang: string, basePath: string): (r: seq<Element>)
    ensures |r| == |page|
    ensures forall i :: 0 <= i < |r| ==> r[i] == page[i].(href := r[i].href)
    ensures forall i :: 0 <= i < |r| && !page[i].blogLink ==> r[i] == page[i]
    ensures forall i :: 0 <= i < |r| && page[i].blogLink ==> r[i].href == BlogHref(page[i].href, lang, basePath)
  {
    seq(|page|, i requires 0 <= i < |page| => UpdateLink(page[i], lang, basePath))
  }

  /** Rewriting a page twice: the last language wins. */
  lemma UpdateLinksLastWins(page: seq<Element>, first: string, second: string, basePath: string)
    ensures UpdateLinks(UpdateLinks(page, first, basePath), second, basePath)
         == UpdateLinks(page, second, basePath)
  {
    var once := UpdateLinks(page, first, basePath);
    var twice := UpdateLinks(once, second, basePath);
    var direct := UpdateLinks(page, second, basePath);
    forall i | 0 <= i < |page| ensures twice[i] == direct[i] {
      if page[i].blogLink {
        BlogHrefLastWins(page[i].href, first, second, basePath);
      }
    }
  }

  /** `updateBlogLinks` is idempotent for a fixed language. */
  lemma UpdateLinksIdempotent(page: seq<Element>, lang: string, basePath: string)
    ensures UpdateLinks(UpdateLinks(page, lang, basePath), lang, basePath) == UpdateLinks(page, lang, basePath)
  {
    UpdateLinksLastWins(page, lang, lang, basePath);
  }

  /** Spanish, then English, then Spanish again leaves the page's links as
      the first Spanish rewrite left them. */
  lemma UpdateLinksRoundTrip(page: seq<Element>, basePath: string)
    ensures UpdateLinks(UpdateLinks(UpdateLinks(page, "es", basePath), "en", basePath), "es", basePath)
         == UpdateLinks(page, "es", basePath)
  {
    UpdateLinksLastWins(UpdateLinks(page, "es", basePath), "en", "es", basePath);
    UpdateLinksIdempotent(page, "es", basePath);
  }
}
