/** The pure part of `loadProjects` in `public/js/app.js`: the fetched
    project list is zipped by position with a local table of translation
    keys and each entry is rendered as a card whose title and description
    the translation pass fills in afterwards. */
module Projects {
  import opened Wrappers
  import opened Dom
  import I18n

  /** An entry of `projects.json`. `titleKey` and `descKey` are the entry's
      own fields of those names, absent in the file as shipped. */
  datatype Project = Project(
    icon: string,
    titulo: string,
    descripcion: string,
    github: string,
    titleKey: Option<string>,
    descKey: Option<string>)

  /** One row of the local `projectKeys` table. */
  datatype KeyPair = KeyPair(titleKey: string, descKey: string)

  const ProjectKeys: seq<KeyPair> := [
    KeyPair("project_cicd_title", "project_cicd_desc"),
    KeyPair("project_security_title", "project_security_desc"),
    KeyPair("project_iac_title", "project_iac_desc"),
    KeyPair("project_python_title", "project_python_desc"),
    KeyPair("project_k8s_title", "project_k8s_desc"),
    KeyPair("project_monitoring_title", "project_monitoring_desc")
  ]

  /** The key and the initial text of every card's "view on GitHub" label. */
  const GithubLabelKey: string := "project_view_on_github"
  const GithubLabel: string := "Ver en GitHub"

  /** `{ ...p, ...k }`: the key pair's fields override the entry's own; a
      missing pair (`projectKeys[i]` undefined) spreads nothing. */
  function Merge(p: Project, k: Option<KeyPair>): (r: Project)
    ensures r == p.(titleKey := r.titleKey, descKey := r.descKey)
    ensures k.Some? ==> r.titleKey == Some(k.value.titleKey) && r.descKey == Some(k.value.descKey)
    ensures k.None? ==> r == p
  {
    match k
    case None => p
    case Some(pair) => p.(titleKey := Some(pair.titleKey), descKey := Some(pair.descKey))
  }

  /** `projects.map((p, i) => ({ ...p, ...keys[i] }))`. */
  function WithKeys(projects: seq<Project>, keys: seq<KeyPair>): (r: seq<Project>)
    ensures |r| == |projects|
    ensures forall i :: 0 <= i < |r| ==>
              r[i] == projects[i].(titleKey := r[i].titleKey, descKey := r[i].descKey)
    ensures forall i :: 0 <= i < |r| && i < |keys| ==>
              r[i].titleKey == Some(keys[i].titleKey) && r[i].descKey == Some(keys[i].descKey)
    ensures forall i :: |keys| <= i < |r| ==> r[i] == projects[i]
  {
    seq(|projects|, i requires 0 <= i < |projects| =>
      Merge(projects[i], if i < |keys| then Some(keys[i]) else None))
  }

  /** `${field}` in a template string: an undefined field prints as "undefined". */
  function Interpolate(field: Option<string>): (r: string)
    ensures field.Some? ==> r == field.value
    ensures field.None? ==> r == "undefined"
  {
    match field
    case None => "undefined"
    case Some(s) => s
  }

  /** A rendered `.project-card`: its icon class, its GitHub link, and its
      three marked elements. */
  datatype Card = Card(
    icon: string,
    github: string,
    title: Element,
    description: Element,
    githubLabel: Element)

  /** The `tpl` template for one merged entry. */
  function RenderCard(p: Project): (c: Card)
    ensures c.icon == p.icon && c.github == p.github
    ensures c.title == Marked(Interpolate(p.titleKey), p.titulo)
    ensures c.description == Marked(Interpolate(p.descKey), p.descripcion)
    ensures c.githubLabel == Marked(GithubLabelKey, GithubLabel)
  {
    Card(p.icon, p.github,
         Marked(Interpolate(p.titleKey), p.titulo),
         Marked(Interpolate(p.descKey), p.descripcion),
         Marked(GithubLabelKey, GithubLabel))
  }

  /** `projectData.map(tpl).join("")`: one card per fetched entry, in order. */
  function RenderGrid(projects: seq<Project>): (cards: seq<Card>)
    ensures |cards| == |projects|
  {
    var data := WithKeys(projects, ProjectKeys);
    seq(|data|, i requires 0 <= i < |data| => RenderCard(data[i]))
  }

  /** Card `i` shows entry `i`'s icon, link and texts; its keys come from
      row `i` of the key table, or, past the table's end, from the entry's
      own fields, printed as "undefined" when it has none. */
  lemma RenderGridEntry(projects: seq<Project>, i: nat)
    requires i < |projects|
    ensures var c, p := RenderGrid(projects)[i], projects[i];
            && c.icon == p.icon && c.github == p.github
            && c.title.content == Markup(p.titulo)
            && c.description.content == Markup(p.descripcion)
            && c.githubLabel == Marked(GithubLabelKey, GithubLabel)
            && (i < |ProjectKeys| ==>
                  c.title.key == Some(ProjectKeys[i].titleKey) && c.description.key == Some(ProjectKeys[i].descKey))
            && (i >= |ProjectKeys| ==>
                  c.title.key == Some(Interpolate(p.titleKey)) && c.description.key == Some(Interpolate(p.descKey)))
  {
  }

  /** The translation pass over one card's marked elements. */
  function TranslateCard(c: Card, cache: I18n.Cache, lang: string, year: nat): (r: Card)
    ensures r.icon == c.icon && r.github == c.github
    ensures r.title == I18n.TranslatePage([c.title], cache, lang, year)[0]
    ensures r.description == I18n.TranslatePage([c.description], cache, lang, year)[0]
    ensures r.githubLabel == I18n.TranslatePage([c.githubLabel], cache, lang, year)[0]
  {
    c.(title := I18n.TranslateElement(c.title, cache, lang, year),
       description := I18n.TranslateElement(c.description, cache, lang, year),
       githubLabel := I18n.TranslateElement(c.githubLabel, cache, lang, year))
  }

  /** The translation pass over the grid: icons and links stay as they are,
      and each of a card's three marked elements is translated exactly as
      an element of the page is. */
  function TranslateGrid(cards: seq<Card>, cache: I18n.Cache, lang: string, year: nat): (r: seq<Card>)
    ensures |r| == |cards|
    ensures forall i :: 0 <= i < |r| ==> r[i].icon == cards[i].icon && r[i].github == cards[i].github
    ensures forall i :: 0 <= i < |r| ==> r[i].title == I18n.TranslatePage([cards[i].title], cache, lang, year)[0]
    ensures forall i :: 0 <= i < |r| ==>
              r[i].description == I18n.TranslatePage([cards[i].description], cache, lang, year)[0]
    ensures forall i :: 0 <= i < |r| ==>
              r[i].githubLabel == I18n.TranslatePage([cards[i].githubLabel], cache, lang, year)[0]
  {
    seq(|cards|, i requires 0 <= i < |cards| => TranslateCard(cards[i], cache, lang, year))
  }

  /** Every entry has a key row, and `dict` has a non-empty value for both
      keys of each of those rows. */
  predicate KeysCovered(projects: seq<Project>, dict: I18n.Dictionary)
  {
    && |projects| <= |ProjectKeys|
    && forall k :: 0 <= k < |projects| ==>
         && ProjectKeys[k].titleKey in dict && dict[ProjectKeys[k].titleKey] != ""
         && ProjectKeys[k].descKey in dict && dict[ProjectKeys[k].descKey] != ""
  }

  /** Card `i` shows the values `dict` has for the keys of row `i`. */
  predicate ShowsTranslated(cards: seq<Card>, dict: I18n.Dictionary)
  {
    && |cards| <= |ProjectKeys|
    && forall i :: 0 <= i < |cards| ==>
         && ProjectKeys[i].titleKey in dict && ProjectKeys[i].descKey in dict
         && cards[i].title.content == Markup(dict[ProjectKeys[i].titleKey])
         && cards[i].description.content == Markup(dict[ProjectKeys[i].descKey])
  }

  /** With at most as many entries as key rows and a dictionary that has a
      value for the row of every entry, the grid has one card per entry and
      each card shows its row's translated title and description. */
  lemma GridTranslated(projects: seq<Project>, cache: I18n.Cache, lang: string, year: nat)
    requires lang in cache && KeysCovered(projects, cache[lang])
    ensures var cards := TranslateGrid(RenderGrid(projects), cache, lang, year);
            |cards| == |projects| && ShowsTranslated(cards, cache[lang])
  {
    var cards := TranslateGrid(RenderGrid(projects), cache, lang, year);
    forall i | 0 <= i < |cards|
      ensures cards[i].title.content == Markup(cache[lang][ProjectKeys[i].titleKey])
      ensures cards[i].description.content == Markup(cache[lang][ProjectKeys[i].descKey])
    {
      RenderGridEntry(projects, i);
      assert ProjectKeys[i].titleKey != I18n.FooterKey && ProjectKeys[i].descKey != I18n.FooterKey;
    }
  }

  /** A card past the key table whose entry has no `titleKey` is keyed
      "undefined"; unless the dictionary has a value for that key, the card
      keeps the entry's own title after translation. */
  lemma GridBeyondKeysKept(projects: seq<Project>, cache: I18n.Cache, lang: string, year: nat, i: nat)
    requires |ProjectKeys| <= i < |projects| && projects[i].titleKey.None?
    requires I18n.Lookup(cache, lang, "undefined").None?
    ensures TranslateGrid(RenderGrid(projects), cache, lang, year)[i].title.content == Markup(projects[i].titulo)
  {
    RenderGridEntry(projects, i);
    var title := RenderGrid(projects)[i].title;
    I18n.TranslateUntouched([title], cache, lang, year, 0);
  }
}
