/** The effect of `includePartials` in `public/js/app.js` on the page: each
    element naming a partial gets the partial's markup, when its fetch
    succeeds. */
module Partials {
  import opened Wrappers
  import opened Dom

  /** `if (url)`: the element has a non-empty `data-include` attribute. */
  predicate Requested(e: Element)
  {
    e.partialUrl.Some? && e.partialUrl.value != ""
  }

  /** One pass of the loop: the body of an ok response replaces the content;
      a failed fetch, a non-ok status or a missing URL changes nothing. */
  function IncludeOne(e: Element, response: Fetch<string>): (r: Element)
    ensures r == e.(content := r.content)
    ensures Requested(e) && response.Loaded? ==> r.content == Markup(response.value)
    ensures !Requested(e) || response.Failed? ==> r == e
  {
    if Requested(e) && response.Loaded? then e.(content := Markup(response.value)) else e
  }

  /** The whole loop. `fetchAt(i)` is what fetching the URL of element `i`
      yields; it is consulted only for elements that name a partial. */
  function IncludeAll(page: seq<Element>, fetchAt: nat -> Fetch<string>): (r: seq<Element>)
    ensures |r| == |page|
    ensures forall i :: 0 <= i < |r| ==> r[i] == page[i].(content := r[i].content)
    ensures forall i :: 0 <= i < |r| && (!Requested(page[i]) || fetchAt(i).Failed?) ==> r[i] == page[i]
    ensures forall i :: 0 <= i < |r| && Requested(page[i]) && fetchAt(i).Loaded? ==>
              r[i].content == Markup(fetchAt(i).value)
  {
    var r := seq(|page|, i requires 0 <= i < |page| => IncludeOne(page[i], fetchAt(i)));
    assert forall i :: 0 <= i < |r| ==> r[i] == IncludeOne(page[i], fetchAt(i));
    r
  }

  /** Failures are isolated: what happens to one placeholder depends only on
      its own fetch, whatever the other fetches yield. */
  lemma IncludeIsolated(page: seq<Element>, fetchA: nat -> Fetch<string>, fetchB: nat -> Fetch<string>, i: nat)
    requires i < |page| && fetchA(i) == fetchB(i)
    ensures IncludeAll(page, fetchA)[i] == IncludeAll(page, fetchB)[i]
  {
  }
}
