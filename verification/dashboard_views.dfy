/** View switching on the DM Dashboard: the navigation bar switches between the four page
    views (`goToView`), and the lookup selector switches between the monster and the spell
    search views (`changeLookupView`). */
module DashboardViews {
  import opened Text
  import opened Views

  const PAGE_VIEWS: seq<string> := ["lookup-view", "world-view", "combat-view", "roll-log-view"]
  const LOOKUP_VIEWS: seq<string> := ["mon-search-view", "spell-search-view"]

  /** The page view a navigation span stands for: its id with the first `go-to-` removed,
      followed by `-view`. */
  function SpanTarget(spanId: string): (v: string)
    ensures StartsWith(spanId, "go-to-") ==> v == spanId[6..] + "-view"
  {
    Replace(spanId, "go-to-", "") + "-view"
  }

  /** `goToView` on the span with id `spanId`: the page view it names becomes the only
      visible page view; when it names none, all page views are hidden. The lookup views
      and every other element keep their state. */
  function GoToView(h: Visibility, spanId: string): (r: Visibility)
    requires HasViews(h, PAGE_VIEWS)
    ensures HasViews(r, PAGE_VIEWS) && r.Keys == h.Keys
    ensures SpanTarget(spanId) in PAGE_VIEWS ==> Visible(r, PAGE_VIEWS) == {SpanTarget(spanId)}
    ensures SpanTarget(spanId) !in PAGE_VIEWS ==> Visible(r, PAGE_VIEWS) == {}
    ensures forall k :: k in h && k !in PAGE_VIEWS ==> r[k] == h[k]
  {
    ExactlyTarget(h, PAGE_VIEWS, SpanTarget(spanId));
    ShowOnly(h, PAGE_VIEWS, SpanTarget(spanId))
  }

  /** The navigation span `go-to-<name>` shows exactly `<name>-view` when that is a page
      view. */
  lemma GoToNamedView(h: Visibility, name: string)
    requires HasViews(h, PAGE_VIEWS)
    requires name + "-view" in PAGE_VIEWS
    ensures Visible(GoToView(h, "go-to-" + name), PAGE_VIEWS) == {name + "-view"}
  {
    var spanId := "go-to-" + name;
    assert StartsWith(spanId, "go-to-");
    assert spanId[6..] == name;
  }

  /** `changeLookupView` with the selector's value: that lookup view becomes the only
      visible one (none when the value names no lookup view); the page views and every other
      element keep their state. */
  function ChangeLookupView(h: Visibility, value: string): (r: Visibility)
    requires HasViews(h, LOOKUP_VIEWS)
    ensures HasViews(r, LOOKUP_VIEWS) && r.Keys == h.Keys
    ensures value in LOOKUP_VIEWS ==> Visible(r, LOOKUP_VIEWS) == {value}
    ensures value !in LOOKUP_VIEWS ==> Visible(r, LOOKUP_VIEWS) == {}
    ensures forall k :: k in h && k !in LOOKUP_VIEWS ==> r[k] == h[k]
  {
    ExactlyTarget(h, LOOKUP_VIEWS, value);
    ShowOnly(h, LOOKUP_VIEWS, value)
  }

  /** No element is both a page view and a lookup view. */
  lemma ViewListsDisjoint()
    ensures forall k :: k in LOOKUP_VIEWS ==> k !in PAGE_VIEWS
  {
    forall k | k in LOOKUP_VIEWS ensures k !in PAGE_VIEWS {
      assert |k| == 15 || |k| == 17;
    }
  }

  /** Switching the page view leaves the lookup sub-view alone. */
  lemma GoToViewKeepsLookup(h: Visibility, spanId: string)
    requires HasViews(h, PAGE_VIEWS) && HasViews(h, LOOKUP_VIEWS)
    ensures HasViews(GoToView(h, spanId), LOOKUP_VIEWS)
    ensures Visible(GoToView(h, spanId), LOOKUP_VIEWS) == Visible(h, LOOKUP_VIEWS)
  {
    ViewListsDisjoint();
  }

  /** Switching the lookup sub-view leaves the page view alone. */
  lemma ChangeLookupViewKeepsPage(h: Visibility, value: string)
    requires HasViews(h, PAGE_VIEWS) && HasViews(h, LOOKUP_VIEWS)
    ensures HasViews(ChangeLookupView(h, value), PAGE_VIEWS)
    ensures Visible(ChangeLookupView(h, value), PAGE_VIEWS) == Visible(h, PAGE_VIEWS)
  {
    ViewListsDisjoint();
  }
}
