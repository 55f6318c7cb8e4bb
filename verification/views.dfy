/** View switching, the pattern shared by `showView` (landing page) and `goToView` /
    `changeLookupView` (dashboard): walk a fixed list of view elements, un-hide the target and
    hide every other one. The page state is each element's `hidden` flag. */
module Views {

  /** The `hidden` class of each element, keyed by element id. */
  type Visibility = map<string, bool>

  /** Every listed view element exists on the page (`id(view)` is never null). */
  predicate HasViews(h: Visibility, ids: seq<string>) {
    forall k :: k in ids ==> k in h
  }

  /** `ids.forEach(view => view === target ? remove 'hidden' : add 'hidden')`. */
  function ShowOnly(h: Visibility, ids: seq<string>, target: string): (r: Visibility)
    requires HasViews(h, ids)
    ensures r.Keys == h.Keys
    ensures forall k :: k in ids ==> r[k] == (k != target)
    ensures forall k :: k in h && k !in ids ==> r[k] == h[k]
    decreases |ids|
  {
    if |ids| == 0 then h
    else ShowOnly(h[ids[0] := ids[0] != target], ids[1..], target)
  }

  /** The listed views that are not hidden. */
  function Visible(h: Visibility, ids: seq<string>): set<string>
    requires HasViews(h, ids)
  {
    set k | k in ids && !h[k]
  }

  /** After switching to a listed view, exactly that view is visible; after switching to an
      unlisted one, none is. */
  lemma ExactlyTarget(h: Visibility, ids: seq<string>, target: string)
    requires HasViews(h, ids)
    ensures target in ids ==> Visible(ShowOnly(h, ids, target), ids) == {target}
    ensures target !in ids ==> Visible(ShowOnly(h, ids, target), ids) == {}
  {
  }

  /** Switching to the same view twice is the same as switching once. */
  lemma ShowOnlyIdempotent(h: Visibility, ids: seq<string>, target: string)
    requires HasViews(h, ids)
    ensures ShowOnly(ShowOnly(h, ids, target), ids, target) == ShowOnly(h, ids, target)
  {
  }

  /** The result of a switch does not depend on which view was showing before: two pages that
      agree outside the listed views agree after switching to the same target. */
  lemma ShowOnlyForgetsHistory(h1: Visibility, h2: Visibility, ids: seq<string>, target: string)
    requires HasViews(h1, ids) && HasViews(h2, ids)
    requires h1.Keys == h2.Keys
    requires forall k :: k in h1 && k !in ids ==> h1[k] == h2[k]
    ensures ShowOnly(h1, ids, target) == ShowOnly(h2, ids, target)
  {
  }
}
