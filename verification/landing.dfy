/** The landing page controller: three static sections, `home-view`, `about-view` and
    `resume-view`, switched by three navigation links. */
module Landing {
  import opened Views

  /** The view names the landing page knows, in the order `showView` walks them. */
  const VIEWS: seq<string> := ["home", "about", "resume"]

  /** The element id of a view: its name followed by `-view`. */
  function ViewId(v: string): string {
    v + "-view"
  }

  /** Appending `-view` keeps names apart, so comparing names and comparing ids agree. */
  lemma ViewIdInjective(a: string, b: string)
    ensures ViewId(a) == ViewId(b) <==> a == b
  {
    if ViewId(a) == ViewId(b) {
      assert a == ViewId(a)[..|a|] == ViewId(b)[..|b|] == b;
    }
  }

  const VIEW_IDS: seq<string> := [ViewId("home"), ViewId("about"), ViewId("resume")]

  /** The page holds its three view sections. */
  predicate LandingPage(h: Visibility) {
    HasViews(h, VIEW_IDS)
  }

  /** `showView(show)`: for each known view, un-hide `<view>-view` when `show === view` and
      hide it otherwise; every other element is left as it was. */
  function ShowView(h: Visibility, show: string): (r: Visibility)
    requires LandingPage(h)
    ensures LandingPage(r) && r.Keys == h.Keys
    ensures forall v :: v in VIEWS ==> r[ViewId(v)] == (v != show)
    ensures forall k :: k in h && k !in VIEW_IDS ==> r[k] == h[k]
  {
    forall v | v in VIEWS ensures ViewId(v) in VIEW_IDS && (ViewId(v) == ViewId(show) <==> v == show) {
      ViewIdInjective(v, show);
    }
    ShowOnly(h, VIEW_IDS, ViewId(show))
  }

  /** The link handlers. */
  function GoToHome(h: Visibility): (r: Visibility)
    requires LandingPage(h)
    ensures LandingPage(r) && r.Keys == h.Keys
    ensures forall k :: k in h && k !in VIEW_IDS ==> r[k] == h[k]
    ensures !r[ViewId("home")] && r[ViewId("about")] && r[ViewId("resume")]
  {
    ShowView(h, "home")
  }

  function GoToAbout(h: Visibility): (r: Visibility)
    requires LandingPage(h)
    ensures LandingPage(r) && r.Keys == h.Keys
    ensures forall k :: k in h && k !in VIEW_IDS ==> r[k] == h[k]
    ensures r[ViewId("home")] && !r[ViewId("about")] && r[ViewId("resume")]
  {
    ShowView(h, "about")
  }

  function GoToResume(h: Visibility): (r: Visibility)
    requires LandingPage(h)
    ensures LandingPage(r) && r.Keys == h.Keys
    ensures forall k :: k in h && k !in VIEW_IDS ==> r[k] == h[k]
    ensures r[ViewId("home")] && r[ViewId("about")] && !r[ViewId("resume")]
  {
    ShowView(h, "resume")
  }

  /** After `showView` with a known view exactly one of the three sections is visible, and it
      is that view's section; with an unknown name all three are hidden. */
  lemma ShowViewExactlyOne(h: Visibility, show: string)
    requires LandingPage(h)
    ensures show in VIEWS ==> Visible(ShowView(h, show), VIEW_IDS) == {ViewId(show)}
    ensures show !in VIEWS ==> Visible(ShowView(h, show), VIEW_IDS) == {}
  {
    ViewIdInjective("home", show);
    ViewIdInjective("about", show);
    ViewIdInjective("resume", show);
    assert ViewId(show) in VIEW_IDS <==> show in VIEWS;
    ExactlyTarget(h, VIEW_IDS, ViewId(show));
  }

  /** `showView` is idempotent. */
  lemma ShowViewIdempotent(h: Visibility, show: string)
    requires LandingPage(h)
    ensures ShowView(ShowView(h, show), show) == ShowView(h, show)
  {
    ShowOnlyIdempotent(h, VIEW_IDS, ViewId(show));
  }
}
