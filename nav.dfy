/** The mobile navigation: the hamburger toggles `active` on the nav and on
    itself and locks page scrolling while the nav is open; a nav-link click,
    a click outside both, or Escape closes it. */
module MobileNav {

  const Hidden := "hidden"

  /** The events the four listeners react to. `DocumentClick` is the
      document-level click listener, told whether the click target lies
      inside the nav and inside the hamburger. */
  datatype NavEvent =
    | HamburgerClick
    | NavLinkClick
    | DocumentClick(inNav: bool, inHamburger: bool)
    | KeyDown(key: string)

  /** The nav's and the hamburger's `active` class and `body.style.overflow`. */
  datatype NavView = NavView(navActive: bool, hamburgerActive: bool, overflow: string)

  const Closed := NavView(false, false, "")

  /** One listener run on one event. Only a hamburger click can open the
      nav; every other event either changes nothing or closes everything. */
  function Next(v: NavView, e: NavEvent): (r: NavView)
    ensures r.navActive && !v.navActive ==> e.HamburgerClick?
    ensures !e.HamburgerClick? ==> r == v || r == Closed
  {
    match e
    case HamburgerClick =>
      var nav := !v.navActive;
      NavView(nav, !v.hamburgerActive, if nav then Hidden else "")
    case NavLinkClick => Closed
    case DocumentClick(inNav, inHamburger) =>
      if !inNav && !inHamburger && v.navActive then Closed else v
    case KeyDown(key) =>
      if key == "Escape" && v.navActive then Closed else v
  }

  /** The listeners run on a sequence of events. A nav that was closed
      is open afterwards only if the hamburger was clicked at some point. */
  function Run(v: NavView, es: seq<NavEvent>): (r: NavView)
    ensures r.navActive && !v.navActive ==> exists i :: 0 <= i < |es| && es[i].HamburgerClick?
    decreases |es|
  {
    if es == [] then v else Run(Next(v, es[0]), es[1..])
  }

  /** The state the listeners are meant to keep: hamburger and nav agree,
      and scrolling is locked exactly while the nav is open. */
  predicate Synced(v: NavView) {
    v.hamburgerActive == v.navActive && v.overflow == (if v.navActive then Hidden else "")
  }

  /** What a click actually hits; the browser runs the target's own listener
      first and the document's click listener after it, as the event bubbles. */
  datatype Target = Hamburger | NavLink | InsideNav | Outside

  function ClickListeners(t: Target): (es: seq<NavEvent>)
    ensures |es| >= 1 && es[|es| - 1].DocumentClick?
  {
    match t
    case Hamburger => [HamburgerClick, DocumentClick(false, true)]
    case NavLink => [NavLinkClick, DocumentClick(true, false)]
    case InsideNav => [DocumentClick(true, false)]
    case Outside => [DocumentClick(false, false)]
  }

  /** A hamburger click flips both classes, and afterwards scrolling is
      locked exactly when the nav is open, from any state at all. */
  lemma HamburgerFlips(v: NavView)
    ensures Next(v, HamburgerClick).navActive == !v.navActive
    ensures Next(v, HamburgerClick).hamburgerActive == !v.hamburgerActive
    ensures Next(v, HamburgerClick).overflow == Hidden <==> Next(v, HamburgerClick).navActive
  {
  }

  /** A nav-link click always closes; a click outside both the nav and the
      hamburger closes only an open nav and otherwise changes nothing. */
  lemma ClicksClose(v: NavView, inNav: bool, inHamburger: bool)
    ensures Next(v, NavLinkClick) == Closed
    ensures !inNav && !inHamburger && v.navActive ==> Next(v, DocumentClick(inNav, inHamburger)) == Closed
    ensures inNav || inHamburger || !v.navActive ==> Next(v, DocumentClick(inNav, inHamburger)) == v
  {
  }

  /** Escape closes an open nav; on a closed nav, and for every other key,
      nothing changes. */
  lemma EscapeCloses(v: NavView, key: string)
    ensures key == "Escape" && v.navActive ==> Next(v, KeyDown(key)) == Closed
    ensures key != "Escape" || !v.navActive ==> Next(v, KeyDown(key)) == v
  {
  }

  lemma NextKeepsSynced(v: NavView, e: NavEvent)
    requires Synced(v)
    ensures Synced(Next(v, e))
  {
  }

  /** From any synced state, in particular the page as loaded, every run of
      events keeps hamburger and nav in step and the scroll lock tied to
      the nav. */
  lemma {:induction false} RunKeepsSynced(v: NavView, es: seq<NavEvent>)
    requires Synced(v)
    ensures Synced(Run(v, es))
    decreases |es|
  {
    if es != [] {
      NextKeepsSynced(v, es[0]);
      RunKeepsSynced(Next(v, es[0]), es[1..]);
    }
  }

  /** Bubbling does not undo the target's own listener: the document
      listener ignores clicks on the hamburger and inside the nav, so a
      click has exactly the effect of the target's listener. */
  lemma BubblingIsHarmless(v: NavView)
    ensures Run(v, ClickListeners(Hamburger)) == Next(v, HamburgerClick)
    ensures Run(v, ClickListeners(NavLink)) == Closed
    ensures Run(v, ClickListeners(InsideNav)) == v
    ensures Run(v, ClickListeners(Outside)) == if v.navActive then Closed else v
  {
  }

  /** The three pieces of page state the listeners mutate. */
  class Navigation {
    var navActive: bool
    var hamburgerActive: bool
    var overflow: string

    function View(): NavView
      reads this
    {
      NavView(navActive, hamburgerActive, overflow)
    }

    constructor ()
      ensures View() == Closed
    {
      navActive, hamburgerActive, overflow := false, false, "";
    }

    /** The hamburger's click listener. */
    method OnHamburgerClick()
      modifies this
      ensures View() == Next(old(View()), HamburgerClick)
    {
      navActive := !navActive;
      hamburgerActive := !hamburgerActive;
      overflow := if navActive then Hidden else "";
    }

    method Close()
      modifies this
      ensures View() == Closed
    {
      navActive := false;
      hamburgerActive := false;
      overflow := "";
    }

    method OnNavLinkClick()
      modifies this
      ensures View() == Next(old(View()), NavLinkClick)
    {
      Close();
    }

    method OnDocumentClick(inNav: bool, inHamburger: bool)
      modifies this
      ensures View() == Next(old(View()), DocumentClick(inNav, inHamburger))
    {
      if !inNav && !inHamburger && navActive {
        Close();
      }
    }

    method OnKeyDown(key: string)
      modifies this
      ensures View() == Next(old(View()), KeyDown(key))
    {
      if key == "Escape" && navActive {
        Close();
      }
    }
  }
}
