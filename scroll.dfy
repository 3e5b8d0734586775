/** The two scroll-position thresholds: the header carries `scrolled` past
    50 pixels, and the scroll-to-top button is shown past 500 pixels.
    `window.scrollY` and `window.pageYOffset` name the same offset, so both
    handlers read one parameter here. */
module ScrollEffects {

  const HeaderThreshold: real := 50.0
  const ToTopThreshold: real := 500.0

  /** The inline style the scroll-to-top button is given. */
  datatype ButtonStyle = ButtonStyle(opacity: string, visibility: string)

  const HiddenStyle := ButtonStyle("0", "hidden")
  const ShownStyle := ButtonStyle("1", "visible")

  /** What the scroll handlers write: the header's `scrolled` class and the
      button's style. */
  datatype Chrome = Chrome(headerScrolled: bool, toTop: ButtonStyle)

  /** The page as loaded: no `scrolled` class, the button invisible. */
  const Initial := Chrome(false, HiddenStyle)

  /** Both scroll listeners run on one scroll event at offset `y`. The
      button only ever takes one of its two styles, and it is never shown
      over an unscrolled header. */
  function OnScroll(c: Chrome, y: real): (r: Chrome)
    ensures r.toTop == ShownStyle || r.toTop == HiddenStyle
    ensures r.toTop == ShownStyle ==> r.headerScrolled
  {
    Chrome(y > HeaderThreshold, if y > ToTopThreshold then ShownStyle else HiddenStyle)
  }

  /** Folding a run of scroll events, one offset each, in order. After a
      non-empty run only the last offset matters: the result is what that
      one event gives on the page as loaded. */
  function OnScrolls(c: Chrome, ys: seq<real>): (r: Chrome)
    ensures ys == [] ==> r == c
    ensures ys != [] ==> r == OnScroll(Initial, ys[|ys| - 1])
    decreases |ys|
  {
    if ys == [] then c else OnScrolls(OnScroll(c, ys[0]), ys[1..])
  }

  /** The header carries `scrolled` exactly above 50, whatever the state
      before. */
  lemma HeaderScrolledIff(c: Chrome, y: real)
    ensures OnScroll(c, y).headerScrolled <==> y > 50.0
  {
  }

  /** The button is shown exactly above 500 and hidden otherwise, whatever
      the state before. */
  lemma ToTopShownIff(c: Chrome, y: real)
    ensures OnScroll(c, y).toTop == ShownStyle <==> y > 500.0
    ensures OnScroll(c, y).toTop == HiddenStyle <==> y <= 500.0
  {
  }

  /** A repeated event at the same offset changes nothing. */
  lemma Idempotent(c: Chrome, y: real)
    ensures OnScroll(OnScroll(c, y), y) == OnScroll(c, y)
  {
  }

  /** Whenever the button is visible the header is scrolled too. */
  lemma ShownImpliesScrolled(c: Chrome, y: real)
    ensures OnScroll(c, y).toTop == ShownStyle ==> OnScroll(c, y).headerScrolled
  {
  }
}
