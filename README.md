# Clinic page behaviour: a verified model of its decision rules

`script.js` animates the static marketing page of a clinic. Most of it is
browser glue, but a handful of its event handlers make decisions that can be
stated exactly. This project models those handlers in Dafny and proves what
they promise:

- **Phone field** (`Phone`): the `input` handler keeps only the digits `0`-`9`
  and at most the first ten of them. The `blur` handler sets the validity
  message `Please enter a valid 10-digit mobile number` on a non-empty value
  whose length is not ten, and clears it otherwise.
- **Scroll thresholds** (`ScrollEffects`): the header has `scrolled` above 50
  pixels. The scroll-to-top button has opacity `1` and visibility `visible`
  above 500 pixels, and `0`/`hidden` otherwise.
- **Mobile navigation** (`MobileNav`): this covers the nav's and the
  hamburger's `active` classes and `body.style.overflow`. The four listeners
  are modelled twice: as a transition function `Next` over a value, and as
  methods of the class `Navigation` whose contracts tie them to `Next`. Click
  bubbling (target listener first, then the document listener) is modelled by
  `ClickListeners`.
- **Active nav link** (`ActiveLink`): each section owns the band
  (offsetTop − 120, offsetTop − 120 + offsetHeight]. The listener walks the
  sections in document order. For each section whose band holds the scroll
  offset, it clears every link and sets the first link whose href is
  `#<section id>`. `NavLinks.OnScroll` is that loop. It is proved equal to the
  specification `Scan`, and lemmas about `Scan` give the outcome.
- **At most one notification / ripple** (`SingleChild`): `showNotification`
  and `createRipple` remove the first child carrying a class, then append a
  new child with that class.
- **Booking message** (`Booking`): the form entries are gathered into a
  record, later entries overwriting earlier ones. They are written into the
  message template: a missing or empty email becomes `Not provided`, and
  missing or empty notes become `None`. The message is then put after
  `https://wa.me/917176660645?text=`.

Some things are parameters of the model rather than part of it:

- Offsets are `real`: `scrollY` and `pageYOffset` are the same value, so they
  are one parameter.
- The section layout (`offsetTop`, `offsetHeight`, integers) is given to the
  model.
- `toLocaleDateString`, `toLocaleString` (the clock) and `encodeURIComponent`
  are function or string parameters.
- The contents of `FormData` are a sequence of key/value pairs.

Where section bands overlap, the last matching section in document order
wins, because every match overwrites the previous one; a band is open at its
lower end and closed at its upper end (script.js:70-72).

## Model

| member | source | states |
|---|---|---|
| Phone.Digits | script.js:338 | the result holds only the characters `0`-`9`, is no longer than the input, and is as long as the input exactly when the input is all digits |
| Phone.Sanitize | script.js:336-346 | the stored value holds only digits, at most 10 of them, as many as min(10, digits in the input), and is a prefix of the input's digits in order |
| Phone.DigitsAppend | script.js:338 | stripping non-digits distributes over concatenation |
| Phone.DigitsFixedPoint | script.js:338 | the digit filter leaves a string unchanged exactly when it is all digits |
| Phone.SanitizeIdempotent | script.js:338-345 | running the input handler on its own output changes nothing |
| Phone.SanitizeFixedPoint | script.js:338-345 | the input handler leaves a value unchanged exactly when it is at most ten digits |
| Phone.NonDigitIgnored | script.js:338 | typing a non-digit at the end leaves the stored value as it was |
| Phone.FullNumberIgnoresMore | script.js:341-343 | once ten digits are stored, anything typed after them is discarded |
| Phone.OnBlur | script.js:348-356 | the validity message is either empty or the fixed error text, it is reported exactly when set, and it is set only on a non-empty value |
| Phone.BlurFlagsWrongLength | script.js:348-356 | blur sets a validity error, and reports it, exactly when the value is non-empty and its length is not 10; otherwise the error is cleared |
| Phone.BlurAfterInput | script.js:336-356 | after the input filter, blur flags the field exactly when the input held between one and nine digits |
| ScrollEffects.HeaderScrolledIff | script.js:6-12 | the header has `scrolled` iff the offset is above 50, whatever the state before |
| ScrollEffects.ToTopShownIff | script.js:449-457 | the button is shown iff the offset is above 500 and hidden iff it is at most 500 |
| ScrollEffects.Idempotent | script.js:6-12 | a repeated scroll event at the same offset changes nothing |
| ScrollEffects.ShownImpliesScrolled | script.js:449-457 | whenever the scroll-to-top button is visible, the header is scrolled |
| ScrollEffects.OnScroll | script.js:6-12 | both scroll listeners on one event: the button only takes its shown or hidden style, and is never shown over an unscrolled header |
| ScrollEffects.OnScrolls | script.js:449-457 | after any non-empty run of scroll events, header and button are what the last offset alone gives on the page as loaded |
| MobileNav.Next | script.js:15-37 | one listener on one event: only a hamburger click can open the nav; every other event changes nothing or closes everything |
| MobileNav.Run | script.js:15-37 | over any sequence of events, a closed nav ends open only if the hamburger was clicked at some point |
| MobileNav.ClickListeners | script.js:32-38 | the document's click listener runs on every click, after the target's own listener |
| MobileNav.HamburgerFlips | script.js:15-19 | a hamburger click flips the nav's and the hamburger's `active`, and afterwards overflow is `hidden` iff the nav is active, from any state |
| MobileNav.ClicksClose | script.js:24-37 | a nav-link click always closes (nav and hamburger inactive, overflow cleared); an outside click closes only an open nav and otherwise changes nothing |
| MobileNav.EscapeCloses | script.js:500-506 | Escape closes an open nav; otherwise, and for any other key, nothing changes |
| MobileNav.NextKeepsSynced | script.js:15-37 | every listener keeps "hamburger active = nav active, overflow hidden iff nav active" |
| MobileNav.RunKeepsSynced | script.js:15-37 | from the all-closed page, that invariant holds after every sequence of events |
| MobileNav.BubblingIsHarmless | script.js:15-37 | a click on the hamburger or a nav link bubbling up to the document listener has exactly the effect of the target's own listener |
| MobileNav.Navigation.OnHamburgerClick | script.js:15-19 | the class fields after a hamburger click are the transition function's result |
| MobileNav.Navigation.OnNavLinkClick | script.js:24-28 | the class fields after a nav-link click are the transition function's result |
| MobileNav.Navigation.OnDocumentClick | script.js:32-37 | the class fields after a document click are the transition function's result |
| MobileNav.Navigation.OnKeyDown | script.js:500-506 | the class fields after a keydown are the transition function's result |
| ActiveLink.InBand | script.js:65-70 | the band test (offsetTop − 120, offsetTop − 120 + offsetHeight]; a section of height zero or less never matches |
| ActiveLink.Highlight | script.js:71-72 | clearing every link and setting one: at most one link is active, the chosen one if it exists, none when there is no link |
| ActiveLink.Scan | script.js:64-74 | the links after visiting the sections in order: as many as before, and changed only if some section's band holds the offset |
| ActiveLink.LinkFor | script.js:68 | the result is the first link whose href is `#id`, or none when no link has it |
| ActiveLink.NoMatchKeepsLinks | script.js:64-74 | when no section's band holds the offset, every link keeps its state |
| ActiveLink.LastMatchWins | script.js:64-74 | when some band holds the offset, the links are all cleared except the first link of the last matching section, if it has one |
| ActiveLink.LastMatchExists | script.js:64-74 | if any section matches, a last matching section exists at or after it |
| ActiveLink.AtMostOneActive | script.js:70-72 | after a match, a link is active iff it is the link chosen for the last matching section, so at most one is active |
| ActiveLink.ScanIdempotent | script.js:60-75 | a second scroll event at the same offset leaves the links as they are |
| ActiveLink.NavLinks.ClearAll | script.js:71 | every nav link loses `active` |
| ActiveLink.NavLinks.OnScroll | script.js:60-75 | the loop over the sections leaves the links as the specification `Scan` says |
| SingleChild.FirstWithClass | script.js:222 | the result is the least index of a child with the class, or none when no child has it |
| SingleChild.RemoveFirst | script.js:222-225 | with no such child the list is unchanged; otherwise exactly that one child is gone and nothing else |
| SingleChild.Replace | script.js:573-578 | remove-then-append: the list grows by at most one, ends with the new node, and holds nothing but old children and the new node |
| SingleChild.RemoveFirstCounts | script.js:222-225 | removing the existing node lowers the count of that class by one if there was one, and keeps all other children in order |
| SingleChild.ReplaceCounts | script.js:220-241 | remove-then-append leaves max(1, count before) children with the class, keeps all other children in order, and ends with the new node |
| SingleChild.ReplaceKeepsAtMostOne | script.js:573-578 | with at most one ripple (or notification) before, there is exactly one after |
| SingleChild.Container.RemoveFirstWithClass | script.js:222-225 | the child list loses its first child with the class, if any |
| SingleChild.Container.AppendChild | script.js:241 | the new node is appended at the end |
| SingleChild.ShowNotification | script.js:220-241 | the body's children become the remove-then-append of a notification of the given kind and text, and the new last child shows the check icon for success and the cross icon otherwise |
| SingleChild.CreateRipple | script.js:562-579 | the button's children become the remove-then-append of a ripple whose diameter is the larger client dimension |
| Booking.Collected | script.js:157-161 | the record the entries build, keyed by field name: never more keys than entries |
| Booking.CollectedKeys | script.js:158-161 | the record holds exactly the keys of the form's entries |
| Booking.CollectedLastWins | script.js:159-161 | each key holds the value of its last entry |
| Booking.CollectFields | script.js:157-161 | the `forEach` loop builds exactly that record |
| Booking.MessageLines | script.js:164-182 | the 19 lines of the message template, the first empty and the last four spaces, with a missing field shown as `undefined`, email defaulting to `Not provided` and notes to `None` |
| Booking.Message | script.js:164-182 | the template's lines joined by newlines; the message opens with a newline |
| Booking.InnerLineContained | script.js:164-182 | each inner line of a newline-joined text stands between two newlines |
| Booking.MessageShowsFields | script.js:164-182 | name, phone, email, date, time, department and notes each stand on their own labelled line of the message |
| Booking.DefaultsForEmptyFields | script.js:170-178 | an empty or missing email is written `Email: Not provided` and empty or missing notes `None` |
| Booking.WhatsAppUrl | script.js:192-193 | the link: the fixed prefix `https://wa.me/917176660645?text=` followed by the encoded message |
| Booking.UrlDeterminesEncoding | script.js:192-193 | two messages give the same link only if their encodings agree |
| Booking.UrlRoundTrip | script.js:192-193 | the link is the prefix followed by the encoded message, so decoding its tail gives the message back |
| Booking.OnSubmit | script.js:153-199 | submit gathers the record, composes message and link, and replaces any notification with the success notification, whose icon is `fa-check-circle` |

## Left out

- DOM querying, listener registration, injected CSS text, console branding
  and touch detection: they are plumbing with no behaviour to state.
- Timer-driven behaviour: it depends on the event loop. This covers the
  notification's slide-in and its auto-dismiss after five seconds, the delayed
  `window.open`, and the restore of the submit button after two seconds. It
  also covers the page-load fades, the floating elements and the `throttle`
  helper (which in fact debounces).
- The notification's close button (`this.parentElement.remove()`): it only
  removes the notification, and it lives in markup text. It is not modelled.
- Floating-point and random effects: the counter animation, the parallax
  speeds, the particles, the ripple's position, and the smooth-scroll offset.
- The IntersectionObserver reveal and the stats trigger: these are browser
  callbacks.
- `toLocaleDateString`, `toLocaleString`, `encodeURIComponent` and `FormData`
  are foreign calls. They are parameters of the model, so nothing is proved
  about the date text, the timestamp or the percent-encoding itself.
- The submit button's relabel and `disabled` flag, the form reset, and the
  `catch` branch: nothing in the `try` block can throw. The minimum date set
  on the date input is also left out, because it reads the clock.
- The focus and blur transforms on form inputs, and the scroll-to-top button's
  click and hover handlers: they only write CSS.
- Scroll offsets are exact reals; browser rounding of offsets is not modelled.
- Phone.OnBlur: counts characters, where JavaScript's `length` counts UTF-16
  code units. The two differ only for characters outside the Basic
  Multilingual Plane, which the input filter never leaves.
- ActiveLink.LinkFor: compares hrefs as plain strings. A quote in a section
  id would make the real selector throw, and a backslash is read as a CSS
  escape, so the real selector can pick a different link than the model
  does. Neither case is modelled.
- ActiveLink.NavLinks: the link list is the one captured at load. Links added
  later are not modelled.
- SingleChild.ShowNotification: the real `querySelector` searches the whole
  document. The model searches the body's children, the only place
  notifications are ever appended.
- SingleChild.CreateRipple: the real lookup searches every descendant of the
  button. The model searches the button's children, the only place ripples
  are ever appended.
