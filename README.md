# Site UI controllers, modelled in Dafny

This project models the small state machines inside the site's browser script
(`script.js`). Each one is a handler that runs to completion over a handful of DOM
booleans and strings:

- **Scroll-to-top button** (`ScrollTop`). The button has the `show` class exactly while
  `window.scrollY > 100`.
- **Primary navigation** (`NavMenu`). The controller keeps one flag, `mobileOpen`, and four
  outputs: the toggle's `aria-expanded`, `navMenu.hidden`, the menu's `show` class and the
  body's `no-scroll` class. They change on toggle click, outside click, in-menu link click,
  Escape, and a change of the desktop media query `(min-width: 901px)`.
- **Dropdowns** (`Dropdown`). Each dropdown has its own controller over the trigger's
  `aria-expanded`, `menu.hidden` and the wrapper's `is-open` class. On a hover-capable
  desktop, `(hover: hover) and (min-width: 641px)`, every click and keydown listener returns early,
  and only `sync` on a media-query change writes the state. On touch
  screens, trigger clicks toggle the menu, and outside clicks, Escape and link clicks
  close it.
- **Ticker duplication** (`Ticker`, with `JsString` for ECMAScript `String.prototype.trim`).
  Each track's markup becomes `trim(c) + trim(c)`, once, under a `data-duped` marker.

Each component has a value type (`NavView`, `DropView`, `TrackView`) and one pure function
per handler. Lemmas about these functions state the behaviour: invariants kept over any
sequence of events, no-ops, and idempotence. A class mirrors the DOM fields that the
script updates in place. Each handler method of that class ensures that its new `View()`
is the specification function applied to `old(View())`.

A click is modelled as the browser bubbles it. The listener on the target element (toggle,
trigger or menu) runs first, then the listener on the document. The target is a small
datatype because the toggle and the menu are separate subtrees of the page, and a
dropdown's trigger and menu both lie inside its wrapper.

Three details of the code that the model keeps as written:

- A change to the mobile breakpoint closes the navigation from any state, not only from
  the desktop layout.
- The nav toggle's click listener is not gated on the breakpoint, so a toggle click on
  desktop opens the mobile treatment (`NavMenu.ToggleNotGatedOnDesktop`).
- On a hover desktop, a click on a dropdown trigger returns before `preventDefault`. The
  click is therefore not suppressed (`Dropdown.TriggerPreventsDefault`).

## Model

| member | source | states |
|---|---|---|
| ScrollTop.ShownAt | script.js:16-17 | the button carries `show` only above offset 100, and lacks it at every offset up to 100 |
| ScrollTop.ScrollTopButton.Install | script.js:13-14 | without the button nothing is installed; otherwise the rule applied to the load offset |
| ScrollTop.ShownExactlyAbove | script.js:15-18 | the button shows exactly when scrollY > 100; at exactly 100 it is hidden |
| ScrollTop.ShownIsUpwardClosed | script.js:15-18 | scrolling further down never hides a shown button |
| ScrollTop.ScrollTopButton.constructor | script.js:15-21 | installation applies the rule once to the offset the page loads at |
| ScrollTop.ScrollTopButton.OnScroll | script.js:15-19 | after each scroll event the `show` class reflects the new offset only |
| NavMenu.InLayoutIsConsistent | script.js:30-59 | each of the three states (mobile open, mobile closed, desktop) satisfies the invariant: open ⇔ aria-expanded "true" ⇔ `show` ⇔ `no-scroll`, and open ⇒ not hidden |
| NavMenu.ToggleClick | script.js:30-48 | the toggle flips mobileOpen; opening gives "true", visible, `show`, `no-scroll`; closing gives "false", hidden, neither class |
| NavMenu.DocumentClick | script.js:73-78 | no-op when closed or when the target is inside the menu or the toggle; otherwise closes |
| NavMenu.MenuClick | script.js:81-84 | no-op when closed or when the target is not in a link; otherwise closes |
| NavMenu.KeyDown | script.js:87-90 | no-op when closed or for any key other than "Escape"; otherwise closes |
| NavMenu.BreakpointChange | script.js:50-61 | whatever the prior state: not open, "false", no `show`, no `no-scroll`, hidden exactly when the change is to mobile |
| NavMenu.Initial | script.js:63-65 | installation leaves one of the three layout states |
| NavMenu.InitialIsBreakpointRule | script.js:65 | the initial state follows the same rule as a breakpoint change |
| NavMenu.Click | script.js:68-84 | a bubbled click keeps the three-state layout and the flag/output invariant; any click off the toggle either changes nothing or closes |
| NavMenu.ClickOnToggleFlips | script.js:68-78 | a bubbled click on the toggle always flips the state; the document listener does not undo it |
| NavMenu.ClickElsewhereOnlyCloses | script.js:73-84 | any other click closes an open menu unless it lands in the menu off a link, and never opens one |
| NavMenu.EscapeCloses | script.js:87-90 | from any state the menu is closed after Escape, and body scrolling is restored when the outputs agreed with the flag |
| NavMenu.ToggleNotGatedOnDesktop | script.js:68-70 | from the desktop state a toggle click opens the mobile treatment |
| NavMenu.StepKeepsLayout | script.js:68-95 | every event maps the three states into the three states |
| NavMenu.RunKeepsLayout | script.js:68-95 | every sequence of events stays within the three states |
| NavMenu.RunKeepsConsistent | script.js:30-95 | every sequence of events preserves the flag/output invariant |
| NavMenu.SessionConsistent | script.js:63-95 | from installation on, whatever events arrive, the invariant holds |
| NavMenu.NavController.Install | script.js:63 | without the toggle or the menu no controller is installed; otherwise the initial state |
| NavMenu.NavController.constructor | script.js:65 | the fields start in the state the desktop query selects |
| NavMenu.NavController.OpenMobile | script.js:30-38 | sets the open state |
| NavMenu.NavController.CloseMobile | script.js:40-48 | sets the closed state |
| NavMenu.NavController.SetDesktopState | script.js:50-59 | sets the desktop state |
| NavMenu.NavController.SetMobileClosed | script.js:61 | same as closing |
| NavMenu.NavController.OnToggleClick | script.js:68-70 | new state is ToggleClick of the old |
| NavMenu.NavController.OnDocumentClick | script.js:73-78 | new state is DocumentClick of the old |
| NavMenu.NavController.OnMenuClick | script.js:81-84 | new state is MenuClick of the old |
| NavMenu.NavController.OnKeyDown | script.js:87-90 | new state is KeyDown of the old |
| NavMenu.NavController.OnBreakpointChange | script.js:93-95 | new state is BreakpointChange of the old |
| NavMenu.NavController.OnClick | script.js:68-84 | a bubbled click runs the target's listener, then the document's |
| Dropdown.AfterOpen | script.js:107 | `open` gives "true", visible, `is-open`, mode unchanged |
| Dropdown.AfterClose | script.js:106 | `close` gives "false", hidden, no `is-open`, mode unchanged |
| Dropdown.HoverReady | script.js:111-115 | hover-mode `sync` gives "false", not hidden, no `is-open` |
| Dropdown.AfterSync | script.js:110-120 | `sync` establishes the invariant; collapsed; hidden exactly in touch mode |
| Dropdown.ModeChange | script.js:122 | a media-query change records the mode and re-synchronises |
| Dropdown.Initial | script.js:121 | installation establishes the invariant in the current mode |
| Dropdown.TriggerClick | script.js:125-129 | frozen in hover mode; in touch mode toggles on aria-expanded and keeps the invariant |
| Dropdown.DocumentClick | script.js:132-135 | frozen in hover mode; in touch mode closes exactly on a click outside the wrapper |
| Dropdown.KeyDown | script.js:138-141 | frozen in hover mode; in touch mode closes exactly on "Escape" |
| Dropdown.MenuClick | script.js:144-147 | frozen in hover mode; in touch mode closes exactly on a link click |
| Dropdown.TriggerPreventsDefault | script.js:126-127 | the trigger's click calls preventDefault exactly when it changes the dropdown, which is in touch mode |
| Dropdown.Click | script.js:125-147 | a bubbled click changes nothing in hover mode, keeps the invariant, and off the trigger either changes nothing or closes |
| Dropdown.CloseOfClosedIsNoop | script.js:106 | closing a closed touch-mode dropdown changes nothing |
| Dropdown.TouchTriggerClickToggles | script.js:125-135 | in touch mode a bubbled trigger click flips `is-open` and keeps the invariant |
| Dropdown.StepKeepsValid | script.js:106-147 | every event preserves the invariant |
| Dropdown.RunKeepsValid | script.js:106-147 | every sequence of events preserves the invariant |
| Dropdown.HoverDesktopFrozen | script.js:126-145 | in hover mode no sequence of clicks and key presses changes anything |
| Dropdown.DropdownController.Install | script.js:99-102 | a trigger without wrapper or menu gets no controller; otherwise the synchronised state |
| Dropdown.DropdownController.constructor | script.js:121 | the fields start in the synchronised state |
| Dropdown.DropdownController.Close | script.js:106 | new state is AfterClose of the old |
| Dropdown.DropdownController.Open | script.js:107 | new state is AfterOpen of the old |
| Dropdown.DropdownController.Sync | script.js:110-120 | new state is AfterSync of the old |
| Dropdown.DropdownController.OnModeChange | script.js:122 | new state is ModeChange of the old |
| Dropdown.DropdownController.OnTriggerClick | script.js:125-129 | new state is TriggerClick of the old; preventDefault only in touch mode |
| Dropdown.DropdownController.OnDocumentClick | script.js:132-135 | new state is DocumentClick of the old |
| Dropdown.DropdownController.OnKeyDown | script.js:138-141 | new state is KeyDown of the old |
| Dropdown.DropdownController.OnMenuClick | script.js:144-147 | new state is MenuClick of the old |
| Dropdown.DropdownController.OnClick | script.js:125-147 | a bubbled click runs the target's listener, then the document's |
| JsString.TrimStart | script.js:164 | the result is a suffix, the dropped prefix is white space, and the result does not start with white space |
| JsString.TrimEnd | script.js:164 | the result is a prefix, the dropped suffix is white space, and the result does not end with white space |
| JsString.Trim | script.js:164 | empty exactly for all-white-space input; otherwise no white space at either end |
| JsString.TrimStartSkips | script.js:164 | with only white space before index i, TrimStart returns the suffix from i |
| JsString.TrimEndSkips | script.js:164 | with only white space from index j on, TrimEnd returns the prefix up to j |
| JsString.TrimEndOfCore | script.js:164 | with only white space after a non-blank s[i..j], trimming the end of the suffix from i gives s[i..j] |
| JsString.TrimIsCore | script.js:164 | trim returns exactly the non-blank core surrounded by white space |
| JsString.TrimIdempotent | script.js:164 | trimming twice is trimming once |
| Ticker.Doubled | script.js:164-165 | the new content has twice the trimmed length, and each half is the trimmed original |
| Ticker.Truthy | script.js:163 | the `data-duped` guard is false exactly for a missing attribute and for the empty string |
| Ticker.DupePass | script.js:163-167 | after a pass the track is always marked |
| Ticker.FirstPassDoubles | script.js:163-167 | an unmarked track gets trim(c)+trim(c) and the marker "1" |
| Ticker.DupePassIdempotent | script.js:163-167 | a second pass changes nothing |
| Ticker.RepeatedPassesAreOne | script.js:163-167 | any number of passes equals one pass |
| Ticker.Track.constructor | script.js:161 | a track with the given markup and marker |
| Ticker.Track.Duplicate | script.js:163-167 | new state is DupePass of the old |
| Ticker.DuplicateTracks | script.js:160-168 | after the loop every track found equals one pass over its original, even when two tickers share a track; tickers without a track are skipped |

## Left out

- DOM querying, the `$`/`$$` helpers, `DOMContentLoaded` wiring and listener registration: elements are parameters or fields.
- Media-query evaluation: `matches` is an input boolean for the desktop and hover-desktop queries.
- Timing of mode changes: the dropdown model takes the mode that the last `change` event recorded. In the browser, `matches` is read live and can change before its `change` event is dispatched. The model does not capture a click handled in that gap.
- The smooth `window.scrollTo` on the scroll button's click: a browser side effect with no state.
- Reveal-on-scroll: it is driven entirely by the external IntersectionObserver.
- Button ripple: it depends on a timer, a forced reflow and `pagehide`.
- Tilt effect: it uses floating-point geometry and animation-frame scheduling.
- Ticker.Doubled: `innerHTML` is modelled as a plain string. The browser's serialising and re-parsing of markup on assignment is not modelled.
- JsString.Trim: strings are sequences of Unicode scalar values. JavaScript strings are UTF-16 code units. Every character trim strips lies in the Basic Multilingual Plane, so this matters only for lone surrogates.
- Interaction between modules: the nav, dropdown, ripple and document listeners of other modules see the same events. Each controller is modelled on its own.
