/** The primary navigation controller: one flag, `mobileOpen`, and four DOM outputs kept in
    step with it (the toggle's aria-expanded, the menu's hidden property and `show` class, the
    body's `no-scroll` class). Handlers run to completion one event at a time. */
module NavMenu {

  /** Everything the controller writes: its own flag and the four DOM outputs. */
  datatype NavView = NavView(
    mobileOpen: bool,
    ariaExpanded: string,  // the toggle's aria-expanded attribute
    hidden: bool,          // navMenu.hidden
    show: bool,            // the menu has the `show` class
    noScroll: bool)        // document.body has the `no-scroll` class

  /** What openMobile leaves behind, whatever came before. */
  const Opened := NavView(true, "true", false, true, true)
  /** What closeMobile (and setMobileClosed, its alias) leaves behind. */
  const Closed := NavView(false, "false", true, false, false)
  /** What setDesktopState leaves behind: visible menu, no overlay treatment. */
  const Desktop := NavView(false, "false", false, false, false)

  /** The states the controller can be in once installed: mobile open, mobile closed, desktop. */
  predicate InLayout(v: NavView) {
    v == Opened || v == Closed || v == Desktop
  }

  /** The flag and the outputs agree: open exactly when expanded, exactly when the menu has
      `show`, exactly when the body has `no-scroll`; and an open menu is never hidden. */
  predicate Consistent(v: NavView) {
    (v.mobileOpen <==> v.ariaExpanded == "true")
    && (v.mobileOpen <==> v.show)
    && (v.mobileOpen <==> v.noScroll)
    && (v.mobileOpen ==> !v.hidden)
  }

  lemma InLayoutIsConsistent(v: NavView)
    requires InLayout(v)
    ensures Consistent(v)
  {
  }

  /** The toggle button's click listener; not gated on the breakpoint. */
  function ToggleClick(v: NavView): (r: NavView)
    ensures r.mobileOpen == !v.mobileOpen
    ensures r.mobileOpen ==> r.ariaExpanded == "true" && !r.hidden && r.show && r.noScroll
    ensures !r.mobileOpen ==> r.ariaExpanded == "false" && r.hidden && !r.show && !r.noScroll
  {
    if v.mobileOpen then Closed else Opened
  }

  /** The document's click listener: closes an open menu when the click landed outside both
      the menu and the toggle; otherwise nothing changes. */
  function DocumentClick(v: NavView, inMenu: bool, inToggle: bool): (r: NavView)
    ensures !v.mobileOpen || inMenu || inToggle ==> r == v
    ensures v.mobileOpen && !inMenu && !inToggle ==> r == Closed
  {
    if !v.mobileOpen then v
    else if !inMenu && !inToggle then Closed
    else v
  }

  /** The menu's click listener: closes an open menu when the click was on or inside a link. */
  function MenuClick(v: NavView, onLink: bool): (r: NavView)
    ensures !v.mobileOpen || !onLink ==> r == v
    ensures v.mobileOpen && onLink ==> r == Closed
  {
    if !v.mobileOpen then v
    else if onLink then Closed
    else v
  }

  /** The document's keydown listener: only the key "Escape" closes, and only an open menu. */
  function KeyDown(v: NavView, key: string): (r: NavView)
    ensures !v.mobileOpen || key != "Escape" ==> r == v
    ensures v.mobileOpen && key == "Escape" ==> r == Closed
  {
    if !v.mobileOpen then v
    else if key == "Escape" then Closed
    else v
  }

  /** The desktop media query's change listener: the prior state does not matter. */
  function BreakpointChange(v: NavView, matches: bool): (r: NavView)
    ensures !r.mobileOpen && r.ariaExpanded == "false" && !r.show && !r.noScroll
    ensures r.hidden == !matches
  {
    if matches then Desktop else Closed
  }

  /** The state installation leaves, from whatever the markup said before. */
  function Initial(desktop: bool): (r: NavView)
    ensures InLayout(r)
  {
    if desktop then Desktop else Closed
  }

  /** Installation follows the same rule as a later breakpoint change. */
  lemma InitialIsBreakpointRule(v: NavView, desktop: bool)
    ensures Initial(desktop) == BreakpointChange(v, desktop)
  {
  }

  /** Where a click landed, relative to the toggle, the menu and the links in the menu.
      The toggle (a button) and the menu (a nav) are separate subtrees of the page. */
  datatype Target = OnToggle | InMenu(onLink: bool) | Elsewhere

  /** One click, bubbling from the target: the toggle's listener or the menu's listener
      first, then the document's. */
  function Click(v: NavView, t: Target): (r: NavView)
    ensures InLayout(v) ==> InLayout(r)
    ensures Consistent(v) ==> Consistent(r)
    ensures t != OnToggle ==> r == v || r == Closed
  {
    var afterToggle := if t.OnToggle? then ToggleClick(v) else v;
    var afterMenu := if t.InMenu? then MenuClick(afterToggle, t.onLink) else afterToggle;
    DocumentClick(afterMenu, t.InMenu?, t.OnToggle?)
  }

  /** A click on the toggle always flips the menu: the document listener that runs after the
      toggle's own never undoes it. */
  lemma ClickOnToggleFlips(v: NavView)
    ensures Click(v, OnToggle).mobileOpen == !v.mobileOpen
    ensures Click(v, OnToggle) == (if v.mobileOpen then Closed else Opened)
  {
  }

  /** Any click closes an open menu except one inside the menu that is not on a link;
      a closed menu stays as it is whatever is clicked, other than the toggle. */
  lemma ClickElsewhereOnlyCloses(v: NavView, t: Target)
    requires t != OnToggle
    ensures v.mobileOpen && t != InMenu(false) ==> Click(v, t) == Closed
    ensures !v.mobileOpen || t == InMenu(false) ==> Click(v, t) == v
  {
  }

  /** Starting from any state, the menu is closed after an Escape key press, and the body
      scrolls again if the outputs agreed with the flag before. */
  lemma EscapeCloses(v: NavView)
    ensures !KeyDown(v, "Escape").mobileOpen
    ensures Consistent(v) ==> !KeyDown(v, "Escape").noScroll
  {
  }

  /** On desktop the toggle still works: a click opens the mobile treatment. */
  lemma ToggleNotGatedOnDesktop()
    ensures Click(Desktop, OnToggle) == Opened
  {
  }

  /** The events the controller listens to. */
  datatype NavEvent =
    | ClickEvent(target: Target)
    | KeyEvent(key: string)
    | MediaChange(matches: bool)

  function Step(v: NavView, e: NavEvent): NavView {
    match e
    case ClickEvent(t) => Click(v, t)
    case KeyEvent(k) => KeyDown(v, k)
    case MediaChange(m) => BreakpointChange(v, m)
  }

  /** The events delivered one after another, each handled to completion. */
  function Run(v: NavView, events: seq<NavEvent>): NavView
    decreases |events|
  {
    if events == [] then v else Run(Step(v, events[0]), events[1..])
  }

  lemma StepKeepsLayout(v: NavView, e: NavEvent)
    requires InLayout(v)
    ensures InLayout(Step(v, e))
  {
  }

  /** Every sequence of events keeps the controller in one of its three states. */
  lemma {:induction false} RunKeepsLayout(v: NavView, events: seq<NavEvent>)
    requires InLayout(v)
    ensures InLayout(Run(v, events))
    decreases |events|
  {
    if events != [] {
      StepKeepsLayout(v, events[0]);
      RunKeepsLayout(Step(v, events[0]), events[1..]);
    }
  }

  /** Every sequence of events preserves the agreement of the flag and the outputs. */
  lemma {:induction false} RunKeepsConsistent(v: NavView, events: seq<NavEvent>)
    requires Consistent(v)
    ensures Consistent(Run(v, events))
    decreases |events|
  {
    if events != [] {
      RunKeepsConsistent(Step(v, events[0]), events[1..]);
    }
  }

  /** From installation on, whatever happens, the outputs agree with the flag. */
  lemma SessionConsistent(desktop: bool, events: seq<NavEvent>)
    ensures InLayout(Run(Initial(desktop), events))
    ensures Consistent(Run(Initial(desktop), events))
  {
    RunKeepsLayout(Initial(desktop), events);
  }

  /** The controller, installed only when both the toggle and the menu are on the page. */
  class NavController {
    var mobileOpen: bool
    var ariaExpanded: string
    var menuHidden: bool
    var menuShow: bool
    var bodyNoScroll: bool

    function View(): NavView
      reads this
    {
      NavView(mobileOpen, ariaExpanded, menuHidden, menuShow, bodyNoScroll)
    }

    /** The guard of installation: without the toggle or the menu nothing is attached. */
    static method Install(hasToggle: bool, hasMenu: bool, desktop: bool) returns (c: NavController?)
      ensures (c != null) == (hasToggle && hasMenu)
      ensures c != null ==> fresh(c) && c.View() == Initial(desktop)
    {
      if hasToggle && hasMenu {
        c := new NavController(desktop);
      } else {
        c := null;
      }
    }

    /** Installation: the initial state follows the desktop media query. */
    constructor (desktop: bool)
      ensures View() == Initial(desktop)
    {
      mobileOpen, ariaExpanded, menuHidden, menuShow, bodyNoScroll := false, "false", !desktop, false, false;
    }

    method OpenMobile()
      modifies this
      ensures View() == Opened
    {
      mobileOpen := true;
      ariaExpanded := "true";
      menuHidden := false;
      menuShow := true;
      bodyNoScroll := true;
    }

    method CloseMobile()
      modifies this
      ensures View() == Closed
    {
      mobileOpen := false;
      ariaExpanded := "false";
      menuHidden := true;
      menuShow := false;
      bodyNoScroll := false;
    }

    method SetDesktopState()
      modifies this
      ensures View() == Desktop
    {
      mobileOpen := false;
      ariaExpanded := "false";
      menuHidden := false;
      menuShow := false;
      bodyNoScroll := false;
    }

    method SetMobileClosed()
      modifies this
      ensures View() == Closed
    {
      CloseMobile();
    }

    method OnToggleClick()
      modifies this
      ensures View() == ToggleClick(old(View()))
    {
      if mobileOpen {
        CloseMobile();
      } else {
        OpenMobile();
      }
    }

    method OnDocumentClick(inMenu: bool, inToggle: bool)
      modifies this
      ensures View() == DocumentClick(old(View()), inMenu, inToggle)
    {
      if !mobileOpen {
        return;
      }
      if !inMenu && !inToggle {
        CloseMobile();
      }
    }

    method OnMenuClick(onLink: bool)
      modifies this
      ensures View() == MenuClick(old(View()), onLink)
    {
      if !mobileOpen {
        return;
      }
      if onLink {
        CloseMobile();
      }
    }

    method OnKeyDown(key: string)
      modifies this
      ensures View() == KeyDown(old(View()), key)
    {
      if !mobileOpen {
        return;
      }
      if key == "Escape" {
        CloseMobile();
      }
    }

    method OnBreakpointChange(matches: bool)
      modifies this
      ensures View() == BreakpointChange(old(View()), matches)
    {
      if matches {
        SetDesktopState();
      } else {
        SetMobileClosed();
      }
    }

    /** A click dispatched as the browser bubbles it: the target's listener, then the document's. */
    method OnClick(t: Target)
      modifies this
      ensures View() == Click(old(View()), t)
    {
      if t.OnToggle? {
        OnToggleClick();
      }
      if t.InMenu? {
        OnMenuClick(t.onLink);
      }
      OnDocumentClick(t.InMenu?, t.OnToggle?);
    }
  }
}
