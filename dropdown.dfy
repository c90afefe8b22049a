/** One dropdown controller per `.dropdown-toggle` whose `.dropdown` wrapper holds a
    `.dropdown-menu`. On a hover-capable desktop (the media query
    "(hover: hover) and (min-width: 641px)") CSS opens the menu, every click and keydown
    listener returns at once, and only `sync` on a media-query change writes the state; on
    touch screens the script opens and closes it. */
module Dropdown {

  /** What the controller writes, plus the mode it last synchronised to. */
  datatype DropView = DropView(
    ariaExpanded: string,  // the trigger's aria-expanded attribute
    hidden: bool,          // menu.hidden
    isOpen: bool,          // the wrapper has the `is-open` class
    hoverDesktop: bool)    // the hover-desktop media query matches

  /** `open`: expanded, visible, `is-open`; the mode is untouched. */
  function AfterOpen(v: DropView): (r: DropView)
    ensures r.ariaExpanded == "true" && !r.hidden && r.isOpen
    ensures r.hoverDesktop == v.hoverDesktop
  {
    v.(ariaExpanded := "true", hidden := false, isOpen := true)
  }

  /** `close`: collapsed, hidden, no `is-open`; the mode is untouched. */
  function AfterClose(v: DropView): (r: DropView)
    ensures r.ariaExpanded == "false" && r.hidden && !r.isOpen
    ensures r.hoverDesktop == v.hoverDesktop
  {
    v.(ariaExpanded := "false", hidden := true, isOpen := false)
  }

  /** What `sync` leaves in hover-desktop mode: collapsed but never hidden, so that CSS
      :hover can show the menu. */
  function HoverReady(v: DropView): (r: DropView)
    ensures r.ariaExpanded == "false" && !r.hidden && !r.isOpen
    ensures r.hoverDesktop == v.hoverDesktop
  {
    v.(ariaExpanded := "false", hidden := false, isOpen := false)
  }

  /** The controller's invariant. In hover-desktop mode the menu is collapsed and not hidden;
      in touch mode aria-expanded is "true" or "false", and expanded, visible and `is-open`
      go together. */
  predicate Valid(v: DropView) {
    if v.hoverDesktop then v.ariaExpanded == "false" && !v.hidden && !v.isOpen
    else
      (v.ariaExpanded == "true" || v.ariaExpanded == "false")
      && (v.ariaExpanded == "true" <==> !v.hidden) && (!v.hidden <==> v.isOpen)
  }

  /** `sync`: re-establishes the state the current mode calls for, whatever it was. */
  function AfterSync(v: DropView): (r: DropView)
    ensures Valid(r) && r.hoverDesktop == v.hoverDesktop
    ensures r.ariaExpanded == "false" && !r.isOpen
    ensures r.hidden == !v.hoverDesktop
  {
    if v.hoverDesktop then HoverReady(v) else AfterClose(v)
  }

  /** The media query's change listener: record the new mode, then `sync`. */
  function ModeChange(v: DropView, matches: bool): (r: DropView)
    ensures Valid(r) && r.hoverDesktop == matches
  {
    AfterSync(v.(hoverDesktop := matches))
  }

  /** The state installation leaves, from whatever the markup said before. */
  function Initial(hoverDesktop: bool): (r: DropView)
    ensures Valid(r) && r.hoverDesktop == hoverDesktop
  {
    AfterSync(DropView("false", true, false, hoverDesktop))
  }

  /** The trigger's click listener: in touch mode it toggles on aria-expanded. */
  function TriggerClick(v: DropView): (r: DropView)
    ensures v.hoverDesktop ==> r == v
    ensures !v.hoverDesktop ==> r.hoverDesktop == v.hoverDesktop
    ensures !v.hoverDesktop ==> (r.ariaExpanded == "true" <==> v.ariaExpanded != "true")
    ensures !v.hoverDesktop ==> Valid(r)
  {
    if v.hoverDesktop then v
    else if v.ariaExpanded == "true" then AfterClose(v)
    else AfterOpen(v)
  }

  /** Whether the trigger's click listener calls preventDefault: only in touch mode. */
  predicate TriggerPreventsDefault(v: DropView): (prevented: bool)
    ensures prevented <==> TriggerClick(v) != v
  {
    !v.hoverDesktop
  }

  /** The document's click listener: in touch mode a click outside the wrapper closes. */
  function DocumentClick(v: DropView, inWrap: bool): (r: DropView)
    ensures v.hoverDesktop || inWrap ==> r == v
    ensures !v.hoverDesktop && !inWrap ==> r == AfterClose(v)
  {
    if v.hoverDesktop then v
    else if !inWrap then AfterClose(v)
    else v
  }

  /** The document's keydown listener: in touch mode only "Escape" closes. */
  function KeyDown(v: DropView, key: string): (r: DropView)
    ensures v.hoverDesktop || key != "Escape" ==> r == v
    ensures !v.hoverDesktop && key == "Escape" ==> r == AfterClose(v)
  {
    if v.hoverDesktop then v
    else if key == "Escape" then AfterClose(v)
    else v
  }

  /** The menu's click listener: in touch mode a click on or in a link closes. */
  function MenuClick(v: DropView, onLink: bool): (r: DropView)
    ensures v.hoverDesktop || !onLink ==> r == v
    ensures !v.hoverDesktop && onLink ==> r == AfterClose(v)
  {
    if v.hoverDesktop then v
    else if onLink then AfterClose(v)
    else v
  }

  /** Closing an already closed touch-mode dropdown changes nothing. */
  lemma CloseOfClosedIsNoop(v: DropView)
    requires Valid(v) && !v.hoverDesktop && v.hidden
    ensures AfterClose(v) == v
  {
  }

  /** Where a click landed. The trigger and the menu both lie inside the wrapper (the trigger
      found the wrapper as its ancestor, the menu was found inside it) and are separate. */
  datatype Target = OnTrigger | InMenu(onLink: bool) | InWrapElsewhere | Outside

  /** One click, bubbling from the target: the trigger's or the menu's listener, then the
      document's. */
  function Click(v: DropView, t: Target): (r: DropView)
    ensures v.hoverDesktop ==> r == v
    ensures Valid(v) ==> Valid(r)
    ensures t != OnTrigger ==> r == v || r == AfterClose(v)
  {
    var afterTarget :=
      match t
      case OnTrigger => TriggerClick(v)
      case InMenu(onLink) => MenuClick(v, onLink)
      case _ => v;
    DocumentClick(afterTarget, !t.Outside?)
  }

  /** In touch mode a click on the trigger always toggles: the document listener, which runs
      next, sees a target inside the wrapper and leaves it alone. */
  lemma TouchTriggerClickToggles(v: DropView)
    requires Valid(v) && !v.hoverDesktop
    ensures Valid(Click(v, OnTrigger))
    ensures Click(v, OnTrigger).isOpen == !v.isOpen
    ensures Click(v, OnTrigger).hidden == v.isOpen
  {
  }

  /** The events one dropdown listens to. */
  datatype DropEvent =
    | ClickEvent(target: Target)
    | KeyEvent(key: string)
    | MediaChange(matches: bool)

  function Step(v: DropView, e: DropEvent): DropView {
    match e
    case ClickEvent(t) => Click(v, t)
    case KeyEvent(k) => KeyDown(v, k)
    case MediaChange(m) => ModeChange(v, m)
  }

  /** The events delivered one after another, each handled to completion. */
  function Run(v: DropView, events: seq<DropEvent>): DropView
    decreases |events|
  {
    if events == [] then v else Run(Step(v, events[0]), events[1..])
  }

  lemma StepKeepsValid(v: DropView, e: DropEvent)
    requires Valid(v)
    ensures Valid(Step(v, e))
  {
  }

  /** Every sequence of events keeps the invariant; so does installation, whatever the markup. */
  lemma {:induction false} RunKeepsValid(v: DropView, events: seq<DropEvent>)
    requires Valid(v)
    ensures Valid(Run(v, events))
    decreases |events|
  {
    if events != [] {
      StepKeepsValid(v, events[0]);
      RunKeepsValid(Step(v, events[0]), events[1..]);
    }
  }

  /** Events that leave the media query alone. */
  predicate NoModeChange(events: seq<DropEvent>) {
    forall k :: 0 <= k < |events| ==> !events[k].MediaChange?
  }

  /** On a hover-capable desktop no click or key press changes anything: the state is frozen
      until the media query changes. */
  lemma {:induction false} HoverDesktopFrozen(v: DropView, events: seq<DropEvent>)
    requires v.hoverDesktop && NoModeChange(events)
    ensures Run(v, events) == v
    decreases |events|
  {
    if events != [] {
      assert !events[0].MediaChange?;
      assert Step(v, events[0]) == v;
      HoverDesktopFrozen(v, events[1..]);
    }
  }

  /** One dropdown: the trigger's aria-expanded, the menu's hidden property, the wrapper's
      `is-open` class, and the current answer of the hover-desktop media query. */
  class DropdownController {
    var ariaExpanded: string
    var menuHidden: bool
    var isOpen: bool
    var hoverDesktop: bool

    function View(): DropView
      reads this
    {
      DropView(ariaExpanded, menuHidden, isOpen, hoverDesktop)
    }

    /** The guard of installation: a trigger outside a `.dropdown`, or a `.dropdown` without a
        `.dropdown-menu`, gets no controller. */
    static method Install(hasWrap: bool, hasMenu: bool, hoverDesktop: bool)
      returns (d: DropdownController?)
      ensures (d != null) == (hasWrap && hasMenu)
      ensures d != null ==> fresh(d) && d.View() == Initial(hoverDesktop)
    {
      if hasWrap && hasMenu {
        d := new DropdownController(hoverDesktop);
      } else {
        d := null;
      }
    }

    /** Installation runs `sync` once. */
    constructor (hoverDesktop: bool)
      ensures View() == Initial(hoverDesktop)
    {
      this.hoverDesktop := hoverDesktop;
      ariaExpanded, menuHidden, isOpen := "false", !hoverDesktop, false;
    }

    method Close()
      modifies this
      ensures View() == AfterClose(old(View()))
    {
      ariaExpanded := "false";
      menuHidden := true;
      isOpen := false;
    }

    method Open()
      modifies this
      ensures View() == AfterOpen(old(View()))
    {
      ariaExpanded := "true";
      menuHidden := false;
      isOpen := true;
    }

    method Sync()
      modifies this
      ensures View() == AfterSync(old(View()))
    {
      if hoverDesktop {
        ariaExpanded := "false";
        menuHidden := false;
        isOpen := false;
      } else {
        Close();
      }
    }

    method OnModeChange(matches: bool)
      modifies this
      ensures View() == ModeChange(old(View()), matches)
    {
      hoverDesktop := matches;
      Sync();
    }

    method OnTriggerClick() returns (defaultPrevented: bool)
      modifies this
      ensures View() == TriggerClick(old(View()))
      ensures defaultPrevented == TriggerPreventsDefault(old(View()))
    {
      if hoverDesktop {
        return false;
      }
      defaultPrevented := true;
      if ariaExpanded == "true" {
        Close();
      } else {
        Open();
      }
    }

    method OnDocumentClick(inWrap: bool)
      modifies this
      ensures View() == DocumentClick(old(View()), inWrap)
    {
      if hoverDesktop {
        return;
      }
      if !inWrap {
        Close();
      }
    }

    method OnKeyDown(key: string)
      modifies this
      ensures View() == KeyDown(old(View()), key)
    {
      if hoverDesktop {
        return;
      }
      if key == "Escape" {
        Close();
      }
    }

    method OnMenuClick(onLink: bool)
      modifies this
      ensures View() == MenuClick(old(View()), onLink)
    {
      if hoverDesktop {
        return;
      }
      if onLink {
        Close();
      }
    }

    /** A click dispatched as the browser bubbles it: the target's listener, then the document's. */
    method OnClick(t: Target) returns (defaultPrevented: bool)
      modifies this
      ensures View() == Click(old(View()), t)
      ensures defaultPrevented == (t == OnTrigger && TriggerPreventsDefault(old(View())))
    {
      defaultPrevented := false;
      match t {
        case OnTrigger =>
          defaultPrevented := OnTriggerClick();
        case InMenu(onLink) =>
          OnMenuClick(onLink);
        case _ =>
      }
      OnDocumentClick(!t.Outside?);
    }
  }
}
