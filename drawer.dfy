/** The slide-in navigation drawer's controller as a pure state machine.
    `DrawerState` is everything the script's handlers read or write: the menu
    button's `aria-expanded` / `aria-label`, the `hidden` flags of drawer and
    backdrop, the body's `drawer-open` class and inline `overflow`, the
    registered listeners, the module-level `lastFocused`, the active element,
    and the callbacks scheduled with `requestAnimationFrame` / `setTimeout`
    that have not fired yet. The class in module DrawerControl performs the
    same steps in place and is proved equal to these functions. */
module Drawer {
  import opened Dom
  import opened FocusTrap

  /** The parts of the document the controller finds at start-up and never changes. */
  datatype Page = Page(
    hasMenuBtn: bool,            // #menu-toggle exists
    hasDrawer: bool,             // #mobile-drawer exists
    hasBackdrop: bool,           // #drawer-backdrop exists
    menuBtn: ElemId,
    drawerNodes: set<ElemId>,    // the drawer and its descendants (`drawer.contains`)
    focusables: seq<ElemId>,     // the drawer's focusable descendants, in document order
    links: seq<ElemId>,          // the drawer's `a` descendants
    htmlElements: set<ElemId>)   // nodes that are `instanceof HTMLElement`
  {
    /** The guard at the head of `openDrawer` and `closeDrawer`. */
    predicate Present()
    {
      hasMenuBtn && hasDrawer && hasBackdrop
    }

    /** What the document guarantees: focusables and links are descendants of
        the drawer, and the menu button is not. */
    predicate WellFormed()
    {
      && (forall x :: x in focusables ==> x in drawerNodes)
      && (forall x :: x in links ==> x in drawerNodes)
      && menuBtn !in drawerNodes
    }
  }

  /** A listener registration. The browser ignores a second registration of the
      same listener, so the registrations form a set. */
  datatype Listener =
    | MenuButtonToggle           // the menu button's click handler
    | DocKeydown                 // `onKeydown`, capturing, on the document
    | DocClick                   // `onDocClick`, capturing, on the document
    | BackdropOnce               // `closeDrawer` on the backdrop, `once`
    | LinkOnce(link: ElemId)     // `closeDrawer` on a drawer link, `once`

  /** A scheduled callback that has not fired yet. */
  datatype Deferred =
    | RevealFrame                // animation frame: add `drawer-open`, lock scrolling
    | FocusFirstTimer            // 200 ms after opening: focus the first focusable
    | HideTimer                  // 200 ms after closing: hide drawer and backdrop

  datatype DrawerState = DrawerState(
    ariaExpanded: string,            // menu button `aria-expanded`
    ariaLabel: string,               // menu button `aria-label`
    drawerHidden: bool,
    backdropHidden: bool,
    drawerOpenClass: bool,       // body has class `drawer-open`
    overflow: string,            // body `style.overflow`
    listeners: set<Listener>,
    lastFocused: Option<ElemId>,
    active: Option<ElemId>,      // `document.activeElement`
    pending: seq<Deferred>)

  /** Something that happens to the page: a user action delivered to a listener,
      a scheduled callback firing, or focus moving by the user's own doing. */
  datatype Event =
    | MenuClick
    | Key(key: string, shift: bool)
    | DocumentClick(target: ElemId)
    | BackdropClick
    | LinkClick(link: ElemId)
    | RunDeferred(index: nat)
    | UserFocus(target: ElemId)

  /** The one-shot listeners `openDrawer` puts on the drawer's links. */
  function LinkListeners(links: seq<ElemId>): (r: set<Listener>)
    ensures forall l :: l in links <==> LinkOnce(l) in r
    ensures DocKeydown !in r && DocClick !in r && BackdropOnce !in r && MenuButtonToggle !in r
  {
    set l | l in links :: LinkOnce(l)
  }

  /** The state the drawer's start-up block leaves (it runs only when the menu
      button and the drawer exist): drawer hidden, backdrop hidden if present,
      `aria-expanded="false"`, and the toggle handler on the menu button. */
  function Init(p: Page, label0: string, active0: Option<ElemId>): (s: DrawerState)
    requires p.hasMenuBtn && p.hasDrawer
    ensures s.ariaExpanded == "false" && s.ariaLabel == label0
    ensures s.drawerHidden && (p.hasBackdrop ==> s.backdropHidden)
    ensures !s.drawerOpenClass && s.overflow == ""
    ensures s.listeners == {MenuButtonToggle}
    ensures s.lastFocused == None && s.active == active0 && s.pending == []
    ensures Inv(s)
  {
    DrawerState("false", label0, true, true, false, "", {MenuButtonToggle}, None, active0, [])
  }

  /** `openDrawer`. Without all three elements it does nothing. Otherwise it
      remembers the focused element, marks the button expanded, un-hides drawer
      and backdrop and registers the listeners at once; the body class, the
      scroll lock and the focus move are only scheduled. */
  function Opened(p: Page, s: DrawerState): (r: DrawerState)
    ensures !p.Present() ==> r == s
    ensures p.Present() ==>
      && r.ariaExpanded == "true" && r.ariaLabel == "Close menu"
      && !r.drawerHidden && !r.backdropHidden
      && r.lastFocused == s.active
      && r.listeners == s.listeners + {DocKeydown, DocClick, BackdropOnce} + LinkListeners(p.links)
      && r.drawerOpenClass == s.drawerOpenClass && r.overflow == s.overflow
      && r.active == s.active
      && r.pending == s.pending + [RevealFrame, FocusFirstTimer]
  {
    if !p.Present() then s
    else s.(lastFocused := s.active,
            ariaExpanded := "true", ariaLabel := "Close menu",
            drawerHidden := false, backdropHidden := false,
            pending := s.pending + [RevealFrame, FocusFirstTimer],
            listeners := s.listeners + {DocKeydown, BackdropOnce, DocClick} + LinkListeners(p.links))
  }

  /** Where `closeDrawer` sends focus: back to `lastFocused` when that is an
      HTML element, otherwise focus stays where it is. */
  function RestoredFocus(p: Page, s: DrawerState): (r: Option<ElemId>)
    ensures s.lastFocused.Some? && s.lastFocused.value in p.htmlElements ==> r == s.lastFocused
    ensures !(s.lastFocused.Some? && s.lastFocused.value in p.htmlElements) ==> r == s.active
  {
    if s.lastFocused.Some? && s.lastFocused.value in p.htmlElements then s.lastFocused else s.active
  }

  /** `closeDrawer`. Without all three elements it does nothing. Otherwise the
      button, body class, scroll lock and focus change at once and the two
      document listeners are removed; the one-shot backdrop and link listeners
      stay registered, and hiding the drawer is only scheduled. */
  function Closed(p: Page, s: DrawerState): (r: DrawerState)
    ensures !p.Present() ==> r == s
    ensures p.Present() ==>
      && r.ariaExpanded == "false" && r.ariaLabel == "Open menu"
      && !r.drawerOpenClass && r.overflow == ""
      && r.listeners == s.listeners - {DocKeydown, DocClick}  // one-shot listeners stay
      && r.active == RestoredFocus(p, s)
      && r.drawerHidden == s.drawerHidden && r.backdropHidden == s.backdropHidden
      && r.lastFocused == s.lastFocused
      && r.pending == s.pending + [HideTimer]
  {
    if !p.Present() then s
    else s.(ariaExpanded := "false", ariaLabel := "Open menu",
            drawerOpenClass := false, overflow := "",
            pending := s.pending + [HideTimer],
            active := RestoredFocus(p, s),
            listeners := s.listeners - {DocKeydown, DocClick})
  }

  /** The pending list once its i-th callback has run. */
  function Without(pending: seq<Deferred>, i: nat): (r: seq<Deferred>)
    requires i < |pending|
    ensures |r| == |pending| - 1
    ensures forall k :: 0 <= k < i ==> r[k] == pending[k]
    ensures forall k :: i <= k < |r| ==> r[k] == pending[k + 1]
  {
    pending[..i] + pending[i + 1..]
  }

  /** The i-th pending callback fires against whatever the state is by then. */
  function Fired(p: Page, s: DrawerState, i: nat): (r: DrawerState)
    requires i < |s.pending|
    ensures r.pending == Without(s.pending, i)
    ensures r.ariaExpanded == s.ariaExpanded && r.ariaLabel == s.ariaLabel
    ensures r.listeners == s.listeners && r.lastFocused == s.lastFocused
    ensures s.pending[i] == RevealFrame ==>
      r.drawerOpenClass && r.overflow == "hidden" && r.active == s.active
      && r.drawerHidden == s.drawerHidden && r.backdropHidden == s.backdropHidden
    ensures s.pending[i] == FocusFirstTimer ==>
      (r.active == if |p.focusables| > 0 then Some(p.focusables[0]) else s.active)
      && r.drawerOpenClass == s.drawerOpenClass && r.overflow == s.overflow
      && r.drawerHidden == s.drawerHidden && r.backdropHidden == s.backdropHidden
    ensures s.pending[i] == HideTimer ==>
      r.drawerHidden && r.backdropHidden && r.active == s.active
      && r.drawerOpenClass == s.drawerOpenClass && r.overflow == s.overflow
  {
    var rest := Without(s.pending, i);
    match s.pending[i]
    case RevealFrame => s.(drawerOpenClass := true, overflow := "hidden", pending := rest)
    case FocusFirstTimer =>
      s.(active := if |p.focusables| > 0 then Some(p.focusables[0]) else s.active, pending := rest)
    case HideTimer => s.(drawerHidden := true, backdropHidden := true, pending := rest)
  }

  /** What `onKeydown` decides for one key event. */
  datatype KeyVerdict = CloseDrawer | MoveFocus(target: ElemId) | Ignore

  /** `onKeydown`'s decision: Escape closes; Tab applies the focus trap over the
      drawer's focusables; any other key is ignored. */
  function KeyResponse(key: string, shift: bool, focusables: seq<ElemId>, active: Option<ElemId>): (v: KeyVerdict)
    ensures v == CloseDrawer <==> key == "Escape"
    ensures key != "Escape" && key != "Tab" ==> v == Ignore
    ensures key == "Tab" ==>
      (v == Ignore <==> Trap(focusables, active, shift) == Stay)
    ensures v.MoveFocus? ==>
      key == "Tab" && Some(v.target) == Target(focusables, Trap(focusables, active, shift))
  {
    if key == "Escape" then CloseDrawer
    else if key != "Tab" then Ignore
    else
      match Trap(focusables, active, shift)
      case Stay => Ignore
      case WrapToFirst => MoveFocus(focusables[0])
      case WrapToLast => MoveFocus(focusables[|focusables| - 1])
  }

  /** Whether `onKeydown` calls `preventDefault()`. */
  predicate KeyPrevented(v: KeyVerdict)
  {
    v != Ignore
  }

  /** `onKeydown` applied to the state. */
  function AfterKeydown(p: Page, s: DrawerState, key: string, shift: bool): (r: DrawerState)
    ensures key == "Escape" ==> r == Closed(p, s)
    ensures key != "Escape" && key != "Tab" ==> r == s
    ensures key == "Tab" ==>
      r == s.(active := match Target(p.focusables, Trap(p.focusables, s.active, shift))
                        case None => s.active
                        case Some(t) => Some(t))
  {
    match KeyResponse(key, shift, p.focusables, s.active)
    case CloseDrawer => Closed(p, s)
    case MoveFocus(t) => s.(active := Some(t))
    case Ignore => s
  }

  /** `onDocClick`: a click outside the drawer that is not on the menu button closes it. */
  function AfterDocClick(p: Page, s: DrawerState, target: ElemId): (r: DrawerState)
    ensures p.hasDrawer && Outside(p.drawerNodes, p.menuBtn, target) ==> r == Closed(p, s)
    ensures !(p.hasDrawer && Outside(p.drawerNodes, p.menuBtn, target)) ==> r == s
  {
    if p.hasDrawer && Outside(p.drawerNodes, p.menuBtn, target) then Closed(p, s) else s
  }

  /** The menu button's click handler: it reads `aria-expanded`, not any phase. */
  function Toggled(p: Page, s: DrawerState): (r: DrawerState)
    ensures s.ariaExpanded == "true" ==> r == Closed(p, s)
    ensures s.ariaExpanded != "true" ==> r == Opened(p, s)
  {
    if s.ariaExpanded == "true" then Closed(p, s) else Opened(p, s)
  }

  /** The listener an event is delivered to; callbacks and the user's own
      focus moves go to none. */
  function ListenerFor(e: Event): Option<Listener>
  {
    match e
    case MenuClick => Some(MenuButtonToggle)
    case Key(_, _) => Some(DocKeydown)
    case DocumentClick(_) => Some(DocClick)
    case BackdropClick => Some(BackdropOnce)
    case LinkClick(link) => Some(LinkOnce(link))
    case RunDeferred(_) => None
    case UserFocus(_) => None
  }

  /** Delivers one event: a listener runs only while it is registered, and a
      one-shot listener is unregistered before it runs, so it runs at most
      once per registration. */
  function Step(p: Page, s: DrawerState, e: Event): (r: DrawerState)
    ensures ListenerFor(e).Some? && ListenerFor(e).value !in s.listeners ==> r == s
    ensures e.MenuClick? && MenuButtonToggle in s.listeners ==> r == Toggled(p, s)
    ensures e.Key? && DocKeydown in s.listeners ==> r == AfterKeydown(p, s, e.key, e.shift)
    ensures e.DocumentClick? && DocClick in s.listeners ==> r == AfterDocClick(p, s, e.target)
    ensures e.BackdropClick? && BackdropOnce in s.listeners ==>
      r == Closed(p, s.(listeners := s.listeners - {BackdropOnce}))
    ensures e.LinkClick? && LinkOnce(e.link) in s.listeners ==>
      r == Closed(p, s.(listeners := s.listeners - {LinkOnce(e.link)}))
    ensures e.RunDeferred? && e.index < |s.pending| ==> r == Fired(p, s, e.index)
    ensures e.BackdropClick? ==> BackdropOnce !in r.listeners
    ensures e.LinkClick? ==> LinkOnce(e.link) !in r.listeners
    ensures e.RunDeferred? && e.index >= |s.pending| ==> r == s
    ensures e.UserFocus? ==> r == s.(active := Some(e.target))
  {
    match e
    case MenuClick =>
      if MenuButtonToggle in s.listeners then Toggled(p, s) else s
    case Key(key, shift) =>
      if DocKeydown in s.listeners then AfterKeydown(p, s, key, shift) else s
    case DocumentClick(target) =>
      if DocClick in s.listeners then AfterDocClick(p, s, target) else s
    case BackdropClick =>
      if BackdropOnce in s.listeners then Closed(p, s.(listeners := s.listeners - {BackdropOnce})) else s
    case LinkClick(link) =>
      if LinkOnce(link) in s.listeners then Closed(p, s.(listeners := s.listeners - {LinkOnce(link)})) else s
    case RunDeferred(i) =>
      if i < |s.pending| then Fired(p, s, i) else s
    case UserFocus(target) =>
      s.(active := Some(target))
  }

  /** Delivers a sequence of events in order. */
  function Run(p: Page, s: DrawerState, events: seq<Event>): DrawerState
    decreases |events|
  {
    if events == [] then s else Run(p, Step(p, s, events[0]), events[1..])
  }

  /** The listener balance that holds in every reachable state: the toggle
      handler stays registered, the two document listeners are registered
      exactly while the button says `aria-expanded="true"` (so every close
      removes them), an expanded button is labelled "Close menu", and the body
      class and the scroll lock go on and off together. */
  ghost predicate Inv(s: DrawerState)
  {
    && MenuButtonToggle in s.listeners
    && (s.ariaExpanded == "true" || s.ariaExpanded == "false")
    && (DocKeydown in s.listeners <==> s.ariaExpanded == "true")
    && (DocClick in s.listeners <==> s.ariaExpanded == "true")
    && (s.ariaExpanded == "true" ==> s.ariaLabel == "Close menu")
    && (s.drawerOpenClass <==> s.overflow == "hidden")
  }

  lemma StepPreservesInv(p: Page, s: DrawerState, e: Event)
    requires Inv(s)
    ensures Inv(Step(p, s, e))
  {
  }

  /** Every sequence of events keeps the listener balance. */
  lemma {:induction false} RunPreservesInv(p: Page, s: DrawerState, events: seq<Event>)
    requires Inv(s)
    ensures Inv(Run(p, s, events))
    decreases |events|
  {
    if events != [] {
      StepPreservesInv(p, s, events[0]);
      RunPreservesInv(p, Step(p, s, events[0]), events[1..]);
    }
  }

  /** From start-up, whatever the user does and whenever the callbacks fire,
      the document listeners are registered exactly while the button is expanded. */
  lemma ReachableStatesBalanceListeners(p: Page, label0: string, active0: Option<ElemId>, events: seq<Event>)
    requires p.hasMenuBtn && p.hasDrawer
    ensures var s := Run(p, Init(p, label0, active0), events);
      && (DocKeydown in s.listeners <==> s.ariaExpanded == "true")
      && (DocClick in s.listeners <==> s.ariaExpanded == "true")
      && MenuButtonToggle in s.listeners
  {
    RunPreservesInv(p, Init(p, label0, active0), events);
  }

  /** Only opening the drawer overwrites `lastFocused`. */
  lemma OnlyOpeningCapturesFocus(p: Page, s: DrawerState, e: Event)
    requires Inv(s)
    ensures Step(p, s, e).lastFocused != s.lastFocused ==>
      e == MenuClick && s.ariaExpanded == "false" && p.Present()
  {
  }

  /** With focus on an HTML element X when the drawer opens, whatever
      happens before the next click on the menu button (keys, focus moves,
      callbacks, clicks on links or the backdrop), closing returns focus to X. */
  lemma FocusReturnsAfterCycle(p: Page, s: DrawerState, between: seq<Event>)
    requires p.Present()
    requires s.active.Some? && s.active.value in p.htmlElements
    requires forall k :: 0 <= k < |between| ==> between[k] != MenuClick
    ensures Closed(p, Run(p, Opened(p, s), between)).active == s.active
  {
    LastFocusedKept(p, Opened(p, s), between, s.active);
  }

  /** Events other than a menu-button click never change `lastFocused`. */
  lemma {:induction false} LastFocusedKept(p: Page, s: DrawerState, events: seq<Event>, x: Option<ElemId>)
    requires s.lastFocused == x
    requires forall k :: 0 <= k < |events| ==> events[k] != MenuClick
    ensures Run(p, s, events).lastFocused == x
    decreases |events|
  {
    if events != [] {
      var e := events[0];
      assert e != MenuClick;
      var t := Step(p, s, e);
      assert t.lastFocused == x by {
        match e
        case BackdropClick =>
        case LinkClick(_) =>
        case _ =>
      }
      forall k | 0 <= k < |events[1..]| ensures events[1..][k] != MenuClick {
        assert events[1..][k] == events[k + 1];
      }
      LastFocusedKept(p, t, events[1..], x);
    }
  }

  /** No phase guard, part 1: a close timer still pending when the drawer is
      re-opened hides drawer and backdrop while the button says expanded and
      the document listeners are live. The callbacks fire in the browser's
      order: open, its frame, close, open again, the new frame, then the
      200 ms timers in the order they were scheduled. */
  lemma StaleHideTimerHidesReopenedDrawer(p: Page, label0: string, active0: Option<ElemId>)
    requires p.Present()
    ensures var s := Run(p, Init(p, label0, active0), [MenuClick, RunDeferred(0), MenuClick, MenuClick, RunDeferred(2), RunDeferred(0), RunDeferred(0)]);
      && s.ariaExpanded == "true" && DocKeydown in s.listeners
      && s.drawerHidden && s.backdropHidden
  {
  }

  /** No phase guard, part 2: when the drawer is closed before its animation
      frame runs, the frame still adds `drawer-open` and locks scrolling on a
      closed drawer. */
  lemma StaleFrameLocksScrollAfterClose(p: Page, label0: string, active0: Option<ElemId>)
    requires p.Present()
    ensures var s := Run(p, Init(p, label0, active0), [MenuClick, MenuClick, RunDeferred(0)]);
      && s.ariaExpanded == "false" && DocKeydown !in s.listeners
      && s.drawerOpenClass && s.overflow == "hidden"
  {
  }

  /** No phase guard, part 3: the focus timer scheduled by opening still fires
      after a quick close and pulls focus into the closed drawer, undoing the
      restoration that closing did. The frame fires first, then the focus
      timer, which was scheduled before the close timer. */
  lemma StaleFocusTimerAfterClose(p: Page, label0: string, active0: Option<ElemId>)
    requires p.Present() && p.WellFormed() && |p.focusables| > 0
    ensures var s := Run(p, Init(p, label0, active0), [MenuClick, MenuClick, RunDeferred(0), RunDeferred(0)]);
      && s.ariaExpanded == "false" && s.active == Some(p.focusables[0])
      && s.active.value in p.drawerNodes
  {
  }

  /** The one-shot backdrop listener outlives a close by Escape, so a later
      backdrop click runs `closeDrawer` once more on the closed drawer and
      schedules a second hide timer. */
  lemma BackdropListenerOutlivesEscape(p: Page, label0: string, active0: Option<ElemId>)
    requires p.Present()
    ensures var s := Run(p, Init(p, label0, active0), [MenuClick, Key("Escape", false)]);
      && s.ariaExpanded == "false" && BackdropOnce in s.listeners
      && |Step(p, s, BackdropClick).pending| == |s.pending| + 1
  {
  }
}
