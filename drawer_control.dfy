/** The drawer controller as the script runs it: module-level variables and
    DOM attributes updated in place by `openDrawer`, `closeDrawer`, the
    listeners and the scheduled callbacks. Each method is proved to leave
    exactly the state that the matching function of module Drawer describes,
    so the lemmas proved there hold of the object as well. */
module DrawerControl {
  import opened Dom
  import opened FocusTrap
  import opened Drawer

  class DrawerController {
    const page: Page
    var ariaExpanded: string
    var ariaLabel: string
    var drawerHidden: bool
    var backdropHidden: bool
    var drawerOpenClass: bool
    var overflow: string
    var listeners: set<Listener>
    var lastFocused: Option<ElemId>
    var active: Option<ElemId>
    var pending: seq<Deferred>

    /** The object's fields as one value. */
    function State(): DrawerState
      reads this
    {
      DrawerState(ariaExpanded, ariaLabel, drawerHidden, backdropHidden, drawerOpenClass,
                  overflow, listeners, lastFocused, active, pending)
    }

    /** The start-up block for the drawer (taken when menu button and drawer exist). */
    constructor (p: Page, label0: string, active0: Option<ElemId>)
      requires p.hasMenuBtn && p.hasDrawer
      ensures page == p && State() == Init(p, label0, active0)
    {
      page := p;
      ariaLabel := label0;
      active := active0;
      lastFocused := None;
      drawerOpenClass := false;
      overflow := "";
      pending := [];
      backdropHidden := true;
      drawerHidden := true;
      ariaExpanded := "false";
      listeners := {MenuButtonToggle};
    }

    method OpenDrawer()
      modifies this
      ensures State() == Opened(page, old(State()))
    {
      if !page.Present() {
        return;
      }
      lastFocused := active;
      ariaExpanded := "true";
      ariaLabel := "Close menu";
      drawerHidden := false;
      backdropHidden := false;
      pending := pending + [RevealFrame];
      pending := pending + [FocusFirstTimer];
      ghost var s0 := old(State());
      listeners := listeners + {DocKeydown};
      listeners := listeners + {BackdropOnce};
      listeners := listeners + {DocClick};
      assert listeners == s0.listeners + {DocKeydown, BackdropOnce, DocClick};
      AddLinkListeners();
      assert listeners == Opened(page, s0).listeners;
    }

    /** The `forEach` at the end of `openDrawer`: a one-shot `closeDrawer`
        listener on every link of the drawer. */
    method AddLinkListeners()
      modifies this`listeners
      ensures listeners == old(listeners) + LinkListeners(page.links)
    {
      var links := page.links;
      var k := 0;
      while k < |links|
        invariant 0 <= k <= |links|
        invariant listeners == old(listeners) + LinkListeners(links[..k])
      {
        assert links[..k + 1] == links[..k] + [links[k]];
        listeners := listeners + {LinkOnce(links[k])};
        k := k + 1;
      }
      assert links[..k] == links;
    }

    method CloseDrawer()
      modifies this
      ensures State() == Closed(page, old(State()))
    {
      if !page.Present() {
        return;
      }
      ariaExpanded := "false";
      ariaLabel := "Open menu";
      drawerOpenClass := false;
      overflow := "";
      pending := pending + [HideTimer];
      if lastFocused.Some? && lastFocused.value in page.htmlElements {
        active := lastFocused;
      }
      listeners := listeners - {DocKeydown};
      listeners := listeners - {DocClick};
    }

    /** `onKeydown`; `prevented` reports whether it called `preventDefault()`. */
    method OnKeydown(key: string, shift: bool) returns (prevented: bool)
      modifies this
      ensures prevented <==> key == "Escape" || (key == "Tab" && Trap(page.focusables, old(active), shift) != Stay)
      ensures prevented == KeyPrevented(KeyResponse(key, shift, page.focusables, old(active)))
      ensures State() == AfterKeydown(page, old(State()), key, shift)
    {
      if key == "Escape" {
        prevented := true;
        CloseDrawer();
        return;
      }
      prevented := false;
      if key != "Tab" {
        return;
      }
      var focusables := page.focusables;
      if |focusables| == 0 {
        return;
      }
      var first := focusables[0];
      var last := focusables[|focusables| - 1];
      if shift && active == Some(first) {
        prevented := true;
        active := Some(last);
      } else if !shift && active == Some(last) {
        prevented := true;
        active := Some(first);
      }
    }

    method OnDocClick(target: ElemId)
      modifies this
      ensures State() == AfterDocClick(page, old(State()), target)
    {
      if page.hasDrawer && target !in page.drawerNodes && target != page.menuBtn {
        CloseDrawer();
      }
    }

    /** The menu button's click handler. */
    method OnMenuButtonClick()
      modifies this
      ensures State() == Toggled(page, old(State()))
    {
      var open := ariaExpanded == "true";
      if open {
        CloseDrawer();
      } else {
        OpenDrawer();
      }
    }

    /** The i-th scheduled callback fires. */
    method RunCallback(i: nat)
      requires i < |pending|
      modifies this
      ensures State() == Fired(page, old(State()), i)
    {
      var callback := pending[i];
      pending := pending[..i] + pending[i + 1..];
      match callback
      case RevealFrame =>
        drawerOpenClass := true;
        overflow := "hidden";
      case FocusFirstTimer =>
        if |page.focusables| > 0 {
          active := Some(page.focusables[0]);
        }
      case HideTimer =>
        drawerHidden := true;
        backdropHidden := true;
    }

    /** The browser delivers one event to whichever listener is registered for it. */
    method Dispatch(e: Event)
      modifies this
      ensures State() == Step(page, old(State()), e)
    {
      match e
      case MenuClick =>
        if MenuButtonToggle in listeners {
          OnMenuButtonClick();
        }
      case Key(key, shift) =>
        if DocKeydown in listeners {
          var _ := OnKeydown(key, shift);
        }
      case DocumentClick(target) =>
        if DocClick in listeners {
          OnDocClick(target);
        }
      case BackdropClick =>
        if BackdropOnce in listeners {
          listeners := listeners - {BackdropOnce};
          CloseDrawer();
        }
      case LinkClick(link) =>
        if LinkOnce(link) in listeners {
          listeners := listeners - {LinkOnce(link)};
          CloseDrawer();
        }
      case RunDeferred(i) =>
        if i < |pending| {
          RunCallback(i);
        }
      case UserFocus(target) =>
        active := Some(target);
    }
  }

  /** The scenario "menu button clicked while closed" run on the object: at once
      the drawer and backdrop are visible and the button is expanded; after the
      animation frame the body class and the scroll lock are on; after the
      timer the first focusable has focus. */
  method OpenScenario(p: Page, label0: string, active0: Option<ElemId>)
    returns (immediate: DrawerState, afterFrame: DrawerState, afterTimer: DrawerState)
    requires p.Present() && |p.focusables| > 0
    ensures !immediate.drawerHidden && !immediate.backdropHidden && immediate.ariaExpanded == "true"
    ensures !immediate.drawerOpenClass && immediate.active == active0
    ensures afterFrame.drawerOpenClass && afterFrame.overflow == "hidden"
    ensures afterTimer.active == Some(p.focusables[0])
  {
    var c := new DrawerController(p, label0, active0);
    c.Dispatch(MenuClick);
    immediate := c.State();
    c.Dispatch(RunDeferred(0));
    afterFrame := c.State();
    c.Dispatch(RunDeferred(0));
    afterTimer := c.State();
  }

  /** The scenario "backdrop clicked while open": the drawer opens and settles
      (its frame and focus timer fire), then the backdrop is clicked. The
      button reads `aria-expanded="false"` at once and focus is back on the
      element that had it before opening; once the close timer has fired,
      drawer and backdrop are hidden. */
  method BackdropScenario(p: Page, label0: string, x: ElemId)
    returns (immediate: DrawerState, settled: DrawerState)
    requires p.Present() && x in p.htmlElements
    ensures immediate.ariaExpanded == "false" && immediate.active == Some(x)
    ensures settled.drawerHidden && settled.backdropHidden && settled.active == Some(x)
  {
    var c := new DrawerController(p, label0, Some(x));
    c.Dispatch(MenuClick);
    c.Dispatch(RunDeferred(0));
    c.Dispatch(RunDeferred(0));
    c.Dispatch(BackdropClick);
    immediate := c.State();
    c.Dispatch(RunDeferred(0));
    settled := c.State();
  }
}
