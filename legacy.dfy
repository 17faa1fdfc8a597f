/** The fallback for pages that still carry the older inline menu
    (`#nav-toggle` and `#site-nav`): one boolean flag, the same Escape and
    outside-click contract as the drawer, no animation, no focus trap and no
    scroll lock. Closing always gives focus to the menu button. */
module Legacy {
  import opened Dom

  datatype LegacyListener =
    | ButtonToggle               // click handler on the menu button
    | EscapeKeydown              // `legacyKeydown`, capturing, on the document
    | OutsideClick               // `legacyOutside`, capturing, on the document

  datatype LegacyEvent = ButtonClick | Key(key: string) | DocumentClick(target: ElemId)

  class LegacyMenu {
    const button: ElemId
    const navNodes: set<ElemId>  // the nav and its descendants (`legacyNav.contains`)
    var ariaExpanded: string
    var navDisplay: string       // the nav's inline `style.display`
    var isOpen: bool             // `legacyOpen`
    var listeners: set<LegacyListener>
    var active: Option<ElemId>

    /** The document listeners are registered exactly while the flag is set,
        and an open menu is shown and announced as expanded. */
    ghost predicate Valid()
      reads this
    {
      && ButtonToggle in listeners
      && (EscapeKeydown in listeners <==> isOpen)
      && (OutsideClick in listeners <==> isOpen)
      && (isOpen ==> ariaExpanded == "true")
      && navDisplay == (if isOpen then "block" else "")
    }

    /** The fallback branch of the start-up block: the flag starts false and
        only the button's click handler is registered; `aria-expanded` keeps
        whatever the markup says. */
    constructor (btn: ElemId, nav: set<ElemId>, expanded0: string, active0: Option<ElemId>)
      ensures Valid()
      ensures button == btn && navNodes == nav
      ensures !isOpen && listeners == {ButtonToggle}
      ensures ariaExpanded == expanded0 && navDisplay == "" && active == active0
    {
      button := btn;
      navNodes := nav;
      ariaExpanded := expanded0;
      navDisplay := "";
      isOpen := false;
      listeners := {ButtonToggle};
      active := active0;
    }

    /** `legacyOpenMenu`. */
    method OpenMenu()
      requires Valid()
      modifies this
      ensures Valid()
      ensures isOpen && ariaExpanded == "true" && navDisplay == "block"
      ensures listeners == old(listeners) + {EscapeKeydown, OutsideClick}
      ensures active == old(active)
    {
      ariaExpanded := "true";
      navDisplay := "block";
      isOpen := true;
      listeners := listeners + {EscapeKeydown};
      listeners := listeners + {OutsideClick};
    }

    /** `legacyCloseMenu`: focus goes to the button whatever had it before. */
    method CloseMenu()
      requires Valid()
      modifies this
      ensures Valid()
      ensures !isOpen && ariaExpanded == "false" && navDisplay == ""
      ensures listeners == old(listeners) - {EscapeKeydown, OutsideClick}
      ensures active == Some(button)
    {
      ariaExpanded := "false";
      navDisplay := "";
      isOpen := false;
      listeners := listeners - {EscapeKeydown};
      listeners := listeners - {OutsideClick};
      active := Some(button);
    }

    /** The browser delivers an event to the listener registered for it;
        `prevented` reports whether `preventDefault()` was called. Escape
        closes an open menu, a click outside the nav that is not on the button
        closes it, the button toggles it; nothing else has any effect. */
    method Dispatch(e: LegacyEvent) returns (prevented: bool)
      requires Valid()
      modifies this
      ensures Valid()
      ensures prevented <==> e.Key? && e.key == "Escape" && old(isOpen)
      ensures isOpen == match e
        case ButtonClick => !old(isOpen)
        case Key(key) => old(isOpen) && key != "Escape"
        case DocumentClick(target) => old(isOpen) && !Outside(navNodes, button, target)
      ensures old(isOpen) && !isOpen ==>
        ariaExpanded == "false" && navDisplay == "" && active == Some(button)
      ensures !old(isOpen) && isOpen ==>
        ariaExpanded == "true" && navDisplay == "block" && active == old(active)
      ensures isOpen == old(isOpen) ==> unchanged(this)
    {
      prevented := false;
      match e
      case ButtonClick =>
        if ButtonToggle in listeners {
          if isOpen {
            CloseMenu();
          } else {
            OpenMenu();
          }
        }
      case Key(key) =>
        if EscapeKeydown in listeners {
          if key == "Escape" && isOpen {
            prevented := true;
            CloseMenu();
          }
        }
      case DocumentClick(target) =>
        if OutsideClick in listeners {
          if target !in navNodes && target != button {
            CloseMenu();
          }
        }
    }
  }
}
