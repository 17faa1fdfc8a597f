# Drawer, legacy menu and theme controllers of a portfolio site's `main.js`

This project models the decision logic of the site's browser script `main.js`,
with the document abstracted into plain state:

- **The navigation drawer** (`#menu-toggle`, `#mobile-drawer`, `#drawer-backdrop`).
  Module `Drawer` describes it as a pure state machine. The state holds the menu
  button's `aria-expanded` / `aria-label`, the `hidden` flags of drawer and
  backdrop, the body's `drawer-open` class and `overflow` lock, and the registered
  listeners. It also holds `lastFocused`, the active element, and the callbacks
  scheduled with `requestAnimationFrame` / `setTimeout` that have not fired yet.
  Module `DrawerControl` holds the class `DrawerController`. Its fields are
  updated in place by `OpenDrawer`, `CloseDrawer`, the listeners and
  `RunCallback`. Each method is proved to leave exactly the state the matching
  `Drawer` function gives.
- **The focus trap** (module `FocusTrap`): the Tab / Shift+Tab rule of the
  drawer's keydown listener.
- **The legacy menu** (module `Legacy`, `#nav-toggle` / `#site-nav`): a
  boolean-flag menu with the same Escape and outside-click contract.
- **The theme switch** (module `Theme`): the initial light/dark choice,
  `applyTheme` and the theme button's click handler.
- **Start-up selection** (module `Startup`): the primary drawer whenever its
  button and drawer exist, the legacy menu only otherwise.

The drawer code has no phase guard, and the model keeps it that way.
Scheduled callbacks are never cancelled. Any pending callback may fire next, so
every browser ordering of animation frames and timers is covered. Four lemmas
show what the missing guard allows:
- a close timer hides a re-opened drawer while the button says expanded;
- an animation frame locks scrolling after a quick close;
- the focus timer pulls focus into a drawer that is already closed;
- the one-shot backdrop listener survives a close by Escape, so a later
  backdrop click runs `closeDrawer` again.

The code has no Opening/Open/Closing phase, so opening or closing twice is not a no-op.
Focus is restored synchronously in `closeDrawer`, not after the 200 ms delay.
`closeDrawer` does not remove the one-shot backdrop and link listeners.

## Model

| member | source | states |
|---|---|---|
| Dom.Lookup | main.js:29 | `getItem` yields the stored value exactly when the key is stored |
| Dom.Outside | main.js:165 | a click closes a menu exactly when its target is neither inside the menu's container nor the menu button; the drawer and the legacy menu share this rule |
| Dom.BoolAttr | main.js:43 | `String(b)` is "true" exactly when b holds, "false" exactly when it does not |
| FocusTrap.Trap | main.js:150-160 | wraps to the last iff Shift is held, focusables exist and focus is on the first; wraps to the first iff Shift is not held and focus is on the last; an empty list never wraps |
| FocusTrap.Target | main.js:153-159 | a wrap focuses an element of the focusable list and calls `preventDefault`; staying focuses nothing |
| FocusTrap.TrapIsCyclic | main.js:150-160 | over distinct focusables, the trap intervenes exactly at the edge the key would cross and sends focus to the opposite end, so Tab/Shift+Tab cycle through the drawer |
| Drawer.LinkListeners | main.js:114-116 | one one-shot listener per drawer link, and no other kind of listener |
| Drawer.Init | main.js:171-175 | start-up hides the drawer (and the backdrop if present), sets `aria-expanded="false"`, registers only the toggle handler, and satisfies the listener invariant |
| Drawer.Opened | main.js:88-117 | with any element missing nothing changes; otherwise at once: expanded, "Close menu", drawer and backdrop shown, `lastFocused` = previous active element, keydown, click, backdrop and link listeners added; body class, scroll lock and focus unchanged; exactly an animation frame and a focus timer scheduled |
| Drawer.RestoredFocus | main.js:133-135 | focus returns to `lastFocused` exactly when it is an HTML element, else it stays put |
| Drawer.Closed | main.js:119-139 | with any element missing nothing changes; otherwise at once: not expanded, "Open menu", body class and scroll lock off, focus restored, only the two document listeners removed (one-shot ones kept); hidden flags unchanged and exactly one hide timer scheduled |
| Drawer.Fired | main.js:98-131 | a firing callback leaves the button and listeners alone; the frame adds the class and the lock, the focus timer focuses the first focusable only if one exists, the hide timer hides drawer and backdrop, each whatever the state is by then |
| Drawer.KeyResponse | main.js:141-160 | Escape closes (and is prevented) exactly when the key is Escape; keys other than Escape and Tab are ignored; Tab moves focus exactly when the trap wraps, to the trap's target |
| Drawer.AfterKeydown | main.js:141-161 | Escape gives the closed state; other non-Tab keys change nothing; Tab changes only the active element, as the trap decides |
| Drawer.AfterDocClick | main.js:163-168 | a click closes exactly when its target is neither inside the drawer nor the menu button; otherwise nothing changes |
| Drawer.Toggled | main.js:175-178 | the button click closes iff `aria-expanded` reads "true", otherwise opens |
| Drawer.Step | main.js:109-116 | an event reaches a listener only while it is registered, otherwise nothing changes; a registered listener runs its handler (menu click toggles, keydown and document click run their handlers, a backdrop or link click closes after unregistering itself, a pending callback fires); a one-shot backdrop or link listener is gone after its click; a callback index with nothing pending changes nothing; a user focus move changes only the active element |
| Drawer.StepPreservesInv | main.js:109-138 | every delivered event keeps the listener invariant: document listeners registered exactly while expanded, toggle handler kept, expanded implies "Close menu", body class on iff scroll locked |
| Drawer.RunPreservesInv | main.js:109-138 | the invariant holds after any sequence of events |
| Drawer.ReachableStatesBalanceListeners | main.js:171-178 | from start-up, whatever happens, the document listeners are registered exactly while the button is expanded, so every close unregisters them |
| Drawer.OnlyOpeningCapturesFocus | main.js:86-90 | `lastFocused` changes only when a menu click opens a closed drawer |
| Drawer.LastFocusedKept | main.js:86-90 | no sequence of events without a menu click changes `lastFocused` |
| Drawer.FocusReturnsAfterCycle | main.js:90-135 | focus on an HTML element X at opening returns to X on closing, whatever happens in between short of another menu click |
| Drawer.StaleHideTimerHidesReopenedDrawer | main.js:128-131 | open, its frame, close, open, the new frame, then the timers in scheduling order: drawer and backdrop hidden while expanded with listeners live |
| Drawer.StaleFrameLocksScrollAfterClose | main.js:98-101 | open, close, then the animation frame: body class and scroll lock on while the drawer is closed |
| Drawer.StaleFocusTimerAfterClose | main.js:104-107 | open, close, the frame, then the focus timer: focus ends on the first focusable, inside the closed drawer |
| Drawer.BackdropListenerOutlivesEscape | main.js:110 | after open and Escape the backdrop listener is still registered, and a backdrop click schedules another hide timer |
| DrawerControl.DrawerController.constructor | main.js:171-175 | the object starts in the state `Drawer.Init` describes |
| DrawerControl.DrawerController.OpenDrawer | main.js:88-117 | the object's new state is `Drawer.Opened` of its old state |
| DrawerControl.DrawerController.AddLinkListeners | main.js:114-116 | the loop adds exactly the one-shot listeners of the drawer's links and changes nothing else |
| DrawerControl.DrawerController.CloseDrawer | main.js:119-139 | the object's new state is `Drawer.Closed` of its old state |
| DrawerControl.DrawerController.OnKeydown | main.js:141-161 | `preventDefault` is called iff the key is Escape or the trap wraps, i.e. iff the key verdict is not Ignore; the new state is `Drawer.AfterKeydown` |
| DrawerControl.DrawerController.OnDocClick | main.js:163-168 | the new state is `Drawer.AfterDocClick` |
| DrawerControl.DrawerController.OnMenuButtonClick | main.js:175-178 | the new state is `Drawer.Toggled` |
| DrawerControl.DrawerController.RunCallback | main.js:98-131 | the new state is `Drawer.Fired` for the chosen pending callback |
| DrawerControl.DrawerController.Dispatch | main.js:109-116 | delivering an event runs the registered listener (one-shot ones are unregistered first) and gives `Drawer.Step` |
| DrawerControl.OpenScenario | main.js:88-107 | menu click from start-up: drawer and backdrop visible and expanded at once, class only after the frame, first focusable focused after the timer |
| DrawerControl.BackdropScenario | main.js:110-135 | backdrop click on a settled open drawer: not expanded at once with focus back on the earlier element; hidden after the close timer |
| Legacy.LegacyMenu.constructor | main.js:182 | the flag starts false with only the button handler registered |
| Legacy.LegacyMenu.OpenMenu | main.js:183-189 | expanded, nav shown, flag set, both document listeners added |
| Legacy.LegacyMenu.CloseMenu | main.js:190-197 | not expanded, nav display reset, flag cleared, both document listeners removed, focus on the button unconditionally |
| Legacy.LegacyMenu.Dispatch | main.js:198-210 | Escape closes an open menu and is prevented; an outside click closes; the button toggles; every other event changes nothing; a close leaves `aria-expanded="false"`, the nav undisplayed and focus on the button; an open leaves `aria-expanded="true"`, the nav shown and focus unchanged; listeners stay registered exactly while open |
| Theme.Name | main.js:37 | `data-theme` is "light" exactly for light, "dark" exactly for dark |
| Theme.ModeOfAttr | main.js:63 | the current mode is dark exactly when `data-theme` reads "dark" |
| Theme.InitialTheme | main.js:28-34 | a stored "light"/"dark" wins; otherwise dark iff `matchMedia` exists and prefers dark |
| Theme.Other | main.js:64 | a click always switches to the other mode |
| Theme.Pressed | main.js:42-43 | `aria-pressed` is "true" exactly in dark mode |
| Theme.ButtonLabel | main.js:44-46 | the label names the theme a click switches to, never the current one |
| Theme.NameRoundTrips | main.js:28-38 | a mode written by `applyTheme` reads back as itself from `data-theme` and, once stored, from `getInitialTheme` on reload |
| Theme.ThemeController.constructor | main.js:50-52 | the page starts in `getInitialTheme`'s mode with consistent button state and storage untouched |
| Theme.ThemeController.ApplyTheme | main.js:36-48 | `data-theme` set to the mode; stored only when persisting; button pressed/label/title consistent with the mode |
| Theme.ThemeController.OnThemeButtonClick | main.js:62-66 | the mode flips, the new mode is stored, and a reload starts in it whatever the system preference |
| Startup.SelectVariant | main.js:171-179 | primary iff menu button and drawer exist (backdrop irrelevant); legacy iff not and both legacy elements exist; so never both |

## Left out

- The footer year (main.js:15-16) reads the wall clock and holds no logic.
- The skip-link focus (main.js:216-221) depends on the page's URL hash and does a one-off focus.
- The system colour-scheme change listener (main.js:55-58) is not modelled. `localStorage` is a map, and `matchMedia` is two booleans.
- Real timing is not modelled. The 200 ms delay and frame scheduling become a list of pending callbacks, and any one of them may fire next.
- Because any pending callback may fire next, the model also admits orders the browser never produces, such as two equal-delay timers firing out of scheduling order. The scenarios and hazard lemmas use only browser orders.
- The document is static. Focusables, links, containment and "is an HTML element" are fixed at start-up. The source queries them live at each call.
- Event propagation is not modelled. A real click on the backdrop reaches the document capture listener and then the backdrop listener. The model delivers these as two separate events.
- Events are delivered to registered listeners even on hidden elements, as a programmatic click would be.
- `focus()` always takes effect in the model, even on an element the browser would refuse to focus.
- The browser's default Tab movement is not part of the state machine. The user moving focus is the separate event `UserFocus`.
- The body's inline `overflow` is assumed empty at start-up, and the body starts without the `drawer-open` class.
- The legacy nav's inline `display` is assumed empty at start-up.
- CSS, animation and the legacy nav's styling beyond `display` are not modelled.
