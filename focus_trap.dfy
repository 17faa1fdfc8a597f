/** The Tab / Shift+Tab branch of the drawer's keydown listener: a pure decision
    over the drawer's focusable elements (in document order), the element that
    currently has focus and whether Shift is held. */
module FocusTrap {
  import opened Dom

  /** What the listener does: nothing (the browser's own Tab handling runs),
      or `preventDefault()` and focus the first or the last focusable. */
  datatype TrapAction = Stay | WrapToFirst | WrapToLast

  /** No element occurs twice (a `querySelectorAll` result never repeats a node). */
  predicate Distinct(focusables: seq<ElemId>)
  {
    forall i, j :: 0 <= i < j < |focusables| ==> focusables[i] != focusables[j]
  }

  /** The trap rule: Shift+Tab on the first focusable wraps to the last, Tab on
      the last wraps to the first, everything else is left alone. */
  function Trap(focusables: seq<ElemId>, active: Option<ElemId>, shift: bool): (a: TrapAction)
    ensures a == WrapToLast <==>
      |focusables| > 0 && shift && active == Some(focusables[0])
    ensures a == WrapToFirst <==>
      |focusables| > 0 && !shift && active == Some(focusables[|focusables| - 1])
    ensures |focusables| == 0 ==> a == Stay
  {
    if |focusables| == 0 then Stay
    else if shift && active == Some(focusables[0]) then WrapToLast
    else if !shift && active == Some(focusables[|focusables| - 1]) then WrapToFirst
    else Stay
  }

  /** Whether the action calls `preventDefault()` on the key event. */
  predicate PreventsDefault(a: TrapAction)
  {
    a != Stay
  }

  /** The element the action focuses, if any. */
  function Target(focusables: seq<ElemId>, a: TrapAction): (r: Option<ElemId>)
    requires a != Stay ==> |focusables| > 0
    ensures r.Some? <==> PreventsDefault(a)
    ensures r.Some? ==> r.value in focusables
  {
    match a
    case Stay => None
    case WrapToFirst => Some(focusables[0])
    case WrapToLast => Some(focusables[|focusables| - 1])
  }

  /** With focus on the i-th of distinct focusables, the trap intervenes exactly
      at the edge that the key would cross (Shift+Tab at the first, Tab at the
      last) and sends focus to the opposite end; everywhere else the neighbour
      the browser moves to next still lies inside the sequence. Together this is
      a cyclic order: for [A, B, C], Tab with focus on C gives A, and
      Shift+Tab with focus on A gives C. */
  lemma TrapIsCyclic(focusables: seq<ElemId>, i: nat, shift: bool)
    requires Distinct(focusables)
    requires i < |focusables|
    ensures var a := Trap(focusables, Some(focusables[i]), shift);
      && (a == Stay <==> (shift && 0 < i) || (!shift && i + 1 < |focusables|))
      && (a == WrapToLast ==> shift && i == 0)
      && (a == WrapToFirst ==> !shift && i == |focusables| - 1)
      && (a != Stay ==>
            Target(focusables, a) == Some(focusables[if shift then |focusables| - 1 else 0]))
  {
  }
}
