/** The small slice of the page's document that the menu and theme scripts touch.
    Elements are identified by number; what the browser would answer by querying
    the live document (containment, "is an HTML element") is supplied as sets. */
module Dom {

  /** The identity of a node of the document. */
  type ElemId = nat

  /** A possibly-null reference, such as `document.activeElement` or a stored value. */
  datatype Option<+T> = None | Some(value: T)

  /** `localStorage.getItem(key)`: the stored string, or null. */
  function Lookup(storage: map<string, string>, key: string): (r: Option<string>)
    ensures r.Some? <==> key in storage
    ensures r.Some? ==> r.value == storage[key]
  {
    if key in storage then Some(storage[key]) else None
  }

  /** `String(b)` for a boolean, as written into an ARIA attribute. */
  function BoolAttr(b: bool): (r: string)
    ensures r == "true" <==> b
    ensures r == "false" <==> !b
  {
    if b then "true" else "false"
  }

  /** A click target that closes a menu: not inside the menu's container
      (`container.contains(target)` is false) and not the menu's own button. */
  predicate Outside(container: set<ElemId>, button: ElemId, target: ElemId): (r: bool)
    ensures target in container ==> !r
    ensures target == button ==> !r
    ensures target !in container && target != button ==> r
  {
    target !in container && target != button
  }
}
