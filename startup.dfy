/** Which menu controller the script sets up, decided once by which elements
    the page has. */
module Startup {

  datatype MenuVariant = PrimaryDrawer | LegacyMenu | NoMenu

  /** The primary drawer whenever the menu button and the drawer exist (a
      missing backdrop does not matter here); the legacy menu only otherwise,
      when its button and nav both exist. */
  function SelectVariant(hasMenuBtn: bool, hasDrawer: bool, hasLegacyBtn: bool, hasLegacyNav: bool): (v: MenuVariant)
    ensures v == PrimaryDrawer <==> hasMenuBtn && hasDrawer
    ensures v == LegacyMenu <==> !(hasMenuBtn && hasDrawer) && hasLegacyBtn && hasLegacyNav
    ensures v == NoMenu <==> !(hasMenuBtn && hasDrawer) && !(hasLegacyBtn && hasLegacyNav)
  {
    if hasMenuBtn && hasDrawer then PrimaryDrawer
    else if hasLegacyBtn && hasLegacyNav then LegacyMenu
    else NoMenu
  }
}
