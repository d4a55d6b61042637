/** The mobile menu: the burger's `aria-expanded` attribute and the menu's
    `hidden` flag. */
module Menu {

  /** Widths above this close the menu on resize. */
  const DesktopWidth := 760

  class MobileMenu {
    /** The burger's aria-expanded attribute reads "true". */
    var expanded: bool
    /** The mobile menu's `hidden` property. */
    var menuHidden: bool

    /** The two fields agree: the menu is shown exactly when the burger says expanded. */
    predicate Consistent()
      reads this
    {
      menuHidden == !expanded
    }

    predicate Closed()
      reads this
    {
      !expanded && menuHidden
    }

    /** The state the markup starts in. */
    constructor (markupExpanded: bool, markupHidden: bool)
      ensures expanded == markupExpanded && menuHidden == markupHidden
    {
      expanded, menuHidden := markupExpanded, markupHidden;
    }

    /** Burger click: flip aria-expanded and hide the menu exactly when it
        was expanded. Whatever the state before, the two fields agree after. */
    method OnBurgerClick()
      modifies this
      ensures expanded == !old(expanded)
      ensures menuHidden == old(expanded)
      ensures Consistent()
    {
      var wasExpanded := expanded;
      expanded := !wasExpanded;
      menuHidden := wasExpanded;
    }

    /** Click on a link of the mobile menu: close it. */
    method OnLinkClick()
      modifies this
      ensures Closed() && Consistent()
    {
      expanded := false;
      menuHidden := true;
    }

    /** Window resize to `width` pixels: close the menu above DesktopWidth,
        otherwise leave it as it is. */
    method OnResize(width: int)
      modifies this
      ensures DesktopWidth < width ==> Closed()
      ensures width <= DesktopWidth ==> expanded == old(expanded) && menuHidden == old(menuHidden)
      ensures old(Consistent()) ==> Consistent()
    {
      if width > DesktopWidth {
        expanded := false;
        menuHidden := true;
      }
    }
  }
}
