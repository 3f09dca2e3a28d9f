/**
 * The mobile navigation (script.js lines 106-120 and 458-463): the toggle button
 * flips its `aria-expanded` attribute and the menu's `open` class, a click on a
 * menu link closes the menu, and Escape closes it when it is open. The toggle
 * and link listeners are attached only when the toggle button exists; the
 * Escape listener always is.
 */
module Navigation {
  import opened Wrappers

  const Escape := "Escape"

  /** The attribute value the toggle writes: `"false"` when it read exactly `"true"`, and `"true"` otherwise (a missing attribute included). */
  function Flipped(expanded: Option<string>): (r: string)
    ensures r == "true" <==> expanded != Some("true")
    ensures r == "true" || r == "false"
  {
    if expanded == Some("true") then "false" else "true"
  }

  class NavMenu {
    /** Whether `.nav-toggle` exists. `#primaryNav` is taken to exist. */
    const hasToggle: bool
    /** The toggle's `aria-expanded` attribute; `None` when it is absent. */
    var ariaExpanded: Option<string>
    /** Whether `#primaryNav` has the `open` class. */
    var isOpen: bool

    /** The toggle announces the menu as expanded exactly when the menu is open. */
    predicate Synced()
      reads this
    {
      ariaExpanded == Some("true") <==> isOpen
    }

    /** The page as loaded, with the markup's attribute and class. */
    constructor (hasToggle: bool, ariaExpanded0: Option<string>, open0: bool)
      ensures this.hasToggle == hasToggle && ariaExpanded == ariaExpanded0 && isOpen == open0
    {
      this.hasToggle := hasToggle;
      ariaExpanded := ariaExpanded0;
      isOpen := open0;
    }

    /**
     * A click on the toggle: write the flipped attribute and toggle the class. The
     * two are flipped independently, so the toggle keeps them in step exactly when
     * they were in step before.
     */
    method ToggleClicked()
      modifies this
      ensures Synced() <==> old(Synced())
      ensures hasToggle ==> ariaExpanded == Some(Flipped(old(ariaExpanded))) && isOpen == !old(isOpen)
      ensures !hasToggle ==> ariaExpanded == old(ariaExpanded) && isOpen == old(isOpen)
    {
      if hasToggle {
        ariaExpanded := Some(Flipped(ariaExpanded));
        isOpen := !isOpen;
      }
    }

    /** A click on a menu link closes the menu, whatever its state. */
    method LinkClicked()
      modifies this
      ensures hasToggle ==> ariaExpanded == Some("false") && !isOpen && Synced()
      ensures !hasToggle ==> ariaExpanded == old(ariaExpanded) && isOpen == old(isOpen)
    {
      if hasToggle {
        ariaExpanded := Some("false");
        isOpen := false;
      }
    }

    /**
     * A key press closes an open menu when it is Escape. Without a toggle button
     * the handler fails on its first write, so nothing changes.
     */
    method KeyPressed(key: string)
      modifies this
      ensures old(Synced()) ==> Synced()
      ensures key == Escape && old(isOpen) && hasToggle ==> ariaExpanded == Some("false") && !isOpen
      ensures !(key == Escape && old(isOpen) && hasToggle) ==> ariaExpanded == old(ariaExpanded) && isOpen == old(isOpen)
    {
      if key == Escape && isOpen {
        if !hasToggle {
          return;
        }
        ariaExpanded := Some("false");
        isOpen := false;
      }
    }
  }

  /**
   * On a page whose toggle starts collapsed, opening the menu announces it as
   * expanded, and a link click or Escape then closes it and announces it as
   * collapsed again.
   */
  method OpenThenDismiss(viaLink: bool) returns (openedShown: bool, openedAnnounced: Option<string>, closedShown: bool, closedAnnounced: Option<string>)
    ensures openedShown && openedAnnounced == Some("true")
    ensures !closedShown && closedAnnounced == Some("false")
  {
    var nav := new NavMenu(true, Some("false"), false);
    nav.ToggleClicked();
    openedShown, openedAnnounced := nav.isOpen, nav.ariaExpanded;
    if viaLink {
      nav.LinkClicked();
    } else {
      nav.KeyPressed(Escape);
    }
    closedShown, closedAnnounced := nav.isOpen, nav.ariaExpanded;
  }

  /** Two toggle clicks restore the menu and leave the attribute as `"true"` or `"false"` according to it, whatever the markup said. */
  method ToggleTwice(ariaExpanded0: Option<string>, open0: bool) returns (shown: bool, announced: Option<string>)
    ensures shown == open0
    ensures announced == Some(if ariaExpanded0 == Some("true") then "true" else "false")
  {
    var nav := new NavMenu(true, ariaExpanded0, open0);
    nav.ToggleClicked();
    nav.ToggleClicked();
    shown, announced := nav.isOpen, nav.ariaExpanded;
  }
}
