/**
 * The mobile navigation menu (script.js:14-61, 370-383, 397-411): the
 * `.nav-list` is open while it carries the `active` class, the button's
 * icon shows a bars or a cross glyph, and its `aria-label` offers to open or
 * to close the menu. The nav links each carry an `active` flag of their own.
 */
module Menu {

  const Bars := "fa-bars"
  const Times := "fa-times"
  /** "Open the menu". */
  const OpenLabel := "Բացել մենյուն"
  /** "Close the menu". */
  const CloseLabel := "Փակել մենյուն"
  /** The window width above which an open menu is reset. */
  const Breakpoint := 768

  /** The menu with its button and its links, for a page that has both the button and the nav list. */
  class MobileMenu {
    /** Whether `.nav-list` has the `active` class. */
    var open: bool
    /** The classes of the `<i>` icon inside the button. */
    var icon: set<string>
    /** The button's `aria-label`. */
    var ariaLabel: string
    /** The `active` class of each `.nav-link`, in document order. */
    const linkActive: array<bool>

    /** The icon and the label agree with the state of the list. */
    predicate Consistent()
      reads this
    {
      && (Times in icon <==> open)
      && (Bars in icon <==> !open)
      && ariaLabel == (if open then CloseLabel else OpenLabel)
    }

    constructor (open: bool, icon: set<string>, ariaLabel: string, linkActive: array<bool>)
      ensures this.open == open && this.icon == icon && this.ariaLabel == ariaLabel
      ensures this.linkActive == linkActive
    {
      this.open := open;
      this.icon := icon;
      this.ariaLabel := ariaLabel;
      this.linkActive := linkActive;
    }

    /** The four statements every closing handler repeats: no `active`, the bars icon, the "open" label. */
    method Close()
      modifies this`open, this`icon, this`ariaLabel
      ensures !open && icon == old(icon) - {Times} + {Bars} && ariaLabel == OpenLabel
      ensures Consistent()
    {
      open := false;
      icon := icon - {Times};
      icon := icon + {Bars};
      ariaLabel := OpenLabel;
    }

    /**
     * A click on the button (script.js:19-31): the list's `active` class is
     * toggled, then the icon and the label are set from the new state, so
     * they agree with it whatever they showed before.
     */
    method Toggle()
      modifies this`open, this`icon, this`ariaLabel
      ensures open == !old(open)
      ensures open ==> icon == old(icon) - {Bars} + {Times} && ariaLabel == CloseLabel
      ensures !open ==> icon == old(icon) - {Times} + {Bars} && ariaLabel == OpenLabel
      ensures Consistent()
    {
      open := !open;
      if open {
        icon := icon - {Bars};
        icon := icon + {Times};
        ariaLabel := CloseLabel;
      } else {
        icon := icon - {Times};
        icon := icon + {Bars};
        ariaLabel := OpenLabel;
      }
    }

    /**
     * A click on nav link `k` (script.js:36-47): an open menu is closed, then
     * every link loses `active` and link `k` gains it.
     */
    method ClickLink(k: nat)
      requires k < linkActive.Length
      modifies this`open, this`icon, this`ariaLabel, linkActive
      ensures !open
      ensures old(open) ==> icon == old(icon) - {Times} + {Bars} && ariaLabel == OpenLabel
      ensures !old(open) ==> icon == old(icon) && ariaLabel == old(ariaLabel)
      ensures old(Consistent()) ==> Consistent()
      ensures forall j :: 0 <= j < linkActive.Length ==> linkActive[j] == (j == k)
    {
      if open {
        Close();
      }
      for j := 0 to linkActive.Length
        modifies linkActive
        invariant forall i :: 0 <= i < j ==> !linkActive[i]
      {
        linkActive[j] := false;
      }
      linkActive[k] := true;
    }

    /**
     * A click anywhere on the page (script.js:51-59). Outside both the
     * button and the list the menu is closed, whether or not it was open;
     * otherwise nothing changes.
     */
    method ClickDocument(onButton: bool, onNavList: bool)
      modifies this`open, this`icon, this`ariaLabel
      ensures !onButton && !onNavList ==>
        !open && icon == old(icon) - {Times} + {Bars} && ariaLabel == OpenLabel && Consistent()
      ensures onButton || onNavList ==>
        open == old(open) && icon == old(icon) && ariaLabel == old(ariaLabel)
    {
      if !onButton && !onNavList {
        Close();
      }
    }

    /** A key press (script.js:370-383): "Escape" closes an open menu; any other key changes nothing here. */
    method KeyDown(key: string)
      modifies this`open, this`icon, this`ariaLabel
      ensures key == "Escape" ==> !open
      ensures key == "Escape" && old(open) ==> icon == old(icon) - {Times} + {Bars} && ariaLabel == OpenLabel
      ensures key != "Escape" || !old(open) ==>
        open == old(open) && icon == old(icon) && ariaLabel == old(ariaLabel)
      ensures old(Consistent()) ==> Consistent()
    {
      if key == "Escape" {
        if open {
          Close();
        }
      }
    }

    /** A window resize (script.js:397-411): above 768 pixels an open menu is closed; otherwise nothing changes. */
    method Resize(width: int)
      modifies this`open, this`icon, this`ariaLabel
      ensures width > Breakpoint ==> !open
      ensures width > Breakpoint && old(open) ==> icon == old(icon) - {Times} + {Bars} && ariaLabel == OpenLabel
      ensures width <= Breakpoint || !old(open) ==>
        open == old(open) && icon == old(icon) && ariaLabel == old(ariaLabel)
      ensures old(Consistent()) ==> Consistent()
    {
      if width > Breakpoint && open {
        Close();
      }
    }
  }
}
