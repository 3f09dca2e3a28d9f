/**
 * The case-study modal (script.js lines 204-229): `openProjectModal` fills the
 * modal's body and opens it, and three listeners close it (the close button, a
 * click on the overlay itself, and the Escape key while it is open). The close
 * listeners exist only when both the modal and its close button are on the page.
 */
module CaseStudyModal {

  /** Where a click inside the modal landed: on the overlay element itself, or on something it contains. */
  datatype ClickTarget = Overlay | Inside

  /** The three ways the page offers to close the modal. */
  datatype CloseRoute = CloseButton | OverlayClick | EscapeKey

  const Escape := "Escape"

  /** The state of the page that the modal code writes. */
  class Modal {
    /** Whether `#projectModal` exists. */
    const present: bool
    /** Whether `.modal-close` exists as well, so that the close listeners are attached. */
    const closable: bool
    /** The `innerHTML` of `#modalBody`. */
    var body: string
    /** Whether the modal has the `open` class. */
    var isOpen: bool
    /** The modal's `aria-hidden` attribute. */
    var ariaHidden: string
    /** `document.body.style.overflow`: the page scroll lock. */
    var overflow: string

    /**
     * The open class, `aria-hidden` and the scroll lock agree: the modal is open
     * exactly when it is announced and the page is locked. Only a modal on the page
     * can be open.
     */
    predicate Synced()
      reads this
    {
      && (isOpen <==> ariaHidden == "false")
      && (isOpen <==> overflow == "hidden")
      && (isOpen ==> present)
    }

    /** The page as loaded: closed, with the markup's body and `aria-hidden`, and no inline overflow. */
    constructor (present: bool, closable: bool, body0: string, ariaHidden0: string)
      ensures this.present == present && this.closable == closable
      ensures body == body0 && !isOpen && ariaHidden == ariaHidden0 && overflow == ""
      ensures Synced() <==> ariaHidden0 != "false"
    {
      this.present := present;
      this.closable := closable;
      body := body0;
      isOpen := false;
      ariaHidden := ariaHidden0;
      overflow := "";
    }

    /** `openProjectModal(html)`: nothing without a modal; otherwise replace the body and open, announce and lock. */
    method Open(html: string)
      modifies this
      ensures Synced() <==> (present || old(Synced()))
      ensures present ==> body == html && isOpen && ariaHidden == "false" && overflow == "hidden"
      ensures !present ==> body == old(body) && isOpen == old(isOpen) && ariaHidden == old(ariaHidden) && overflow == old(overflow)
    {
      if !present {
        return;
      }
      body := html;
      isOpen := true;
      ariaHidden := "false";
      overflow := "hidden";
    }

    /** `closeModal`: close, hide from assistive technology and release the scroll lock; the body is kept. */
    method Close()
      requires present && closable
      modifies this
      ensures Synced()
      ensures !isOpen && ariaHidden == "true" && overflow == "auto" && body == old(body)
    {
      isOpen := false;
      ariaHidden := "true";
      overflow := "auto";
    }

    /** A click on the close button closes the modal, whatever its state, when the listener is attached. */
    method CloseButtonClicked()
      modifies this
      ensures old(Synced()) ==> Synced()
      ensures body == old(body)
      ensures present && closable ==> !isOpen && ariaHidden == "true" && overflow == "auto"
      ensures !(present && closable) ==> isOpen == old(isOpen) && ariaHidden == old(ariaHidden) && overflow == old(overflow)
    {
      if present && closable {
        Close();
      }
    }

    /** A click inside the modal closes it only when it landed on the overlay itself, not on the content. */
    method ModalClicked(target: ClickTarget)
      modifies this
      ensures old(Synced()) ==> Synced()
      ensures body == old(body)
      ensures present && closable && target == Overlay ==> !isOpen && ariaHidden == "true" && overflow == "auto"
      ensures !(present && closable && target == Overlay) ==> isOpen == old(isOpen) && ariaHidden == old(ariaHidden) && overflow == old(overflow)
    {
      if present && closable && target == Overlay {
        Close();
      }
    }

    /** A key press closes the modal only when it is Escape and the modal is open; a closed modal is left as it is. */
    method KeyPressed(key: string)
      modifies this
      ensures old(Synced()) ==> Synced()
      ensures body == old(body)
      ensures present && closable && key == Escape && old(isOpen) ==> !isOpen && ariaHidden == "true" && overflow == "auto"
      ensures !(present && closable && key == Escape && old(isOpen)) ==> isOpen == old(isOpen) && ariaHidden == old(ariaHidden) && overflow == old(overflow)
    {
      if present && closable && key == Escape && isOpen {
        Close();
      }
    }
  }

  /**
   * Opening a case study and closing it again by any of the three routes leaves
   * the modal closed and the page unlocked, with the case study still in the body.
   */
  method OpenThenClose(html: string, route: CloseRoute) returns (open: bool, hidden: string, scroll: string, shown: string)
    ensures !open && hidden == "true" && scroll == "auto" && shown == html
  {
    var modal := new Modal(true, true, "", "true");
    modal.Open(html);
    match route {
      case CloseButton => modal.CloseButtonClicked();
      case OverlayClick => modal.ModalClicked(Overlay);
      case EscapeKey => modal.KeyPressed(Escape);
    }
    open, hidden, scroll, shown := modal.isOpen, modal.ariaHidden, modal.overflow, modal.body;
  }

  /** A click on the modal's content and any key but Escape leave an open case study open. */
  method ContentClickKeepsOpen(html: string, key: string) returns (open: bool, hidden: string, scroll: string)
    requires key != Escape
    ensures open && hidden == "false" && scroll == "hidden"
  {
    var modal := new Modal(true, true, "", "true");
    modal.Open(html);
    modal.ModalClicked(Inside);
    modal.KeyPressed(key);
    open, hidden, scroll := modal.isOpen, modal.ariaHidden, modal.overflow;
  }
}
