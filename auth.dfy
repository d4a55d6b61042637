/** The authentication modal: one `hidden` flag, the elements that may be
    missing from the page, and the location hash. */
module Auth {

  /** The hash the cancel path leaves in the URL. */
  const TopHash := "top"

  const EscapeKey := "Escape"

  class AuthModal {
    /** document.getElementById("authModal") found an element. */
    const present: bool
    /** document.getElementById("closeAuth") found an element. */
    const cancelPresent: bool
    /** The modal's `hidden` property. */
    var hidden: bool
    /** location.hash without the leading '#'. */
    var hash: string

    /** The modal is on screen. */
    predicate Visible()
      reads this
    {
      present && !hidden
    }

    /** The page as it loads: which elements exist, the modal's `hidden`
        flag as the markup gives it, and the hash of the URL. */
    constructor (modalFound: bool, cancelFound: bool, markupHidden: bool, initialHash: string)
      ensures present == modalFound && cancelPresent == cancelFound
      ensures hidden == markupHidden && hash == initialHash
      ensures Visible() <==> modalFound && !markupHidden
    {
      present, cancelPresent := modalFound, cancelFound;
      hidden, hash := markupHidden, initialHash;
    }

    /** requireAuth(): open the modal; nothing happens when it is absent. */
    method RequireAuth()
      modifies this
      ensures Visible() == present
      ensures present ==> !hidden
      ensures !present ==> hidden == old(hidden)
      ensures hash == old(hash)
    {
      if !present {
        return;
      }
      hidden := false;
    }

    /** closeAuthModalAndBackToTop(): hide the modal if it exists and reset
        the hash to "top" (by history.replaceState, or by assignment when that
        throws; both end the same). */
    method CloseAndBackToTop()
      modifies this
      ensures !Visible()
      ensures present ==> hidden
      ensures !present ==> hidden == old(hidden)
      ensures hash == TopHash
    {
      if present {
        hidden := true;
      }
      hash := TopHash;
    }

    /** Click on the cancel button; its handler exists only when the button does. */
    method OnCancelClick()
      modifies this
      ensures cancelPresent ==> !Visible() && hash == TopHash
      ensures !present ==> hidden == old(hidden)
      ensures !cancelPresent ==> hidden == old(hidden) && hash == old(hash)
    {
      if cancelPresent {
        CloseAndBackToTop();
      }
    }

    /** Click inside the modal element; only a click whose target is the modal
        element itself (the backdrop, not the card) cancels. */
    method OnModalClick(targetIsModal: bool)
      modifies this
      ensures present && targetIsModal ==> hidden && hash == TopHash
      ensures !(present && targetIsModal) ==> hidden == old(hidden) && hash == old(hash)
    {
      if present && targetIsModal {
        CloseAndBackToTop();
      }
    }

    /** A keydown anywhere in the window: Escape cancels, but only while the
        modal exists and is visible. */
    method OnKeyDown(key: string)
      modifies this
      ensures key == EscapeKey && old(Visible()) ==> hidden && hash == TopHash
      ensures !(key == EscapeKey && old(Visible())) ==> hidden == old(hidden) && hash == old(hash)
    {
      if key == EscapeKey && present && !hidden {
        CloseAndBackToTop();
      }
    }
  }
}
