/** The toast notifier: title and message, the element's `hidden` flag, its
    "show" class, and the timers that dismiss it. Time itself is not modelled;
    a timer is an identity that is scheduled, then either cancelled or fired. */
module Toasts {

  /** A scheduled timer: the 2400 ms dismissal kept in window.__toastTimer,
      or the 220 ms fade that the dismissal schedules when it fires. */
  datatype Timer = Dismissal(id: nat) | Fade(id: nat)

  class Toaster {
    var title: string
    var message: string
    /** The element's `hidden` property. */
    var hidden: bool
    /** Whether the element carries the "show" class. */
    var showing: bool
    /** window.__toastTimer: the id of the last dismissal timer scheduled. */
    var toastTimer: nat
    /** The id of the last fade timer scheduled. */
    var fadeTimer: nat
    /** setTimeout hands out fresh ids. */
    var nextId: nat
    /** Timers scheduled and neither fired nor cancelled. */
    var pending: set<Timer>

    /** The bookkeeping the toast is meant to keep: the only timers that can
        be pending are the current dismissal and the current fade, never both,
        and while a dismissal is pending the toast is on screen. */
    ghost predicate Valid()
      reads this
    {
      && (forall t :: t in pending ==> t == Dismissal(toastTimer) || t == Fade(fadeTimer))
      && !(Dismissal(toastTimer) in pending && Fade(fadeTimer) in pending)
      && (Dismissal(toastTimer) in pending ==> !hidden && showing)
    }

    /** What the code as written does keep: every pending dismissal is the one
        recorded in window.__toastTimer, and both recorded ids were handed out
        before nextId, so a new timer never reuses one. */
    ghost predicate AsWrittenOk()
      reads this
    {
      && (forall t :: t in pending && t.Dismissal? ==> t == Dismissal(toastTimer))
      && toastTimer < nextId && fadeTimer < nextId
    }

    predicate OnScreen()
      reads this
    {
      !hidden && showing
    }

    /** The element as the page loads: its `hidden` flag and "show" class as
        the markup gives them, and no timers. */
    constructor (markupHidden: bool, markupShowing: bool)
      ensures Valid() && AsWrittenOk()
      ensures hidden == markupHidden && showing == markupShowing && pending == {}
    {
      title, message := "", "";
      hidden, showing := markupHidden, markupShowing;
      toastTimer, fadeTimer, nextId := 0, 0, 1;
      pending := {};
    }

    /** At most one timer of the toast is ever pending. */
    lemma AtMostOnePending()
      requires Valid()
      ensures |pending| <= 1
    {
      if Dismissal(toastTimer) in pending {
        assert pending == {Dismissal(toastTimer)};
      } else if Fade(fadeTimer) in pending {
        assert pending == {Fade(fadeTimer)};
      } else {
        assert pending == {};
      }
    }

    /** As written, at most one dismissal timer is pending, though a fade
        timer may be pending beside it. */
    lemma AtMostOneDismissalPending()
      requires AsWrittenOk()
      ensures |set t | t in pending && t.Dismissal?| <= 1
    {
      var dismissals := set t | t in pending && t.Dismissal?;
      if Dismissal(toastTimer) in pending {
        assert dismissals == {Dismissal(toastTimer)};
      } else {
        assert dismissals == {};
      }
    }

    /** toast(title, msg) as written: show the element, cancel the pending
        dismissal and schedule a new one. A fade timer that is still pending
        is not cancelled. */
    method ShowAsWritten(t: string, msg: string)
      modifies this
      ensures title == t && message == msg && OnScreen()
      ensures toastTimer == old(nextId) && nextId == old(nextId) + 1
      ensures fadeTimer == old(fadeTimer)
      ensures pending == old(pending) - {Dismissal(old(toastTimer))} + {Dismissal(toastTimer)}
      ensures old(AsWrittenOk()) ==> AsWrittenOk()
    {
      title, message := t, msg;
      hidden, showing := false, true;
      pending := pending - {Dismissal(toastTimer)};
      toastTimer, nextId := nextId, nextId + 1;
      pending := pending + {Dismissal(toastTimer)};
    }

    /** toast(title, msg), corrected: as written, and the pending fade timer is
        cancelled as well, so that a new toast restarts the whole cycle. */
    method Show(t: string, msg: string)
      requires Valid()
      modifies this
      ensures Valid()
      ensures title == t && message == msg && OnScreen()
      ensures toastTimer == old(nextId) && nextId == old(nextId) + 1
      ensures fadeTimer == old(fadeTimer)
      ensures pending == {Dismissal(toastTimer)}
    {
      title, message := t, msg;
      hidden, showing := false, true;
      pending := pending - {Dismissal(toastTimer), Fade(fadeTimer)};
      toastTimer, nextId := nextId, nextId + 1;
      pending := pending + {Dismissal(toastTimer)};
    }

    /** The timer `id` of kind Dismissal fires: if it is still pending, the
        "show" class is removed and a fade timer is scheduled. */
    method FireDismissal(id: nat)
      modifies this
      ensures title == old(title) && message == old(message) && hidden == old(hidden)
      ensures toastTimer == old(toastTimer)
      ensures Dismissal(id) in old(pending) ==>
        && !showing
        && fadeTimer == old(nextId) && nextId == old(nextId) + 1
        && pending == old(pending) - {Dismissal(id)} + {Fade(fadeTimer)}
      ensures Dismissal(id) !in old(pending) ==>
        showing == old(showing) && fadeTimer == old(fadeTimer) && nextId == old(nextId) && pending == old(pending)
      ensures old(Valid()) ==> Valid()
      ensures old(AsWrittenOk()) ==> AsWrittenOk()
    {
      if Dismissal(id) in pending {
        pending := pending - {Dismissal(id)};
        showing := false;
        fadeTimer, nextId := nextId, nextId + 1;
        pending := pending + {Fade(fadeTimer)};
      }
    }

    /** The timer `id` of kind Fade fires: if it is still pending, the element
        is hidden. */
    method FireFade(id: nat)
      modifies this
      ensures title == old(title) && message == old(message) && showing == old(showing)
      ensures toastTimer == old(toastTimer) && fadeTimer == old(fadeTimer) && nextId == old(nextId)
      ensures Fade(id) in old(pending) ==> hidden && pending == old(pending) - {Fade(id)}
      ensures Fade(id) !in old(pending) ==> hidden == old(hidden) && pending == old(pending)
      ensures old(Valid()) ==> Valid()
      ensures old(AsWrittenOk()) ==> AsWrittenOk()
    {
      if Fade(id) in pending {
        pending := pending - {Fade(id)};
        hidden := true;
      }
    }
  }

  /** As written, a toast shown while the previous one is fading out is hidden
      by the old fade timer, although its own dismissal is still pending:
      toast; its dismissal fires; toast again; the first fade fires. Before
      the fade fires, two timers of the toast are pending at once. */
  method StaleFadeHidesNewToast() returns (hidden: bool, dismissalPending: bool, timersPendingAtOnce: nat)
    ensures hidden && dismissalPending && timersPendingAtOnce == 2
  {
    var toaster := new Toaster(true, false);
    toaster.ShowAsWritten("Atualizado", "Mercados misturados.");
    toaster.FireDismissal(toaster.toastTimer);
    var fade := toaster.fadeTimer;
    toaster.ShowAsWritten("Atualizado", "Mercados misturados.");
    assert toaster.pending == {Fade(fade), Dismissal(toaster.toastTimer)};
    timersPendingAtOnce := |toaster.pending|;
    toaster.FireFade(fade);
    hidden := toaster.hidden;
    dismissalPending := Dismissal(toaster.toastTimer) in toaster.pending;
  }

  /** With the corrected toast the same sequence leaves the new toast on
      screen with its dismissal pending. */
  method NewToastSurvivesStaleFade() returns (onScreen: bool, dismissalPending: bool)
    ensures onScreen && dismissalPending
  {
    var toaster := new Toaster(true, false);
    toaster.Show("Atualizado", "Mercados misturados.");
    toaster.FireDismissal(toaster.toastTimer);
    var fade := toaster.fadeTimer;
    toaster.Show("Atualizado", "Mercados misturados.");
    toaster.FireFade(fade);
    onScreen := toaster.OnScreen();
    dismissalPending := Dismissal(toaster.toastTimer) in toaster.pending;
  }
}
