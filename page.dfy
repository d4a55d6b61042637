/** The page controller: the components wired together at DOMContentLoaded,
    and the handlers that involve more than one of them. */
module Page {
  import Markets
  import Toasts
  import Auth
  import Theme
  import Menu
  import Waitlist

  const ShuffledTitle := "Atualizado"
  const ShuffledMessage := "Mercados misturados."

  class Controller {
    /** MARKET_DATA, which shuffle reorders in place. */
    const data: array<Markets.Market>
    const board: Markets.MarketBoard
    const toaster: Toasts.Toaster
    const modal: Auth.AuthModal
    const theme: Theme.ThemeManager
    const menu: Menu.MobileMenu
    const form: Waitlist.WaitlistForm

    /** The board shows the current order of MARKET_DATA, a theme is applied
        and the toast keeps the timer bookkeeping of the code as written. */
    ghost predicate Valid()
      reads this, data, board, toaster, theme
    {
      && board.rows == Markets.Displayed(data[..])
      && toaster.AsWrittenOk()
      && theme.Valid()
    }

    /** Script load and DOMContentLoaded: look up the modal and its cancel
        button, apply the initial theme and render MARKET_DATA. The storage
        contents, the system colour preference, the location hash and the
        initial markup are parameters. */
    constructor (saved: Theme.Option<string>, prefersLight: bool,
                 modalFound: bool, cancelFound: bool, hash: string,
                 markupTheme: Theme.Option<string>, markupLabel: string,
                 markupExpanded: bool, markupMenuHidden: bool,
                 markupModalHidden: bool, markupToastHidden: bool, markupToastShowing: bool)
      ensures Valid()
      ensures fresh(data) && fresh(board) && fresh(toaster) && fresh(modal) && fresh(theme) && fresh(menu) && fresh(form)
      ensures data[..] == Markets.MarketData()
      ensures board.rows == Markets.Displayed(Markets.MarketData())
      ensures theme.attribute == Theme.Some(Theme.InitialTheme(saved, prefersLight)) && theme.stored == saved
      ensures modal.present == modalFound && modal.cancelPresent == cancelFound
      ensures modal.hidden == markupModalHidden && modal.hash == hash
      ensures toaster.hidden == markupToastHidden && toaster.showing == markupToastShowing
      ensures toaster.pending == {}
      ensures form.name == [] && form.email == []
    {
      var markets := Markets.MarketData();
      data := new Markets.Market[|markets|](i requires 0 <= i < |markets| => markets[i]);
      board := new Markets.MarketBoard();
      toaster := new Toasts.Toaster(markupToastHidden, markupToastShowing);
      modal := new Auth.AuthModal(modalFound, cancelFound, markupModalHidden, hash);
      theme := new Theme.ThemeManager(markupTheme, markupLabel, saved);
      menu := new Menu.MobileMenu(markupExpanded, markupMenuHidden);
      form := new Waitlist.WaitlistForm([], []);
      new;
      assert data[..] == markets;
      theme.Init(prefersLight);
      board.Render(data[..]);
    }

    /** The shuffle button: shuffle MARKET_DATA in place, render it and
        confirm with a toast. */
    method OnShuffleClick(random: nat -> real)
      requires Valid()
      modifies data, board, toaster
      ensures Valid()
      ensures multiset(data[..]) == multiset(old(data[..]))
      ensures board.rows == Markets.Displayed(data[..])
      ensures toaster.title == ShuffledTitle && toaster.message == ShuffledMessage && toaster.OnScreen()
      ensures toaster.toastTimer == old(toaster.nextId) && toaster.nextId == old(toaster.nextId) + 1
      ensures toaster.fadeTimer == old(toaster.fadeTimer)
      ensures toaster.pending ==
        old(toaster.pending) - {Toasts.Dismissal(old(toaster.toastTimer))} + {Toasts.Dismissal(toaster.toastTimer)}
    {
      var shuffled := Markets.Shuffle(data, random);
      board.Render(shuffled[..]);
      toaster.ShowAsWritten(ShuffledTitle, ShuffledMessage);
    }

    /** A Yes or No button of a rendered card: ask for authentication. */
    method OnTradeClick(row: nat)
      requires row < |board.rows|
      modifies modal
      ensures modal.Visible() == modal.present
      ensures !modal.present ==> modal.hidden == old(modal.hidden)
      ensures modal.hash == old(modal.hash)
    {
      modal.RequireAuth();
    }
  }
}
