# Landing-page controller of sistema-oxxa20, modelled in Dafny

`script.js` drives a demo landing page for a prediction-market mock-up. This
project models its deterministic core:

- the market projection (`clamp`, `renderMarkets`): at most five cards, in list order, each with a whole percentage between 1 and 99 and its complement to 100, with the container emptied before each render;
- the in-place `shuffle` of `MARKET_DATA` and the shuffle button;
- the theme toggle and `initTheme`;
- the mobile menu (burger, link click, resize);
- the authentication modal (`requireAuth`, `closeAuthModalAndBackToTop` and the cancel button, backdrop-click and Escape guards);
- the waitlist submit handler;
- the toast and its timers.

Modules follow the components:

- `Markets` (markets.dfy): records, `Clamp`, `Percent`, `Displayed`, the `MarketBoard` class, `Shuffle`.
- `Toasts` (toasts.dfy): the `Toaster` class.
- `Theme` (theme.dfy): the `ThemeManager` class.
- `Menu` (menu.dfy): the `MobileMenu` class.
- `Auth` (auth.dfy): the `AuthModal` class.
- `Waitlist` (waitlist.dfy): trimming, validation, the `WaitlistForm` class.
- `Page` (page.dfy): the `Controller` class built at `DOMContentLoaded`, and the handlers that touch several components.

Each handler that changes page state is a method of a class whose fields are the DOM state it updates. `MarketBoard.Render` is proved against `Displayed`. `ThemeManager.Init` and `Toggle` are proved against `InitialTheme` and `Toggled`. `WaitlistForm.Submit` is proved against `Check`, `Trim` and `SuccessMessage`. The `MobileMenu`, `AuthModal` and `Toaster` methods state their new state directly, together with the invariant they keep.

Probabilities are `real`s. `Math.round` is the nearest integer with halves rounded up, `floor(x + 0.5)`.

Inputs the page reads from the browser are parameters:

- the stored theme and the system colour preference;
- the window width;
- the pressed key and whether a click hit the modal element itself;
- whether the modal and its cancel button exist;
- the draws of `Math.random`, as a function `random: nat -> real`;
- the initial markup: the theme attribute and label, the menu's `aria-expanded` and `hidden`, the modal's `hidden`, and the toast's `hidden` flag and "show" class.

The modal is one `hidden` flag, the location hash and a presence check, as in `script.js`.

## Model

| member | source | states |
|---|---|---|
| `Markets.Clamp` | script.js:5 | When `a <= b` the result lies in `[a, b]`. It is `n` itself when `n` is already in range, `a` below the range and `b` above it. When `a > b` it is `a`, as `Math.max(a, Math.min(b, n))` gives. |
| `Markets.Round` | script.js:144 | `Math.round`: the result is within one half of `x`, and halves round up. |
| `Markets.Percent` | script.js:144 | The displayed percentage is between 1 and 99 for every probability. It is the nearest whole percent of `p` when `p` is in `[0.01, 0.99]`, 1 at or below 0.01 and 99 at or above 0.99. |
| `Markets.ToRow` | script.js:144-156 | The card of one market carries its question and tag. Its "Yes" figure (also the bar width) is the market's displayed percentage `Percent(m.p)`, and its "No" figure is `100 - Percent(m.p)`: both lie in 1..99 and sum to 100. `DisplayedOdds` lifts this to every rendered card. |
| `Markets.Project` | script.js:143-164 | One row per market, in order: row `i` is the card of market `i`. |
| `Markets.Displayed` | script.js:140-143 | The rendered rows number min(5, length of `list`), and row `i` is the card of `list[i]`. |
| `Markets.DisplayedOdds` | script.js:144-156 | Every rendered card carries its market's question and tag. Its "Yes" figure (also the bar width) is its market's `Percent`, and the "Yes" and "No" figures both lie in 1..99 and sum to 100. |
| `Markets.DisplayedPrefix` | script.js:143 | Two lists whose `slice(0, 5)` agree render the same rows, whatever their lengths. |
| `Markets.MarketData` | script.js:92-99 | `MARKET_DATA` holds six markets. |
| `Markets.InitialOdds` | script.js:92-99 | On load, the cards of the first five markets show 62/38, 54/46, 41/59, 33/67 and 48/52. |
| `Markets.MarketBoard.Render` | script.js:139-165 | After rendering, the container holds exactly `Displayed(list)`, whatever it held before: re-rendering never accumulates cards. |
| `Markets.Shuffle` | script.js:179-181 | Returns the same array. The array's new contents are a permutation of the old: same multiset, so same length. |
| `Page.Controller.OnShuffleClick` | script.js:183-186 | `MARKET_DATA` is reordered in place as a permutation. The board shows the new order. The "Atualizado" toast is on screen, shown as written: the old dismissal is cancelled, a new one with a fresh id is scheduled, and a pending fade timer stays pending. The controller invariant is kept. |
| `Page.Controller.OnTradeClick` | script.js:169-175 | A Yes/No click on a rendered card opens the modal when it exists. It does nothing when the modal is absent. |
| `Page.Controller.constructor` | script.js:204-231 | On load, `MARKET_DATA` is rendered and the initial theme is applied. The modal and the toast keep the state the markup gives them, no toast timer is pending, and the controller invariant holds. |
| `Theme.InitialTheme` | script.js:29-37 | The initial theme is always "light" or "dark". A stored value is used exactly when it is "light" or "dark". Otherwise the result is "light" exactly when the system prefers light. |
| `Theme.Toggled` | script.js:40-41 | The next theme is "light" exactly when the current attribute is missing, empty or "dark". Otherwise it is "dark". |
| `Theme.ToggleTwice` | script.js:39-44 | From an explicit theme, one toggle changes it and a second toggle restores it. |
| `Theme.Label` | script.js:26 | The label is "Claro" exactly when the theme is "light", and "Escuro" otherwise; `ThemeManager.Apply` writes it. |
| `Theme.ThemeManager.Apply` | script.js:24-27 | `data-theme` becomes the theme and the label becomes "Claro" for light, else "Escuro". Storage is untouched. |
| `Theme.ThemeManager.Init` | script.js:29-37 | Applies `InitialTheme(stored, prefersLight)`. Storage is unchanged, and the label agrees with the applied theme. |
| `Theme.ThemeManager.Toggle` | script.js:39-44 | Stores and applies `Toggled(current attribute)`. Stored and applied values then agree, and so does the label. |
| `Menu.MobileMenu.OnBurgerClick` | script.js:50-54 | Flips `aria-expanded` and hides the menu exactly when it was expanded. Afterwards `menuHidden == !expanded`, whatever the state before. |
| `Menu.MobileMenu.OnLinkClick` | script.js:56-61 | Forces the closed state: not expanded, menu hidden. |
| `Menu.MobileMenu.OnResize` | script.js:63-68 | Above 760 px the menu is forced closed. At or below 760 px nothing changes, so the invariant `menuHidden == !expanded` is preserved. |
| `Auth.AuthModal.RequireAuth` | script.js:111-114 | The modal is visible afterwards exactly when it exists. When it is absent nothing changes. The hash is untouched. |
| `Auth.AuthModal.CloseAndBackToTop` | script.js:122-136 | Afterwards the modal is not visible and the hash is "top". Both the `replaceState` path and its fallback end there. |
| `Auth.AuthModal.OnCancelClick` | script.js:208-214 | With the cancel button present, a click cancels. Without it, no handler exists and nothing changes. Without the modal, its `hidden` flag is never touched. |
| `Auth.AuthModal.OnModalClick` | script.js:216-221 | Cancels exactly when the click target is the modal element itself. Clicks inside the card change nothing. |
| `Auth.AuthModal.OnKeyDown` | script.js:223-228 | Cancels exactly when the key is Escape and the modal exists and is visible. Any other key, or a hidden or absent modal, changes nothing. |
| `Toasts.Toaster.AtMostOnePending` | script.js:14-18 | Under the toast invariant, at most one of its timers is pending. |
| `Toasts.Toaster.AtMostOneDismissalPending` | script.js:14-15 | Under the as-written invariant (every pending dismissal is the one in `window.__toastTimer`, and no timer id is handed out twice), at most one dismissal timer is pending. |
| `Toasts.Toaster.ShowAsWritten` | script.js:8-19 | `toast` as written: shows the title and message and cancels the pending dismissal. It schedules a new dismissal and leaves any pending fade timer alone. It preserves the as-written invariant. |
| `Toasts.Toaster.Show` | script.js:8-19 | `toast`, corrected: shows the title and message and preserves the invariant. Exactly one timer is pending afterwards: the new dismissal. |
| `Toasts.Toaster.FireDismissal` | script.js:15-17 | A pending dismissal removes "show" and schedules the fade. A cancelled or fired one does nothing. Both the corrected and the as-written invariants are preserved. |
| `Toasts.Toaster.FireFade` | script.js:17 | A pending fade hides the element. Otherwise nothing changes. Both the corrected and the as-written invariants are preserved. |
| `Toasts.StaleFadeHidesNewToast` | script.js:14-17 | Counterexample against the code as written (see Findings). |
| `Toasts.NewToastSurvivesStaleFade` | script.js:14-17 | With the corrected toast, the same event sequence leaves the new toast on screen with its dismissal pending. |
| `Waitlist.TrimStart` | script.js:191-192 | `trim`'s left half: the result is a suffix of the input, all that was cut is white space, and the result does not start with white space. |
| `Waitlist.TrimEnd` | script.js:191-192 | `trim`'s right half: the result is a prefix of the input, all that was cut is white space, and the result does not end with white space. |
| `Waitlist.Trim` | script.js:191-192 | `String.prototype.trim`: the result is the input's slice between a leading run and a trailing run of white space, which are all that is removed, and it has no white space at either end. |
| `Waitlist.TrimEmptyIffBlank` | script.js:191-194 | A field trims to empty exactly when it consists of white space only. |
| `Waitlist.TrimIdempotent` | script.js:191-192 | Trimmed text has no white space at either end, and trimming it again changes nothing. |
| `Waitlist.Check` | script.js:191-197 | The submission is refused exactly when the name or the email is blank. When it is accepted, it carries the trimmed, non-empty name. |
| `Waitlist.SuccessMessage` | script.js:199 | The success message starts with the fixed greeting and holds the name right after it. |
| `Waitlist.CheckExamples` | script.js:191-199 | An empty name with a valid email is refused. " Ana " with "ana@x.com" is accepted as "Ana". |
| `Waitlist.WaitlistForm.Submit` | script.js:189-201 | A blank field shows the "Ops" toast and keeps both fields as typed. Otherwise the "Boa!" toast greets the trimmed name and both fields become empty. Either way the toast is on screen, shown as written: the old dismissal is cancelled, a new one with a fresh id is scheduled, a pending fade timer stays pending, and the as-written invariant is kept. |

## Findings

| source | as written | input that shows it | evidently intended | confidence | as-written member | corrected member |
|---|---|---|---|---|---|---|
| script.js:14-18 | `toast` cancels only `window.__toastTimer`, so at most one dismissal is ever pending. The 220 ms timer that hides the element after the fade is kept nowhere and is never cancelled. | Show a toast. Let its 2400 ms dismissal fire. Show a second toast within the next 220 ms. The first toast's fade timer then sets `hidden = true` while the second toast's dismissal is still pending: the second toast vanishes early, and two timers were pending at once. | A new toast restarts the whole cycle. The toast stays on screen until its own dismissal, and at most one of its timers is pending. | medium; not executed | `Toasts.StaleFadeHidesNewToast` | `Toasts.Toaster.Show` |

The code as written keeps one dismissal pending (`Toasts.Toaster.AtMostOneDismissalPending`, under an invariant its three operations preserve), but not one timer. The corrected `Toasts.Toaster.Show` also cancels the pending fade timer. `Toasts.NewToastSurvivesStaleFade` replays the same sequence against it. `Toasts.Toaster.AtMostOnePending` and the preserved invariant (a pending dismissal implies the toast is on screen) are proved for it. The page's handlers (`Page.Controller.OnShuffleClick`, `Waitlist.WaitlistForm.Submit`) call the toast as written, as `script.js` does, so the page model keeps the defect.

## Left out

- service-worker.js: Cache Storage, `fetch` and the install lifecycle are browser I/O with no logic of their own.
- The scroll progress bar (script.js:71-77) is floating-point division over DOM metrics.
- The reveal-on-scroll observer (script.js:80-89) only adds a class inside a browser callback.
- Timer durations (2400 ms, 220 ms, the 2000 ms splash) are not modelled. A timer is an identity that is scheduled and then cancelled or fired, in any order the events allow.
- The splash screen, service-worker registration and the year label in the `DOMContentLoaded` handler are not modelled.
- Markets.Shuffle: the engine's sort algorithm is not specified by the language. It is modelled as an insertion sort driven by the comparator's answers. Only "some permutation" is promised, as by the source; the distribution of `Math.random` is not modelled.
- Markets.Percent: probabilities are exact reals. IEEE-754 rounding of `clamp(p) * 100` and NaN inputs are not modelled.
- Cards are records of question, tag and the two figures. The HTML markup and `innerHTML` are not modelled.
- The Yes/No buttons' `preventDefault` and `stopPropagation` are not modelled, and neither is the cancel button's `preventDefault`.
- The smooth scroll to the top in `goToTop` is not modelled. `history.replaceState` and its `location.hash` fallback are modelled by their common outcome, hash `"top"`.
- localStorage is one `Option<string>` field, the value under the key "kalshi_theme". The `aria-expanded` attribute is a boolean: "true" or anything else.
- Waitlist.WaitlistForm.Submit: `form.reset()` is modelled as emptying both fields. That assumes the inputs have no default value in the markup, which is not part of this model.
