/** The theme manager: the `data-theme` attribute of the document element,
    the visible theme label and the preference persisted in localStorage
    under the key "kalshi_theme". */
module Theme {

  datatype Option<T> = None | Some(value: T)

  const Light := "light"
  const Dark := "dark"

  predicate IsMode(t: string)
  {
    t == Light || t == Dark
  }

  /** The label applyTheme writes next to the toggle. */
  function Label(t: string): (l: string)
    ensures l == "Claro" || l == "Escuro"
    ensures l == "Claro" <==> t == Light
  {
    if t == Light then "Claro" else "Escuro"
  }

  /** The theme initTheme applies: a stored value is trusted only when it is
      exactly "light" or "dark"; otherwise the system preference decides. */
  function InitialTheme(saved: Option<string>, prefersLight: bool): (t: string)
    ensures IsMode(t)
    ensures saved.Some? && IsMode(saved.value) ==> t == saved.value
    ensures !(saved.Some? && IsMode(saved.value)) ==> (t == Light <==> prefersLight)
  {
    if saved == Some(Light) || saved == Some(Dark) then saved.value
    else if prefersLight then Light else Dark
  }

  /** The theme the toggle switches to, given the current attribute value.
      A missing or empty attribute counts as "dark"; "dark" becomes "light"
      and every other value becomes "dark". */
  function Toggled(attribute: Option<string>): (next: string)
    ensures IsMode(next)
    ensures next == Light <==> attribute == None || attribute == Some("") || attribute == Some(Dark)
  {
    var current := if attribute == None || attribute == Some("") then Dark else attribute.value;
    if current == Dark then Light else Dark
  }

  /** Toggling twice from an explicit theme gives that theme back. */
  lemma ToggleTwice(t: string)
    requires IsMode(t)
    ensures Toggled(Some(Toggled(Some(t)))) == t
    ensures Toggled(Some(t)) != t
  {
  }

  class ThemeManager {
    /** The `data-theme` attribute; None while it is not set. */
    var attribute: Option<string>
    /** The text of the theme label. */
    var themeLabel: string
    /** The value stored under "kalshi_theme"; None while nothing is stored. */
    var stored: Option<string>

    /** A theme has been applied and the label agrees with it. */
    ghost predicate Valid()
      reads this
    {
      attribute.Some? && IsMode(attribute.value) && themeLabel == Label(attribute.value)
    }

    /** The page before initTheme runs: whatever attribute and label the
        markup carries, and whatever storage holds. */
    constructor (markupAttribute: Option<string>, markupLabel: string, saved: Option<string>)
      ensures attribute == markupAttribute && themeLabel == markupLabel && stored == saved
    {
      attribute, themeLabel, stored := markupAttribute, markupLabel, saved;
    }

    /** applyTheme(theme). */
    method Apply(theme: string)
      modifies this
      ensures attribute == Some(theme) && themeLabel == Label(theme) && stored == old(stored)
    {
      attribute := Some(theme);
      themeLabel := Label(theme);
    }

    /** initTheme(): the system preference (prefers-color-scheme: light) is a parameter. */
    method Init(prefersLight: bool)
      modifies this
      ensures Valid()
      ensures attribute == Some(InitialTheme(old(stored), prefersLight))
      ensures stored == old(stored)
    {
      var saved := stored;
      if saved == Some(Light) || saved == Some(Dark) {
        Apply(saved.value);
        return;
      }
      Apply(if prefersLight then Light else Dark);
    }

    /** The click handler of the theme toggle: persist the next theme, then apply it. */
    method Toggle()
      modifies this
      ensures Valid()
      ensures attribute == Some(Toggled(old(attribute)))
      ensures stored == attribute
    {
      var next := Toggled(attribute);
      stored := Some(next);
      Apply(next);
    }
  }
}
