/**
 * The colour theme: five named themes; on mount a stored name, when there
 * is one, selects its theme, or the first theme when the name is unknown;
 * applying a theme sets the page's background and primary colours and stores
 * its name under `app-theme`.
 */
module SettingsPanel {
  import opened Js
  import opened LocalStorage

  /** A theme: its name and the two colour values it sets. */
  datatype Theme = Theme(name: string, bg: string, primary: string)

  /** `themes` */
  const Themes: seq<Theme> := [
    Theme("Default", "210 40% 98%", "217.2 91.2% 59.8%"),
    Theme("Stone", "240 4.8% 95.9%", "24.6 95% 53.1%"),
    Theme("Rose", "0 0% 100%", "346.8 77.2% 49.8%"),
    Theme("Green", "142.1 76.2% 96.3%", "142.1 70.6% 45.3%"),
    Theme("Blue", "204 100% 96.3%", "217.2 91.2% 59.8%")
  ]

  const ThemeKey: string := "app-theme"

  /** `find(t => t.name === name)`: the index of the first theme of that name, `None` when there is none. */
  function FindIndex(themes: seq<Theme>, name: string): (r: Option<nat>)
    ensures r.None? <==> forall j | 0 <= j < |themes| :: themes[j].name != name
    ensures r.Some? ==> r.value < |themes| && themes[r.value].name == name
    ensures r.Some? ==> forall j | 0 <= j < r.value :: themes[j].name != name
  {
    if themes == [] then None
    else if themes[0].name == name then Some(0)
    else
      match FindIndex(themes[1..], name)
      case Some(i) => Some(i + 1)
      case None => None
  }

  /** The names in the table are pairwise distinct. */
  lemma NamesDistinct(i: nat, j: nat)
    requires i < |Themes| && j < |Themes| && i != j
    ensures Themes[i].name != Themes[j].name
  {
  }

  /** The theme a non-empty stored name selects: the theme of that name, else the first theme. */
  function ThemeFor(name: string): (t: Theme)
    ensures t in Themes
    ensures (exists j | 0 <= j < |Themes| :: Themes[j].name == name) ==> t.name == name
    ensures (forall j | 0 <= j < |Themes| :: Themes[j].name != name) ==> t == Themes[0]
  {
    match FindIndex(Themes, name)
    case Some(i) => Themes[i]
    case None => Themes[0]
  }

  /** Because names are distinct, a table entry's name selects that very entry. */
  lemma {:induction false} NameSelectsItsTheme(i: nat)
    requires i < |Themes|
    ensures ThemeFor(Themes[i].name) == Themes[i]
  {
    var k := FindIndex(Themes, Themes[i].name);
    assert k.Some?;
    if k.value != i {
      NamesDistinct(k.value, i);
    }
  }

  /** An unknown name falls back to `Default`. */
  lemma UnknownNameFallsBack(name: string)
    requires name != "Default" && name != "Stone" && name != "Rose" && name != "Green" && name != "Blue"
    ensures ThemeFor(name) == Theme("Default", "210 40% 98%", "217.2 91.2% 59.8%")
  {
  }

  /** The theme the mount effect applies: none for a missing or empty stored value. */
  function MountedTheme(saved: Option<string>): (t: Option<Theme>)
    ensures t.None? <==> !TruthyOpt(saved)
    ensures t.Some? ==> t.value in Themes
  {
    if TruthyOpt(saved) then Some(ThemeFor(saved.value)) else None
  }

  /** Applying a table entry stores a name that re-selects that entry on the next mount. */
  lemma AppliedThemeRestored(i: nat)
    requires i < |Themes|
    ensures MountedTheme(Some(Themes[i].name)) == Some(Themes[i])
  {
    NameSelectsItsTheme(i);
  }

  class SettingsPanel {
    var mounted: bool
    /** The `--background` and `--primary` properties this panel has set, `None` before it sets them. */
    var background: Option<string>
    var primary: Option<string>

    constructor ()
      ensures !mounted && !Renders() && background == None && primary == None
    {
      mounted, background, primary := false, None, None;
    }

    /** The panel renders nothing until it has mounted. */
    function Renders(): (r: bool)
      reads this
      ensures r <==> mounted
    {
      mounted
    }

    /** `applyTheme(theme)`: set both colours, then store the name. */
    method ApplyTheme<T>(store: Store<T>, theme: Theme)
      modifies this, store
      ensures background == Some(theme.bg) && primary == Some(theme.primary)
      ensures store.data == old(store.data)[ThemeKey := Text(theme.name)]
      ensures mounted == old(mounted)
    {
      background := Some(theme.bg);
      primary := Some(theme.primary);
      store.SetItem(ThemeKey, Text(theme.name));
    }

    /** The mount effect: mark mounted, then apply the stored theme when a name is stored. */
    method Mount<T>(store: Store<T>)
      modifies this, store
      ensures mounted && Renders()
      ensures MountedTheme(old(store.GetItem(ThemeKey))).None? ==>
        store.data == old(store.data) && background == old(background) && primary == old(primary)
      ensures MountedTheme(old(store.GetItem(ThemeKey))).Some? ==>
        var t := MountedTheme(old(store.GetItem(ThemeKey))).value;
        && background == Some(t.bg) && primary == Some(t.primary)
        && store.data == old(store.data)[ThemeKey := Text(t.name)]
    {
      mounted := true;
      var saved := store.GetItem(ThemeKey);
      if TruthyOpt(saved) {
        ApplyTheme(store, ThemeFor(saved.value));
      }
    }
  }
}
