/**
 * The theme store of src/store/useThemeStore.js: a persisted `isDarkMode`
 * flag and the document's class list, which gains the class `dark` when the
 * flag is set and loses it when the flag is cleared.
 */
module ThemeStore {
  import opened JsValues
  import Lists

  const Dark := "dark"

  /** The class list with `c` added: unchanged when `c` is there, `c` appended when not. */
  function WithClass(classes: seq<string>, c: string): (r: seq<string>)
    ensures c in r
    ensures forall x :: x != c ==> (x in r <==> x in classes)
    ensures c in classes ==> r == classes
  {
    if c in classes then classes else classes + [c]
  }

  /** The class list with every `c` removed and the other classes in their order. */
  function WithoutClass(classes: seq<string>, c: string): (r: seq<string>)
    ensures c !in r
    ensures forall x :: x != c ==> (x in r <==> x in classes)
    ensures forall x :: x != c ==> multiset(r)[x] == multiset(classes)[x]
    ensures Lists.IsSubsequence(r, classes)
  {
    Lists.FilterIsSubsequence(classes, x => x != c);
    Lists.Filter(classes, x => x != c)
  }

  /** The class list after the theme is set to `dark`: `add('dark')` or `remove('dark')`. */
  function ApplyTheme(classes: seq<string>, dark: bool): (r: seq<string>)
    ensures Dark in r <==> dark
  {
    if dark then WithClass(classes, Dark) else WithoutClass(classes, Dark)
  }

  /** The class list mirrors the flag: `dark` is present exactly when the flag is set. */
  predicate Mirrors(isDarkMode: bool, classes: seq<string>)
  {
    Dark in classes <==> isDarkMode
  }

  /** Adding or removing `dark` leaves the other classes, and their order, exactly as they were. */
  lemma {:induction false} OtherClassesUntouched(classes: seq<string>, dark: bool)
    ensures WithoutClass(ApplyTheme(classes, dark), Dark) == WithoutClass(classes, Dark)
  {
    var others := (x: string) => x != Dark;
    if dark {
      if Dark !in classes {
        Lists.FilterConcat(classes, [Dark], others);
        assert Lists.Filter([Dark], others) == [];
      }
    } else {
      var r := WithoutClass(classes, Dark);
      assert forall i :: 0 <= i < |r| ==> others(r[i]);
      Lists.FilterKeepsAll(r, others);
    }
  }

  /** Setting the theme twice to the same value is the same as setting it once. */
  lemma {:induction false} ApplyThemeIdempotent(classes: seq<string>, dark: bool)
    ensures ApplyTheme(ApplyTheme(classes, dark), dark) == ApplyTheme(classes, dark)
  {
    if !dark {
      var r := WithoutClass(classes, Dark);
      assert forall i :: 0 <= i < |r| ==> r[i] != Dark;
      Lists.FilterKeepsAll(r, x => x != Dark);
    }
  }

  /**
   * Toggling twice from a mirrored state restores which classes are
   * present, though not always their order: a removed `dark` comes back at
   * the end.
   */
  lemma ToggleTwiceRestoresClasses(classes: seq<string>, isDarkMode: bool)
    requires Mirrors(isDarkMode, classes)
    ensures forall x :: x in ApplyTheme(ApplyTheme(classes, !isDarkMode), isDarkMode) <==> x in classes
  {
  }

  /** The order can change: with `dark` first, toggling off and on moves it to the end. */
  lemma ToggleTwiceCanReorder()
    ensures ApplyTheme(ApplyTheme([Dark, "x"], false), true) == ["x", Dark]
  {
    var others := (x: string) => x != Dark;
    assert [Dark, "x"][1..] == ["x"] && ["x"][1..] == [];
    assert Lists.Filter(["x"], others) == ["x"] + Lists.Filter([], others);
    assert Lists.Filter([Dark, "x"], others) == ["x"];
  }

  /** `document.documentElement.classList`. */
  class ClassList {
    var classes: seq<string>

    constructor (classes: seq<string>)
      ensures this.classes == classes
    {
      this.classes := classes;
    }

    method Add(c: string)
      modifies this
      ensures classes == WithClass(old(classes), c)
    {
      if c !in classes {
        classes := classes + [c];
      }
    }

    method Remove(c: string)
      modifies this
      ensures classes == WithoutClass(old(classes), c)
    {
      classes := WithoutClass(classes, c);
    }
  }

  /** The store's state; `persist` saves it under `StorageName`. */
  class Store {
    var isDarkMode: bool

    const StorageName: string

    /** The initial state (line 7): light mode; the class list is not touched. */
    constructor ()
      ensures !isDarkMode && StorageName == "theme-storage"
    {
      isDarkMode := false;
      StorageName := "theme-storage";
    }

    /** `toggleTheme` (lines 9-19): flip the flag and make the class list follow it. */
    method ToggleTheme(document: ClassList)
      modifies this, document
      ensures isDarkMode == !old(isDarkMode)
      ensures document.classes == ApplyTheme(old(document.classes), isDarkMode)
      ensures Mirrors(isDarkMode, document.classes)
    {
      var newMode := !isDarkMode;
      if newMode {
        document.Add(Dark);
      } else {
        document.Remove(Dark);
      }
      isDarkMode := newMode;
    }

    /** `setTheme(isDark)` (lines 21-28): take the given flag and make the class list follow it. */
    method SetTheme(isDark: bool, document: ClassList)
      modifies this, document
      ensures isDarkMode == isDark
      ensures document.classes == ApplyTheme(old(document.classes), isDark)
      ensures Mirrors(isDarkMode, document.classes)
    {
      isDarkMode := isDark;
      if isDark {
        document.Add(Dark);
      } else {
        document.Remove(Dark);
      }
    }

    /**
     * Rehydration (lines 32-35): the store takes the saved flag (`state` is
     * the rehydrated state's `isDarkMode`, `None` when there is no state),
     * and the callback adds `dark` when it is set. It never removes `dark`.
     */
    method Rehydrate(state: Option<bool>, document: ClassList)
      modifies this, document
      ensures isDarkMode == state.GetOr(old(isDarkMode))
      ensures document.classes == if state == Some(true) then WithClass(old(document.classes), Dark) else old(document.classes)
      ensures Dark in old(document.classes) ==> Dark in document.classes
    {
      if state.Some? {
        isDarkMode := state.value;
      }
      if state.Some? && state.value {
        document.Add(Dark);
      }
    }
  }
}
