/**
 * `usePageTitle` of src/hooks/usePageTitle.js: the title of the current
 * route, looked up in a fixed table, with one fallback for the hook's
 * return value and a different one for the browser tab's title.
 */
module PageTitle {
  import opened JsValues

  /** `pageTitles` (lines 4-11). */
  const PageTitles: map<string, string> := map[
    "/" := "Dashboard",
    "/users" := "Users Management",
    "/analytics" := "Analytics",
    "/data-grid" := "Data Grid",
    "/settings" := "Settings",
    "/login" := "Login"
  ]

  const AppName := "Admin Dashboard"
  const Separator := " | "

  /** `pageTitles[path]`: the entry, or `undefined`. */
  function Lookup(path: string): (r: Option<string>)
    ensures r.Some? <==> path in PageTitles
    ensures r.Some? ==> r.value == PageTitles[path]
  {
    if path in PageTitles then Some(PageTitles[path]) else None
  }

  /** `x || fallback` where `x` is a string or `undefined`. */
  function OrElse(x: Option<string>, fallback: string): (r: string)
    ensures x.Some? && x.value != "" ==> r == x.value
    ensures x.None? || x.value == "" ==> r == fallback
  {
    if x.Some? && x.value != "" then x.value else fallback
  }

  /** Every entry of the table is a non-empty string, so `||` only falls back for a path not in it. */
  lemma EntriesAreTruthy()
    ensures forall path :: path in PageTitles ==> PageTitles[path] != ""
  {
  }

  /** What the hook returns (line 21): the table's title, or `Dashboard`. */
  function UsePageTitle(path: string): (title: string)
    ensures path in PageTitles ==> title == PageTitles[path]
    ensures path !in PageTitles ==> title == "Dashboard"
  {
    EntriesAreTruthy();
    OrElse(Lookup(path), "Dashboard")
  }

  /** The text after the page's title, and the whole fallback title. */
  lemma TitleSuffix()
    ensures Separator + AppName == " | Admin Dashboard"
    ensures AppName + " | Admin Dashboard" == "Admin Dashboard | Admin Dashboard"
  {
  }

  /** What the hook writes to `document.title` (lines 17-18): the table's title or `Admin Dashboard`, then ` | Admin Dashboard`. */
  function DocumentTitle(path: string): (title: string)
    ensures path in PageTitles ==> title == PageTitles[path] + " | Admin Dashboard"
    ensures path !in PageTitles ==> title == "Admin Dashboard | Admin Dashboard"
  {
    EntriesAreTruthy();
    TitleSuffix();
    var head := OrElse(Lookup(path), AppName);
    assert head + Separator + AppName == head + (Separator + AppName);
    head + Separator + AppName
  }

  /** For a known path, the tab title is the hook's title followed by the application name. */
  lemma KnownPathTitlesAgree(path: string)
    requires path in PageTitles
    ensures DocumentTitle(path) == UsePageTitle(path) + " | Admin Dashboard"
  {
  }

  /** For an unknown path the two fallbacks differ: the tab does not show the title the hook returns. */
  lemma UnknownPathTitlesDiffer(path: string)
    requires path !in PageTitles
    ensures DocumentTitle(path) != UsePageTitle(path) + " | Admin Dashboard"
  {
    assert DocumentTitle(path)[0] == 'A';
    assert (UsePageTitle(path) + " | Admin Dashboard")[0] == 'D';
  }
}
