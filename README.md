# Admin console core, modelled in Dafny

This project models the parts of a React admin console that hold logic of their own:

- **Request pipeline** (`src/utils/api.js`). The request stage adds `Authorization: Bearer <token>` when the session holds a token. It adds `X-CSRF-Token` when the page's CSRF meta tag has non-empty `content`. The response stage classifies a failure by status. A 401 logs the session out and sends the browser to `/login`. `apiService` turns every outcome into a `{data, error}` record and never throws.
- **Input sanitiser** (`sanitizeInput`). Six chained replacements, `&` first.
- **CSV export and row removal** (`src/pages/DataGrid.jsx`).
- **User list operations** (`src/pages/Users.jsx`): search, fetch, delete, edit and create.
- **Theme store** (`src/store/useThemeStore.js`). A dark-mode flag and the `dark` class on the document root.
- **Chunk classifier** (`manualChunks` in `vite.config.js`).
- **Page-title lookup** (`src/hooks/usePageTitle.js`).

Files and modules:

| file | module | models |
|---|---|---|
| `js_values.dfy` | `JsValues` | JavaScript values, truthiness, `join` stringification |
| `strings.dfy` | `Strings` | `join`, `includes`, ASCII `toLowerCase`, `String(n)`; a `Split` used only to state properties of the CSV text |
| `lists.dfy` | `Lists` | `Array.prototype.filter` |
| `sanitizer.dfy` | `Sanitizer` | `sanitizeInput` |
| `api.dfy` | `Api` | interceptors, `apiService`, the session's token and `logout()` |
| `data_grid.dfy` | `DataGrid` | `convertToCSV`, `handleDelete` |
| `users.dfy` | `Users` | `filteredUsers`, `fetchUsers`, `handleDeleteUser`, `onSubmit` |
| `theme_store.dfy` | `ThemeStore` | `useThemeStore` |
| `chunks.dfy` | `Chunks` | `manualChunks` |
| `page_title.dfy` | `PageTitle` | `usePageTitle` |

State that the source changes in place is modelled with classes:

- the session (`Api.Session`);
- the request configuration whose headers the request stage assigns (`Api.RequestConfig`);
- `window.location` (`Api.Location`);
- the document's class list (`ThemeStore.ClassList`);
- the theme store (`ThemeStore.Store`).

Code built from `filter`, `map` and spreads is modelled with functions. `convertToCSV` pushes lines inside a `for` loop, so it is a method with a loop.

The network is a parameter of `Api.Send`: a function from the request that was sent to its outcome. The CSRF meta tag's content is a parameter too.

Behaviour worth knowing:

- Only status 500 is a server error. Statuses 501 to 599 take the `default` branch (`Api.OnlyFiveHundredIsServerError`).
- `apiService` puts no error kind in the result. `error` is the error response's body when that body is truthy, and the client's message otherwise.
- A success whose body is `null` gives a record with both fields `null` (`Api.NullBodyGivesTwoNulls`). So `data` and `error` are not always exactly one null and one non-null.
- `sanitizeInput` also escapes `/`. So `<script>a&b</script>` becomes `&lt;script&gt;a&amp;b&lt;&#x2F;script&gt;` (`Sanitizer.ScriptTagExample`).
- A request sent without a token still carries an `Authorization` header if the caller supplied one. Only a present token overrides the caller's header (`Api.NoTokenNoAuthorization`, `Api.TokenOverridesCaller`).

## Model

| member | source | states |
|---|---|---|
| `Sanitizer.Sanitize` | src/utils/api.js:76-87 | A string becomes the one-pass escape of itself. The result holds none of `<`, `>`, `"`, `'`, `/`, and decoding its entities gives back the input. Any other value is returned unchanged. |
| `Sanitizer.ChainIsSinglePass` | src/utils/api.js:78-84 | The six chained global replacements equal one left-to-right map: `&`→`&amp;`, `<`→`&lt;`, `>`→`&gt;`, `"`→`&quot;`, `'`→`&#x27;`, `/`→`&#x2F;`, all other characters unchanged. |
| `Sanitizer.ChainOnChar` | src/utils/api.js:78-84 | On a single character the chain yields exactly that character's entity. This holds because `&` is replaced first and no entity contains a character replaced later. |
| `Sanitizer.ChainConcat` | src/utils/api.js:78-84 | The replacement chain distributes over concatenation. |
| `Sanitizer.EscapeIsFreeOfMarkup` | src/utils/api.js:80-84 | No escaped text contains `<`, `>`, `"`, `'` or `/`. |
| `Sanitizer.UnescapeEscape` | src/utils/api.js:78-84 | Escaping loses nothing: decoding the six entities restores the original text. |
| `Sanitizer.NotIdempotent` | src/utils/api.js:79-80 | Sanitising is not idempotent: `<` becomes `&lt;`, and a second pass gives `&amp;lt;`. |
| `Sanitizer.ScriptTagExample` | src/utils/api.js:78-84 | `<script>a&b</script>` becomes `&lt;script&gt;a&amp;b&lt;&#x2F;script&gt;`. |
| `Api.Augment` | src/utils/api.js:16-26 | With a non-empty token, `Authorization` is `Bearer ` + token, overwriting any earlier value; otherwise it is as before. `X-CSRF-Token` is set exactly when the CSRF content is non-empty, and is otherwise as before. Every other header is unchanged. |
| `Api.InterceptRequest` | src/utils/api.js:14-29 | Updates the configuration's headers in place to `Augment` of the old headers, the session token and the CSRF content. It returns the same configuration object and leaves the method, URL and payload unchanged. |
| `Api.NoTokenNoAuthorization` | src/utils/api.js:18-20 | Without a non-empty token, and with no `Authorization` from the caller, the sent request has no `Authorization` header. |
| `Api.TokenOverridesCaller` | src/utils/api.js:18-20 | With a non-empty token, the sent `Authorization` is `Bearer ` + token, whatever the caller supplied. |
| `Api.AugmentIdempotent` | src/utils/api.js:14-28 | Running the request stage twice gives the same headers as running it once. |
| `Api.RequestConfig.constructor` | src/utils/api.js:5-11 | A call's headers are the instance default `Content-Type: application/json` overlaid with the caller's headers. |
| `Api.Classify` | src/utils/api.js:41-69 | A failure is classified by exact status: 401, 403, 404 and 500 each get their own branch, and every other status the default. A failure with no response is a network error; anything else is an other-error. Each of these holds in both directions. |
| `Api.OnlyFiveHundredIsServerError` | src/utils/api.js:57-62 | Among statuses 500-599, only 500 is a server error; 501-599 take the default branch. |
| `Api.InterceptError` | src/utils/api.js:40-72 | The same failure is rejected again. The session token is cleared, and `location.href` becomes `/login`, exactly when the status is 401. Otherwise both are unchanged. |
| `Api.Session.Logout` | src/utils/api.js:46 | After `logout()` the session holds no token. |
| `Api.Normalize` | src/utils/api.js:92-139 | On success, `data` is the body and `error` is null. On failure, `data` is null and `error` is non-null: the error response's body when truthy, else the client's message. |
| `Api.ErrorNullIffSuccess` | src/utils/api.js:95-97 | `error` is null exactly when the call succeeded. |
| `Api.FailureIsTruthy` | src/utils/api.js:97 | A failure with a non-empty message always yields a truthy `error`. |
| `Api.NullBodyGivesTwoNulls` | src/utils/api.js:95 | A success with a null body yields `data` and `error` both null. |
| `Api.Send` | src/utils/api.js:14-139 | One `apiService` call. The request sent carries the augmented headers of the session token before the call. The result is the normalised outcome of that request. A 401 clears the session and redirects to `/login`; any other outcome changes neither. |
| `DataGrid.ConvertToCsv` | src/pages/DataGrid.jsx:127-144 | Missing or empty data gives `""`. Otherwise the result is the header line, then one line per row, joined by `\n` with no trailing newline. |
| `DataGrid.CsvLines` | src/pages/DataGrid.jsx:133-141 | There are n+1 lines: line 0 is the columns joined by `,`, and line i+1 is row i's cells joined by `,`. |
| `DataGrid.RowLines` | src/pages/DataGrid.jsx:135-141 | One line per row, in row order. |
| `DataGrid.Headers` | src/pages/DataGrid.jsx:130 | The columns are exactly the first row's keys other than `address` and `company`, each with the multiplicity it has among the keys (once, for a JavaScript object), kept in their order. |
| `DataGrid.OnlyFirstRowKeys` | src/pages/DataGrid.jsx:130 | A key the first row lacks is never a column. |
| `DataGrid.Get` | src/pages/DataGrid.jsx:137 | `row[key]` on the row's own properties: `undefined` when no entry has the key, otherwise the value of the first entry with that key. |
| `DataGrid.Cells` | src/pages/DataGrid.jsx:136-139 | Each row has exactly one cell per column, in column order, each the cell of that row's value for the column. |
| `DataGrid.Cell` | src/pages/DataGrid.jsx:138 | A string is written in double quotes, verbatim. Any other value is written as `join` writes it: nothing for null and undefined, digits for a number. |
| `DataGrid.CsvLineStructure` | src/pages/DataGrid.jsx:135-143 | When no column name or string value holds a newline, splitting the export at `\n` gives back exactly its n+1 lines. |
| `DataGrid.RowLineFields` | src/pages/DataGrid.jsx:136-140 | When there is a column and no string value holds a comma, each row line splits at `,` into exactly one cell per column. |
| `DataGrid.CellIsRfcFieldIff` | src/pages/DataGrid.jsx:138 | A string cell matches section 2 of RFC 4180 (embedded quotes doubled) exactly when the string holds no double quote. |
| `DataGrid.DeleteRow` | src/pages/DataGrid.jsx:161-168 | Without confirmation nothing changes. With confirmation, every row whose `id` strictly equals the target's is removed, the other rows are kept with their multiplicity, and order is preserved. |
| `Users.FilteredUsers` | src/pages/Users.jsx:43-46 | A user is kept exactly when the lower-cased query occurs in the lower-cased name or e-mail. The result is an order-preserving subsequence. |
| `Users.EmptyQueryKeepsAll` | src/pages/Users.jsx:43-46 | An empty query keeps every user. |
| `Users.QueryCaseIgnored` | src/pages/Users.jsx:43-46 | A query and its lower-cased form select the same users. |
| `Users.FetchUsers` | src/pages/Users.jsx:32-41 | A fetched list replaces the old one; a null `data` leaves the old one. |
| `Users.UserUrl` | src/pages/Users.jsx:63 | A user's path is `/users/` followed by `String(id)`: its canonical decimal numeral, with a minus sign for a negative id and no leading zero, which parses back to the id. |
| `Strings.CanonicalNumeral` | src/pages/Users.jsx:63 | The decimal numeral is unique: any digit string without a leading zero that denotes n is `String(n)`. |
| `Users.DeleteUser` | src/pages/Users.jsx:60-67 | Without confirmation, or with a truthy `error`, the list is unchanged. Otherwise every user with the id is removed and the rest keep their multiplicity and order. |
| `Users.SanitizeForm` | src/pages/Users.jsx:70-75 | Each of name, e-mail and phone is the sanitised form of the input: free of markup characters, and decoding gives back the input. |
| `Users.SubmitRequest` | src/pages/Users.jsx:77-85 | An edit sends PUT to `/users/<id>`, and a create sends POST to `/users`. In both cases the payload is the sanitised form. |
| `Users.EditUsers` | src/pages/Users.jsx:81 | Length, ids and other fields are unchanged. Users with the edited id get the new name, e-mail and phone; all other users are unchanged. |
| `Users.AppendUser` | src/pages/Users.jsx:87 | Exactly one user is appended after the old list, with the sanitised fields and id equal to the old length + 1. |
| `Users.Submit` | src/pages/Users.jsx:69-93 | A truthy `error` leaves the list unchanged. Otherwise the edit or the create is applied with the sanitised fields. |
| `Users.CreatedIdCanRepeat` | src/pages/Users.jsx:87 | Ids are not unique. From users 1 and 2, deleting 1 and then creating gives two users with id 2. |
| `ThemeStore.WithClass` | src/store/useThemeStore.js:13 | `add`: afterwards the class is present, no other class appears or disappears, and an existing class leaves the list unchanged. |
| `ThemeStore.WithoutClass` | src/store/useThemeStore.js:15 | `remove`: afterwards the class is absent, every other class keeps its number of occurrences, and the rest keep their order. |
| `ThemeStore.ApplyTheme` | src/store/useThemeStore.js:12-16 | After the theme is applied, `dark` is present exactly when the flag is set. |
| `ThemeStore.OtherClassesUntouched` | src/store/useThemeStore.js:12-16 | Adding or removing `dark` leaves the other classes and their order unchanged. |
| `ThemeStore.ApplyThemeIdempotent` | src/store/useThemeStore.js:21-28 | Setting the same theme twice equals setting it once. |
| `ThemeStore.ToggleTwiceRestoresClasses` | src/store/useThemeStore.js:9-19 | From a mirrored state, toggling twice restores which classes are present. |
| `ThemeStore.ToggleTwiceCanReorder` | src/store/useThemeStore.js:12-16 | Toggling twice need not restore the order: a removed `dark` returns at the end. |
| `ThemeStore.ClassList.Add` | src/store/useThemeStore.js:13 | `classList.add` changes the list to `WithClass` of the old list. |
| `ThemeStore.ClassList.Remove` | src/store/useThemeStore.js:15 | `classList.remove` changes the list to `WithoutClass` of the old list. |
| `ThemeStore.Store.constructor` | src/store/useThemeStore.js:7 | The initial flag is false; the storage name is `theme-storage`. |
| `ThemeStore.Store.ToggleTheme` | src/store/useThemeStore.js:9-19 | The flag is negated, and the class list then mirrors the new flag. |
| `ThemeStore.Store.SetTheme` | src/store/useThemeStore.js:21-28 | The flag becomes the argument, and the class list then mirrors it. |
| `ThemeStore.Store.Rehydrate` | src/store/useThemeStore.js:30-36 | The store takes the rehydrated flag. `dark` is added when that flag is true, and rehydration never removes `dark`. |
| `Chunks.FirstMatch` | vite.config.js:25-54 | The result is undefined exactly when no test succeeds. Otherwise it is the chunk of a test that succeeds, all of whose predecessors fail. |
| `Chunks.ManualChunks` | vite.config.js:25-54 | The result is undefined or one of the seven chunk names. |
| `Chunks.ReactFirst` | vite.config.js:27-29 | Any id containing `react` goes to `react-vendor`. |
| `Chunks.ReactPatternsShadowed` | vite.config.js:27-44 | Ids containing `react-dom`, `react-router`, `react-hook-form` or `lucide-react` all go to `react-vendor`. |
| `Chunks.ShadowedTestsAreDead` | vite.config.js:25-54 | Removing the `react-dom`, `react-router` and `react-hook-form` tests and the whole icons rule changes no result. |
| `Chunks.IconsUnreachable` | vite.config.js:43-45 | No id ever maps to `icons-vendor`. |
| `Chunks.DropFailingRule` | vite.config.js:25-54 | A test that fails for an id can be removed from the chain without changing that id's result. |
| `Chunks.FormVendor` | vite.config.js:39-41 | An id with `@hookform` or `zod`, and without `react`, `recharts` or `ag-grid`, goes to `form-vendor`. |
| `Chunks.UtilsVendor` | vite.config.js:51-53 | An id with `clsx`, `axios` or `sweetalert2`, and none of the earlier patterns, goes to `utils-vendor`. |
| `PageTitle.Lookup` | src/hooks/usePageTitle.js:4-11 | A path is found exactly when it is in the six-entry table, and then its entry is returned. |
| `PageTitle.EntriesAreTruthy` | src/hooks/usePageTitle.js:4-11 | Every table entry is a non-empty string, so `\|\|` falls back only for a path not in the table. |
| `PageTitle.UsePageTitle` | src/hooks/usePageTitle.js:21 | A known path returns its table entry, and an unknown path returns `Dashboard`. |
| `PageTitle.DocumentTitle` | src/hooks/usePageTitle.js:17-18 | The tab title is the table entry, or `Admin Dashboard` for an unknown path, followed by ` \| Admin Dashboard`. |
| `PageTitle.KnownPathTitlesAgree` | src/hooks/usePageTitle.js:17-21 | For a known path, the tab title is the hook's title + ` \| Admin Dashboard`. |
| `PageTitle.UnknownPathTitlesDiffer` | src/hooks/usePageTitle.js:17-21 | For an unknown path, the tab title is not the hook's title + ` \| Admin Dashboard`: the two fallbacks differ. |

## Left out

- The axios instance's base URL and 10-second timeout (src/utils/api.js:5-11). These are client configuration: a timeout reaches the model as a `NoResponse` outcome.
- The request stage's error handler (src/utils/api.js:30-32) passes a setup error on unchanged. Such an error reaches the model as a `RequestError` outcome.
- `console.error` output. Which log line a failure produces is the `FailureKind` that `Api.Classify` returns.
- The browser navigation that follows the assignment to `window.location.href`. Only the assignment is modelled.
- Promises, `async` scheduling and concurrent requests. Each call is one sequential step against the session.
- The session store module is not part of this model. Only its token and `logout()` are used here.
- `Api.Session.Logout`: states only that the token is cleared. What else the store's `logout()` resets is not visible.
- axios's built-in default headers (such as `Accept`) are not modelled. The request stage sees only the instance's `Content-Type` and the caller's headers.
- Header names are case-sensitive map keys. axios's header object compares names without regard to case.
- A successful response's status and headers. Only its body reaches `apiService`.
- `DataGrid.Get`: rows are records of their own properties only. A column the row lacks reads as `undefined`, whereas JavaScript also finds members inherited from `Object.prototype` (`constructor`, `toString`, `valueOf`, and `__proto__` as a key) and writes their text. A `null` element of the data, on which the source throws at `Object.keys` or at `row[header]`, cannot be represented.
- JavaScript numbers are unbounded integers here, with no fractions or `NaN`. Above 2^53 the source loses precision, and from 1e21 on `String(n)` switches to exponent form. `Users.UserUrl` and `DataGrid.Cell` write every integer as its plain decimal numeral. Objects and arrays are opaque references. An array in a CSV cell is written as `[object Object]`, whereas the source would write its elements.
- `toLowerCase` is modelled for ASCII letters only.
- A row's key order is the order `Object.keys` reports. It is given as the order of the row's entries.
- `Users.FetchUsers`: decoding the JSON body into user records is not modelled. The fetched list arrives already decoded, or as `None` for a null body.
- The key order inside a created or edited user record. Users are records with named fields.
- The confirmation dialogs (`confirm`, SweetAlert), the success toasts, `handleEdit` and `downloadCSV` in DataGrid.jsx. A confirmation is a boolean parameter.
- The zod form schema, React state hooks, rendering, and the other pages and components.
- The `persist` middleware's storage writes. Rehydration is modelled from the callback's view: the rehydrated flag is a parameter.
- The table lookup in usePageTitle.js reads a plain object. Properties inherited from `Object.prototype` never match a pathname, because every pathname starts with `/`, so the lookup is modelled as a map.
