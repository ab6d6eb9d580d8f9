/**
 * The user list of src/pages/Users.jsx: the search filter and the list
 * updates after a fetch, a delete, an edit and a create. Each update is a
 * new list; the outcome of the network call arrives as the `{data, error}`
 * record that `apiService` returns.
 */
module Users {
  import opened JsValues
  import Strings
  import Lists
  import Sanitizer
  import Api

  /** A user record; `extra` holds its other fields (address, company, website, ...). */
  datatype User = User(id: int, name: string, email: string, phone: string, extra: seq<(string, JsValue)>)

  /** The three values the user form submits. */
  datatype UserForm = UserForm(name: string, email: string, phone: string)

  /** The search test: the query, lower-cased, occurs in the lower-cased name or e-mail. */
  predicate Matches(u: User, query: string)
  {
    Strings.Contains(Strings.ToLower(u.name), Strings.ToLower(query)) ||
    Strings.Contains(Strings.ToLower(u.email), Strings.ToLower(query))
  }

  /** `filteredUsers` (lines 43-46): the users that match the query, in their order. */
  function FilteredUsers(users: seq<User>, query: string): (r: seq<User>)
    ensures forall u :: multiset(r)[u] == if Matches(u, query) then multiset(users)[u] else 0
    ensures Lists.IsSubsequence(r, users)
  {
    Lists.FilterIsSubsequence(users, u => Matches(u, query));
    Lists.Filter(users, u => Matches(u, query))
  }

  /** An empty query keeps every user. */
  lemma EmptyQueryKeepsAll(users: seq<User>)
    ensures FilteredUsers(users, "") == users
  {
    forall i | 0 <= i < |users|
      ensures Matches(users[i], "")
    {
      assert Strings.ToLower("") == "";
      assert "" <= Strings.ToLower(users[i].name);
    }
    Lists.FilterKeepsAll(users, u => Matches(u, ""));
  }

  /** The search ignores the case of the query's ASCII letters. */
  lemma QueryCaseIgnored(users: seq<User>, query: string)
    ensures FilteredUsers(users, query) == FilteredUsers(users, Strings.ToLower(query))
  {
    Strings.ToLowerIdempotent(query);
    Lists.FilterSamePredicate(users, u => Matches(u, query), u => Matches(u, Strings.ToLower(query)));
  }

  /** `fetchUsers` (lines 32-41): a list that arrived replaces the old one; `null` leaves it. */
  function FetchUsers(users: seq<User>, data: Option<seq<User>>): (r: seq<User>)
    ensures data.Some? ==> r == data.value
    ensures data.None? ==> r == users
  {
    match data
    case Some(fetched) => fetched
    case None => users
  }

  /** The resource path of one user. */
  function UserUrl(id: int): (url: string)
    ensures |url| > 7 && url[..7] == "/users/" && Strings.ParseInt(url[7..]) == id
    ensures url[7..] == Strings.IntToString(id)
  {
    var url := "/users/" + Strings.IntToString(id);
    assert url[7..] == Strings.IntToString(id);
    url
  }

  /**
   * `handleDeleteUser(id)` (lines 60-67): when the user confirms and the
   * DELETE call reports no error, every user with that id goes; otherwise
   * the list is unchanged.
   */
  function DeleteUser(users: seq<User>, id: int, confirmed: bool, result: Api.ApiResult): (r: seq<User>)
    ensures !confirmed || Truthy(result.error) ==> r == users
    ensures confirmed && !Truthy(result.error) ==>
      forall u :: multiset(r)[u] == if u.id != id then multiset(users)[u] else 0
    ensures Lists.IsSubsequence(r, users)
  {
    if confirmed && !Truthy(result.error) then
      Lists.FilterIsSubsequence(users, (u: User) => u.id != id);
      Lists.Filter(users, (u: User) => u.id != id)
    else
      Lists.SubsequenceOfItself(users);
      users
  }

  /** The submitted form with each field passed through `sanitizeInput` (lines 71-75). */
  function SanitizeForm(form: UserForm): (s: UserForm)
    ensures s.name == Sanitizer.Escape(form.name) && Sanitizer.Unescape(s.name) == form.name
    ensures s.email == Sanitizer.Escape(form.email) && Sanitizer.Unescape(s.email) == form.email
    ensures s.phone == Sanitizer.Escape(form.phone) && Sanitizer.Unescape(s.phone) == form.phone
    ensures Sanitizer.FreeOfMarkup(s.name) && Sanitizer.FreeOfMarkup(s.email) && Sanitizer.FreeOfMarkup(s.phone)
  {
    UserForm(
      Sanitizer.Sanitize(JStr(form.name)).s,
      Sanitizer.Sanitize(JStr(form.email)).s,
      Sanitizer.Sanitize(JStr(form.phone)).s)
  }

  /** What a form submission sends: PUT to the user being edited, or POST to the list, with the sanitised fields. */
  function SubmitRequest(editing: Option<User>, form: UserForm): (r: (Api.HttpMethod, string, UserForm))
    ensures r.2 == SanitizeForm(form)
    ensures editing.Some? ==> r.0 == Api.Put && r.1 == UserUrl(editing.value.id)
    ensures editing.None? ==> r.0 == Api.Post && r.1 == "/users"
  {
    match editing
    case Some(u) => (Api.Put, UserUrl(u.id), SanitizeForm(form))
    case None => (Api.Post, "/users", SanitizeForm(form))
  }

  /** The edit (line 81): users with the edited id take the form's fields; everything else stays. */
  function EditUsers(users: seq<User>, id: int, fields: UserForm): (r: seq<User>)
    ensures |r| == |users|
    ensures forall i :: 0 <= i < |users| ==> r[i].id == users[i].id && r[i].extra == users[i].extra
    ensures forall i :: 0 <= i < |users| && users[i].id != id ==> r[i] == users[i]
    ensures forall i :: 0 <= i < |users| && users[i].id == id ==>
      r[i].name == fields.name && r[i].email == fields.email && r[i].phone == fields.phone
  {
    seq(|users|, i requires 0 <= i < |users| =>
      if users[i].id == id then users[i].(name := fields.name, email := fields.email, phone := fields.phone)
      else users[i])
  }

  /** The create (line 87): one user appended, numbered one past the old length. */
  function AppendUser(users: seq<User>, fields: UserForm): (r: seq<User>)
    ensures |r| == |users| + 1 && r[..|users|] == users
    ensures r[|users|] == User(|users| + 1, fields.name, fields.email, fields.phone, [])
  {
    users + [User(|users| + 1, fields.name, fields.email, fields.phone, [])]
  }

  /**
   * `onSubmit` (lines 69-93): after the PUT or POST, a result without a
   * truthy error applies the edit or the create with the sanitised fields;
   * a failed call leaves the list as it was.
   */
  function Submit(users: seq<User>, editing: Option<User>, form: UserForm, result: Api.ApiResult): (r: seq<User>)
    ensures Truthy(result.error) ==> r == users
    ensures !Truthy(result.error) && editing.Some? ==> r == EditUsers(users, editing.value.id, SanitizeForm(form))
    ensures !Truthy(result.error) && editing.None? ==> r == AppendUser(users, SanitizeForm(form))
  {
    if Truthy(result.error) then users
    else match editing
      case Some(u) => EditUsers(users, u.id, SanitizeForm(form))
      case None => AppendUser(users, SanitizeForm(form))
  }

  /** Numbering by length does not keep ids unique: delete user 1 of two, create, and id 2 appears twice. */
  lemma CreatedIdCanRepeat(form: UserForm)
    ensures var before := [User(1, "a", "a", "1", []), User(2, "b", "b", "2", [])];
      var after := AppendUser(DeleteUser(before, 1, true, Api.ApiResult(JNull, JNull)), form);
      |after| == 2 && after[0].id == 2 && after[1].id == 2
  {
    var before := [User(1, "a", "a", "1", []), User(2, "b", "b", "2", [])];
    var kept := Lists.Filter(before, (u: User) => u.id != 1);
    assert before[1..][1..] == [];
    assert kept == [before[1]];
  }
}
