// The user table of the admin dashboard: toggling a user's status, deleting
// a user after confirmation, and the search filter.

module AdminDashboard {
  import opened Text
  import opened Aggregation

  datatype ListedUser = ListedUser(
    id: int,
    name: string,
    email: string,
    role: string,
    status: string,
    bpNumber: string,
    joinDate: string)

  /** `status === 'active' ? 'inactive' : 'active'`. */
  function Flipped(status: string): (r: string)
    ensures r == "active" || r == "inactive"
    ensures r == "inactive" <==> status == "active"
  {
    if status == "active" then "inactive" else "active"
  }

  function Toggled(u: ListedUser, id: int): ListedUser {
    if u.id == id then u.(status := Flipped(u.status)) else u
  }

  /**
   * `toggleUserStatus`: the users with the id get the other status, every
   * other user is kept, and the list keeps its length and order.
   */
  function ToggleUserStatus(users: seq<ListedUser>, id: int): (r: seq<ListedUser>)
    ensures |r| == |users|
    ensures forall i :: 0 <= i < |users| && users[i].id != id ==> r[i] == users[i]
    ensures forall i :: 0 <= i < |users| && users[i].id == id ==>
              r[i] == users[i].(status := Flipped(users[i].status))
  {
    if users == [] then [] else [Toggled(users[0], id)] + ToggleUserStatus(users[1..], id)
  }

  /** The statuses the table shows. */
  predicate KnownStatus(u: ListedUser) {
    u.status == "active" || u.status == "inactive"
  }

  /** Toggling the same id twice restores a list whose users with that id are active or inactive. */
  lemma ToggleTwiceRestores(users: seq<ListedUser>, id: int)
    requires forall i :: 0 <= i < |users| && users[i].id == id ==> KnownStatus(users[i])
    ensures ToggleUserStatus(ToggleUserStatus(users, id), id) == users
  {
    var once := ToggleUserStatus(users, id);
    var twice := ToggleUserStatus(once, id);
    forall i | 0 <= i < |users|
      ensures twice[i] == users[i]
    {
      if users[i].id == id {
        assert once[i] == users[i].(status := Flipped(users[i].status));
      }
    }
  }

  /** Any other status is not restored: one toggle makes it "active", the next "inactive". */
  lemma ToggleNormalisesUnknownStatus(u: ListedUser)
    requires !KnownStatus(u)
    ensures ToggleUserStatus(ToggleUserStatus([u], u.id), u.id) == [u.(status := "inactive")]
  {
    assert ToggleUserStatus([u], u.id)[0] == u.(status := "active");
  }

  function OtherThan(id: int): ListedUser -> bool {
    (u: ListedUser) => u.id != id
  }

  /**
   * `deleteUser`: when the dialog is confirmed, the users with the id are
   * removed and the others kept in order; otherwise the list is unchanged.
   */
  function DeleteUser(users: seq<ListedUser>, id: int, confirmed: bool): (r: seq<ListedUser>)
    ensures !confirmed ==> r == users
    ensures confirmed ==> forall u :: u in r <==> u in users && u.id != id
    ensures confirmed ==> Subsequence(r, users)
    ensures confirmed ==> |r| == Count(users, OtherThan(id))
  {
    if confirmed then
      WhereSubsequence(users, OtherThan(id));
      Where(users, OtherThan(id))
    else users
  }

  /** Deleting an id nobody has changes nothing. */
  lemma DeleteAbsentId(users: seq<ListedUser>, id: int)
    requires forall i :: 0 <= i < |users| ==> users[i].id != id
    ensures DeleteUser(users, id, true) == users
  {
    WhereAll(users, OtherThan(id));
  }

  /** The search: the lower-cased query occurs in the lower-cased name, e-mail or BP number. */
  predicate MatchesQuery(u: ListedUser, query: string) {
    var q := ToLower(query);
    Contains(ToLower(u.name), q) || Contains(ToLower(u.email), q) || Contains(ToLower(u.bpNumber), q)
  }

  function Matching(query: string): ListedUser -> bool {
    (u: ListedUser) => MatchesQuery(u, query)
  }

  /** `filteredUsers`: the users the query matches, in the list's order. */
  function FilteredUsers(users: seq<ListedUser>, query: string): (r: seq<ListedUser>)
    ensures forall u :: u in r <==> u in users && MatchesQuery(u, query)
    ensures Subsequence(r, users)
    ensures |r| == Count(users, Matching(query))
  {
    WhereSubsequence(users, Matching(query));
    Where(users, Matching(query))
  }

  /** An empty search box lists every user. */
  lemma EmptyQueryKeepsAll(users: seq<ListedUser>)
    ensures FilteredUsers(users, "") == users
  {
    forall i | 0 <= i < |users|
      ensures Matching("")(users[i])
    {
      ContainsEmpty(ToLower(users[i].name));
    }
    WhereAll(users, Matching(""));
  }
}
