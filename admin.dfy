/** The administrator's user table: the user list kept in step with the
    server, and the table's filter by a case-insensitive search over
    username, email and full name, optionally narrowed to one subscription plan. */
module AdminDashboard {
  import opened Common

  /** A user record; the searched fields and the plan may be missing. */
  datatype User = User(id: string, username: Option<string>, email: Option<string>, fullName: Option<string>,
                       subscriptionPlan: Option<string>, role: string)

  /** `field?.toLowerCase().includes(term.toLowerCase())`: a missing field never matches. */
  predicate FieldMatches(field: Option<string>, searchTerm: string)
  {
    field.Some? && MatchesIgnoringCase(field.value, searchTerm)
  }

  /** `matchesSearch`. */
  predicate MatchesSearch(user: User, searchTerm: string)
  {
    FieldMatches(user.username, searchTerm) || FieldMatches(user.email, searchTerm) ||
    FieldMatches(user.fullName, searchTerm)
  }

  /** The table keeps a user when the search matches and, unless the plan
      filter is 'all', the user's plan is the one chosen. */
  predicate UserShown(user: User, searchTerm: string, filterStatus: string)
  {
    MatchesSearch(user, searchTerm) && (filterStatus == "all" || user.subscriptionPlan == Some(filterStatus))
  }

  /** `filteredUsers`. */
  function FilteredUsers(users: seq<User>, searchTerm: string, filterStatus: string): (r: seq<User>)
    ensures Subseq(r, users)
    ensures filterStatus == "all" ==> forall u :: u in r <==> u in users && MatchesSearch(u, searchTerm)
    ensures filterStatus != "all" ==>
              forall u :: u in r <==> u in users && MatchesSearch(u, searchTerm) &&
                                      u.subscriptionPlan == Some(filterStatus)
  {
    FilterIsSubseq(users, (u: User) => UserShown(u, searchTerm, filterStatus));
    Filter(users, (u: User) => UserShown(u, searchTerm, filterStatus))
  }

  /** An empty search lists every user that has at least one of the searched fields. */
  lemma EmptySearchListsUsersWithAField(users: seq<User>)
    ensures forall u :: u in FilteredUsers(users, "", "all") <==>
      u in users && (u.username.Some? || u.email.Some? || u.fullName.Some?)
  {
    assert ToLower("") == "";
    forall u | u in users && (u.username.Some? || u.email.Some? || u.fullName.Some?)
      ensures MatchesSearch(u, "")
    {
      if u.username.Some? {
        EmptyTermMatches(ToLower(u.username.value));
      } else if u.email.Some? {
        EmptyTermMatches(ToLower(u.email.value));
      } else {
        EmptyTermMatches(ToLower(u.fullName.value));
      }
    }
  }

  /** A narrower plan filter lists a subset of what 'all' lists. */
  lemma PlanFilterNarrows(users: seq<User>, searchTerm: string, plan: string, u: User)
    requires u in FilteredUsers(users, searchTerm, plan)
    ensures u in FilteredUsers(users, searchTerm, "all")
  {
  }

  /** A newly added user is listed after the users already listed, if it passes the filter. */
  lemma AddedUserListedLast(users: seq<User>, added: User, searchTerm: string, filterStatus: string)
    ensures FilteredUsers(users + [added], searchTerm, filterStatus) ==
      FilteredUsers(users, searchTerm, filterStatus) +
      (if UserShown(added, searchTerm, filterStatus) then [added] else [])
  {
    FilterAppend(users, [added], (u: User) => UserShown(u, searchTerm, filterStatus));
  }

  /** `users.map(user => user._id === userId ? saved : user)`. */
  function ReplacedUser(users: seq<User>, userId: string, saved: User): (r: seq<User>)
    ensures |r| == |users|
    ensures forall i :: 0 <= i < |users| ==> r[i] == if users[i].id == userId then saved else users[i]
  {
    MapWhere(users, (u: User) => u.id == userId, (u: User) => saved)
  }

  /** `users.filter(user => user._id !== userId)`. */
  function WithoutUser(users: seq<User>, userId: string): (r: seq<User>)
    ensures forall u :: u in r <==> u in users && u.id != userId
    ensures Subseq(r, users)
  {
    FilterIsSubseq(users, (u: User) => u.id != userId);
    Filter(users, (u: User) => u.id != userId)
  }

  class UserTable {
    var users: seq<User>

    constructor ()
      ensures users == []
    {
      users := [];
    }

    /** `handleAddUser`: the server's record goes at the end. */
    method AddUser(saved: Option<User>)
      modifies this
      ensures users == if saved.Some? then old(users) + [saved.value] else old(users)
    {
      if saved.Some? {
        users := users + [saved.value];
      }
    }

    /** `handleUpdateUser`: the server's record replaces the users with that id. */
    method UpdateUser(userId: string, saved: Option<User>)
      modifies this
      ensures users == if saved.Some? then ReplacedUser(old(users), userId, saved.value) else old(users)
    {
      if saved.Some? {
        users := ReplacedUser(users, userId, saved.value);
      }
    }

    /** `handleDeleteUser`. */
    method DeleteUser(userId: string, ok: bool)
      modifies this
      ensures users == if ok then WithoutUser(old(users), userId) else old(users)
    {
      if ok {
        users := WithoutUser(users, userId);
      }
    }
  }
}
