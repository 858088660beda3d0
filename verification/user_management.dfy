/**
 * The administrator's user list: every user except the administrator looking at
 * it and other administrators, a username search, and the seller-status switch
 * whose row is disabled while its request is in flight.
 */
module UserManagement {
  import opened Wrappers
  import opened Text
  import opened Lists

  datatype User = User(id: int, username: string, role: string)

  /** The user-list request: an ok response with its users, a non-ok response, or a failure. */
  datatype UsersReply = UsersOk(users: seq<User>) | UsersNotOk | UsersFailed

  /** The role-change request sent for one row. */
  datatype RoleRequest = RoleRequest(userId: int, role: string)

  /**
   * The role-change request's outcome. The handler reads the JSON body before it
   * looks at `ok`, so an ok response whose body is not JSON throws into `catch`
   * and counts as `RoleFailed`.
   */
  datatype RoleReply = RoleSet | RoleRefused | RoleFailed

  const Seller: string := "seller"
  const Registered: string := "registered"
  const Admin: string := "admin"

  /** The role the switch asks for: a seller loses the status, every other role gains it. */
  function FlipRole(role: string): (r: string)
    ensures r == Registered <==> role == Seller
    ensures r == Seller <==> role != Seller
  {
    if role == Seller then Registered else Seller
  }

  /** On the two roles the switch moves between, switching twice is no change. */
  lemma FlipRoleInvolution(role: string)
    requires role == Seller || role == Registered
    ensures FlipRole(FlipRole(role)) == role
  {
  }

  /** Any other role is not restored: an administrator's role switched twice is "registered". */
  lemma FlipRoleNotInvolution()
    ensures FlipRole(FlipRole(Admin)) == Registered != Admin
  {
  }

  /** The row keeps an administrator out of the list, and `me` (the viewer's id). */
  predicate IsManageable(u: User, me: int) {
    u.id != me && u.role != Admin
  }

  /**
   * `data.users.filter((u) => u.id !== user.id && u.role !== "admin")`, where the
   * viewer `me` may be absent: the filter then throws as soon as it looks at a
   * user (`None`), and an empty list passes without a look.
   */
  function Manageable(all: seq<User>, me: Option<int>): (r: Option<seq<User>>)
    ensures r.None? <==> me.None? && all != []
    ensures r.Some? ==> forall u :: u in r.value <==> u in all && me.Some? && IsManageable(u, me.value)
    ensures r.Some? ==> forall u :: multiset(r.value)[u] == if me.Some? && IsManageable(u, me.value) then multiset(all)[u] else 0
    ensures r.Some? ==> IsSubsequence(r.value, all)
  {
    if me.None? then
      if all == [] then Some([]) else None
    else
      var keep := (u: User) => IsManageable(u, me.value);
      FilterCounts(all, keep);
      Some(Filter(all, keep))
  }

  /** The users whose username contains the search text, ignoring case, in list order. */
  function SearchUsers(users: seq<User>, text: string): (r: seq<User>)
    ensures forall u :: u in r <==> u in users && MatchesQuery(u.username, text)
    ensures forall u :: multiset(r)[u] == if MatchesQuery(u.username, text) then multiset(users)[u] else 0
    ensures IsSubsequence(r, users)
  {
    var matches := (u: User) => MatchesQuery(u.username, text);
    FilterCounts(users, matches);
    Filter(users, matches)
  }

  /** An empty search shows every user. */
  lemma EmptySearchShowsAll(users: seq<User>)
    ensures SearchUsers(users, "") == users
  {
    forall i | 0 <= i < |users| ensures MatchesQuery(users[i].username, "") {
      EmptyQueryMatches(users[i].username);
    }
    FilterKeepsAll(users, (u: User) => MatchesQuery(u.username, ""));
  }

  /** Searching a list already narrowed by the same text narrows it no further. */
  lemma {:induction false} SearchIdempotent(users: seq<User>, text: string)
    ensures SearchUsers(SearchUsers(users, text), text) == SearchUsers(users, text)
  {
    var r := SearchUsers(users, text);
    forall i | 0 <= i < |r| ensures MatchesQuery(r[i].username, text) {
      assert r[i] in r;
    }
    FilterKeepsAll(r, (u: User) => MatchesQuery(u.username, text));
  }

  /** The label of a row's switch. */
  function SwitchLabel(role: string): (r: string)
    ensures r == "Снять статус" <==> role == Seller
    ensures role != Seller ==> r == "Выдать статус"
  {
    if role == Seller then "Снять статус" else "Выдать статус"
  }

  class UserManagementScreen {
    /** The id of the logged-in user, when there is one. */
    const me: Option<int>
    var users: seq<User>
    var filteredUsers: seq<User>
    var loading: bool
    var updatingId: Option<int>
    var search: string

    /** The list holds manageable users only, and the shown list is drawn from it. */
    ghost predicate Valid()
      reads this
    {
      (forall u :: u in users ==> me.Some? && IsManageable(u, me.value))
      && (forall u :: u in filteredUsers ==> u in users)
    }

    constructor (me: Option<int>)
      ensures this.me == me
      ensures users == [] && filteredUsers == [] && loading && updatingId == None && search == ""
      ensures Valid()
    {
      this.me := me;
      users := [];
      filteredUsers := [];
      loading := true;
      updatingId := None;
      search := "";
    }

    /**
     * The user-list request settled. An ok list that the filter gets through
     * replaces both the list and the shown list (whatever the search box holds);
     * anything else keeps them. Loading ends either way.
     */
    method FetchSettled(reply: UsersReply)
      requires Valid()
      modifies this`users, this`filteredUsers, this`loading
      ensures Valid()
      ensures var m := if reply.UsersOk? then Manageable(reply.users, me) else None;
              if m.Some? then users == m.value && filteredUsers == m.value
              else users == old(users) && filteredUsers == old(filteredUsers)
      ensures !loading
    {
      if reply.UsersOk? {
        var m := Manageable(reply.users, me);
        if m.Some? {
          users := m.value;
          filteredUsers := m.value;
        }
      }
      loading := false;
    }

    /** The search box changed: the shown list is the search over the whole list. */
    method HandleSearch(text: string)
      requires Valid()
      modifies this`search, this`filteredUsers
      ensures Valid()
      ensures search == text && filteredUsers == SearchUsers(users, text)
    {
      search := text;
      filteredUsers := SearchUsers(users, text);
    }

    /** A row's switch was pressed: its user becomes the one being updated, and the flipped role is requested. */
    method StartToggleRole(userId: int, currentRole: string) returns (request: RoleRequest)
      modifies this`updatingId
      ensures request == RoleRequest(userId, FlipRole(currentRole))
      ensures updatingId == Some(userId)
    {
      request := RoleRequest(userId, FlipRole(currentRole));
      updatingId := Some(userId);
    }

    /** The role change settled: nobody is being updated any more, and a success fetches the list again. */
    method FinishToggleRole(reply: RoleReply) returns (refetch: bool)
      modifies this`updatingId
      ensures updatingId == None
      ensures refetch <==> reply.RoleSet?
    {
      refetch := reply.RoleSet?;
      updatingId := None;
    }

    /** A row's switch is disabled exactly while its user is the one being updated. */
    predicate SwitchDisabled(id: int)
      reads this
      ensures SwitchDisabled(id) <==> updatingId.Some? && updatingId.value == id
    {
      updatingId == Some(id)
    }
  }

  /**
   * One press of a row's switch, whatever the outcome: the row is disabled while
   * the request is in flight, and no row is afterwards.
   */
  method ToggleRoleOnce(screen: UserManagementScreen, userId: int, currentRole: string, reply: RoleReply)
    returns (request: RoleRequest, refetch: bool)
    modifies screen`updatingId
    ensures request == RoleRequest(userId, FlipRole(currentRole))
    ensures screen.users == old(screen.users) && screen.filteredUsers == old(screen.filteredUsers)
    ensures forall id :: !screen.SwitchDisabled(id)
    ensures refetch <==> reply.RoleSet?
  {
    request := screen.StartToggleRole(userId, currentRole);
    assert screen.SwitchDisabled(userId);
    refetch := screen.FinishToggleRole(reply);
  }
}
