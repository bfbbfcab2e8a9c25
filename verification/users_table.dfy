/** The admin's users table: the search and role filter, the role badge
    and label, and the rating star shown beside store owners. */
module UsersTable {
  import opened Wrappers
  import opened Seqs
  import opened Text
  import opened AuthContext

  /** The role selector: `"all"` or one role. */
  datatype RoleFilter = AllRoles | OnlyRole(role: Role)

  predicate MatchesSearch(u: User, term: string)
  {
    ContainsInsensitive(u.name, term) || ContainsInsensitive(u.email, term) || ContainsInsensitive(u.address, term)
  }

  predicate Kept(u: User, term: string, filter: RoleFilter)
  {
    MatchesSearch(u, term) && (filter.AllRoles? || u.role == filter.role)
  }

  /** `filteredUsers`: the users matching the search and the role, in list
      order. */
  function FilteredUsers(users: seq<User>, term: string, filter: RoleFilter): (r: seq<User>)
    ensures IsSubseq(r, users)
    ensures forall i :: 0 <= i < |r| ==> Kept(r[i], term, filter)
    ensures forall i :: 0 <= i < |users| && Kept(users[i], term, filter) ==> users[i] in r
  {
    FilterIsSubseq(users, (u: User) => Kept(u, term, filter));
    Filter(users, (u: User) => Kept(u, term, filter))
  }

  /** An empty search with "all" shows every user, in order. */
  lemma EmptySearchKeepsEveryone(users: seq<User>)
    ensures FilteredUsers(users, "", AllRoles) == users
  {
    forall u: User
      ensures Kept(u, "", AllRoles)
    {
      ContainsEmpty(Lower(u.name));
      assert Lower("") == "";
    }
    FilterAll(users, (u: User) => Kept(u, "", AllRoles));
  }

  /** Choosing a role narrows the "all" list to the users with that role. */
  lemma RoleFilterNarrows(users: seq<User>, term: string, role: Role)
    ensures FilteredUsers(users, term, OnlyRole(role))
         == Filter(FilteredUsers(users, term, AllRoles), (u: User) => Kept(u, term, OnlyRole(role)))
  {
    FilterNarrows(users, (u: User) => Kept(u, term, OnlyRole(role)), (u: User) => Kept(u, term, AllRoles));
  }

  /** `getRoleBadgeVariant`: one variant per role. */
  function RoleBadgeVariant(role: Role): (r: string)
    ensures r == "destructive" <==> role == Admin
    ensures r == "default" <==> role == StoreOwner
    ensures r == "secondary" <==> role == NormalUser
  {
    match role
    case Admin => "destructive"
    case StoreOwner => "default"
    case NormalUser => "secondary"
  }

  /** `getRoleLabel`: one label per role. */
  function RoleLabel(role: Role): (r: string)
    ensures r == "System Admin" <==> role == Admin
    ensures r == "Store Owner" <==> role == StoreOwner
    ensures r == "Normal User" <==> role == NormalUser
  {
    match role
    case Admin => "System Admin"
    case StoreOwner => "Store Owner"
    case NormalUser => "Normal User"
  }

  /** The star beside a user: only for a store owner with a truthy rating,
      so a rating of 0 is not shown. */
  function RatingShown(u: User): (r: Option<real>)
    ensures r.Some? <==> u.role == StoreOwner && u.rating.Some? && u.rating.value != 0.0
    ensures r.Some? ==> r.value == u.rating.value
  {
    if u.role == StoreOwner && u.rating.Some? && u.rating.value != 0.0 then u.rating else None
  }

  /** The mock owner shows 4.2; an account made by `addUser` never has a
      rating, so it never shows a star. */
  lemma RatingStarCases(st: State, name: string, email: string, address: string, password: string, role: Role,
                        newId: string)
    ensures RatingShown(MockUsers[2]) == Some(4.2)
    ensures RatingShown(AddUser(st, name, email, address, password, role, newId).users[|st.users|]).None?
  {
  }

  /** The "No users found" line appears exactly when nobody matches. */
  lemma NoUsersMessage(users: seq<User>, term: string, filter: RoleFilter)
    ensures |FilteredUsers(users, term, filter)| == 0 <==> forall i :: 0 <= i < |users| ==> !Kept(users[i], term, filter)
  {
  }
}
