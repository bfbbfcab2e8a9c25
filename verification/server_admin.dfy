/** The administrator routes of the server: `GET /admin/dashboard`,
    `/admin/stores`, `/admin/users` and `/admin/users/:id`, each behind
    `authMiddleware` and `roleMiddleware(["ADMIN"])`. They only read. */
module ServerAdmin {
  import opened Wrappers
  import opened Text
  import opened Seqs
  import opened ServerAuth
  import opened ServerDb
  import opened ServerHttp

  const AdminRoles: seq<string> := ["ADMIN"]
  const NotFound := Response(404, Error("Not found"))

  /** `GET /admin/dashboard`: the three table sizes. */
  function Dashboard(header: Option<string>, verify: string -> Option<Claims>, db: Db): (r: Response)
    ensures Guard(header, verify, AdminRoles).Refuse? ==> r == Refusal(Guard(header, verify, AdminRoles).rejection)
    ensures Guard(header, verify, AdminRoles).Pass? ==>
              r == Response(200, Counts(|db.users|, |db.stores|, |db.ratings|))
  {
    match Guard(header, verify, AdminRoles)
    case Refuse(e) => Refusal(e)
    case Pass(_) => Response(200, Counts(|db.users|, |db.stores|, |db.ratings|))
  }

  /** The admin store search: no `q` matches everything, otherwise name,
      email or address must contain it. */
  predicate AdminStoreMatches(s: StoreRow, q: string)
  {
    q == "" || ContainsInsensitive(s.name, q) || ContainsInsensitive(s.email, q) || ContainsInsensitive(s.address, q)
  }

  function AdminStoreViewOf(db: Db, s: StoreRow): AdminStoreView
  {
    AdminStoreView(s.id, s.name, s.email, s.address, StoreRating(db.ratings, s.id))
  }

  /** The listing of `/admin/stores`: the matching stores in table order, each
      with the live average of its own ratings. */
  function AdminStoreList(db: Db, q: string): (r: seq<AdminStoreView>)
    ensures |r| <= |db.stores|
    ensures forall i :: 0 <= i < |r| ==> exists k ::
              0 <= k < |db.stores| && AdminStoreMatches(db.stores[k], q) && r[i] == AdminStoreViewOf(db, db.stores[k])
    ensures forall k :: 0 <= k < |db.stores| && AdminStoreMatches(db.stores[k], q) ==>
              AdminStoreViewOf(db, db.stores[k]) in r
  {
    var found := Filter(db.stores, (s: StoreRow) => AdminStoreMatches(s, q));
    var r := seq(|found|, i requires 0 <= i < |found| => AdminStoreViewOf(db, found[i]));
    assert forall i :: 0 <= i < |r| ==> exists k ::
              0 <= k < |db.stores| && AdminStoreMatches(db.stores[k], q) && r[i] == AdminStoreViewOf(db, db.stores[k]) by {
      forall i | 0 <= i < |r|
        ensures exists k :: 0 <= k < |db.stores| && AdminStoreMatches(db.stores[k], q) &&
                            r[i] == AdminStoreViewOf(db, db.stores[k])
      {
        var k :| 0 <= k < |db.stores| && db.stores[k] == found[i];
      }
    }
    assert forall k :: 0 <= k < |db.stores| && AdminStoreMatches(db.stores[k], q) ==>
              AdminStoreViewOf(db, db.stores[k]) in r by {
      forall k | 0 <= k < |db.stores| && AdminStoreMatches(db.stores[k], q)
        ensures AdminStoreViewOf(db, db.stores[k]) in r
      {
        var i :| 0 <= i < |found| && found[i] == db.stores[k];
        assert r[i] == AdminStoreViewOf(db, db.stores[k]);
      }
    }
    r
  }

  /** Without `q`, every store is listed, in table order. */
  lemma AdminStoreListAll(db: Db)
    ensures |AdminStoreList(db, "")| == |db.stores|
    ensures forall i :: 0 <= i < |db.stores| ==> AdminStoreList(db, "")[i] == AdminStoreViewOf(db, db.stores[i])
  {
    FilterAll(db.stores, (s: StoreRow) => AdminStoreMatches(s, ""));
  }

  /** `GET /admin/stores?q=`. */
  function AdminStores(header: Option<string>, verify: string -> Option<Claims>, q: string, db: Db): (r: Response)
    ensures Guard(header, verify, AdminRoles).Refuse? ==> r == Refusal(Guard(header, verify, AdminRoles).rejection)
    ensures Guard(header, verify, AdminRoles).Pass? ==> r == Response(200, StoresForAdmin(AdminStoreList(db, q)))
  {
    match Guard(header, verify, AdminRoles)
    case Refuse(e) => Refusal(e)
    case Pass(_) => Response(200, StoresForAdmin(AdminStoreList(db, q)))
  }

  /** The admin user search: the role filter is an exact match on the
      upper-cased parameter; the text search covers name, email and a
      non-null address. */
  predicate AdminUserMatches(u: UserRow, q: string, role: string)
  {
    && (role == "" || u.role == Upper(role))
    && (q == "" || ContainsInsensitive(u.name, q) || ContainsInsensitive(u.email, q) ||
        (u.address.Some? && ContainsInsensitive(u.address.value, q)))
  }

  /** The listing of `/admin/users`: matching users in table order, without
      password hashes. */
  function AdminUserList(db: Db, q: string, role: string): (r: seq<UserView>)
    ensures |r| <= |db.users|
    ensures q == "" && role == "" ==> |r| == |db.users| && forall i :: 0 <= i < |r| ==> r[i] == ViewOf(db.users[i])
    ensures forall i :: 0 <= i < |r| ==> exists k ::
              0 <= k < |db.users| && AdminUserMatches(db.users[k], q, role) && r[i] == ViewOf(db.users[k])
    ensures forall k :: 0 <= k < |db.users| && AdminUserMatches(db.users[k], q, role) ==> ViewOf(db.users[k]) in r
    ensures role != "" ==> forall i :: 0 <= i < |r| ==> r[i].role == Upper(role)
  {
    var found := Filter(db.users, (u: UserRow) => AdminUserMatches(u, q, role));
    var r := seq(|found|, i requires 0 <= i < |found| => ViewOf(found[i]));
    assert q == "" && role == "" ==> found == db.users by {
      if q == "" && role == "" { FilterAll(db.users, (u: UserRow) => AdminUserMatches(u, q, role)); }
    }
    assert forall i :: 0 <= i < |r| ==> exists k ::
              0 <= k < |db.users| && AdminUserMatches(db.users[k], q, role) && r[i] == ViewOf(db.users[k]) by {
      forall i | 0 <= i < |r|
        ensures exists k :: 0 <= k < |db.users| && AdminUserMatches(db.users[k], q, role) && r[i] == ViewOf(db.users[k])
      {
        var k :| 0 <= k < |db.users| && db.users[k] == found[i];
      }
    }
    assert forall k :: 0 <= k < |db.users| && AdminUserMatches(db.users[k], q, role) ==> ViewOf(db.users[k]) in r by {
      forall k | 0 <= k < |db.users| && AdminUserMatches(db.users[k], q, role)
        ensures ViewOf(db.users[k]) in r
      {
        var i :| 0 <= i < |found| && found[i] == db.users[k];
        assert r[i] == ViewOf(db.users[k]);
      }
    }
    r
  }

  /** `GET /admin/users?q=&role=`. */
  function AdminUsers(header: Option<string>, verify: string -> Option<Claims>, q: string, role: string, db: Db)
    : (r: Response)
    ensures Guard(header, verify, AdminRoles).Refuse? ==> r == Refusal(Guard(header, verify, AdminRoles).rejection)
    ensures Guard(header, verify, AdminRoles).Pass? ==> r == Response(200, UsersForAdmin(AdminUserList(db, q, role)))
  {
    match Guard(header, verify, AdminRoles)
    case Refuse(e) => Refusal(e)
    case Pass(_) => Response(200, UsersForAdmin(AdminUserList(db, q, role)))
  }

  /** The `ownerStoreRating` of a user: null unless the role is `OWNER` and
      the user owns a store, and then the average of the first owned store in table order. */
  function OwnerStoreRating(db: Db, u: UserRow): (r: Option<real>)
    ensures r.Some? <==> u.role == "OWNER" && exists i :: 0 <= i < |db.stores| && db.stores[i].ownerUserId == u.id
    ensures r.Some? ==> exists i :: 0 <= i < |db.stores| && db.stores[i].ownerUserId == u.id &&
                                   (forall j :: 0 <= j < i ==> db.stores[j].ownerUserId != u.id) &&
                                   r.value == StoreRating(db.ratings, db.stores[i].id)
  {
    var owned := Filter(db.stores, (s: StoreRow) => s.ownerUserId == u.id);
    if u.role == "OWNER" && |owned| > 0 then
      FirstOwnedIsFirstFiltered(db.stores, u.id);
      Some(StoreRating(db.ratings, owned[0].id))
    else
      None
  }

  /** The first element of a filter is the first element that passes. */
  lemma {:induction false} FirstOwnedIsFirstFiltered(stores: seq<StoreRow>, owner: int)
    requires |Filter(stores, (s: StoreRow) => s.ownerUserId == owner)| > 0
    ensures FindIndex(stores, (s: StoreRow) => s.ownerUserId == owner).Some?
    ensures Filter(stores, (s: StoreRow) => s.ownerUserId == owner)[0]
         == stores[FindIndex(stores, (s: StoreRow) => s.ownerUserId == owner).value]
    decreases |stores|
  {
    var p := (s: StoreRow) => s.ownerUserId == owner;
    if !p(stores[0]) {
      FirstOwnedIsFirstFiltered(stores[1..], owner);
    }
  }

  /** `GET /admin/users/:id`: 404 for an unknown id, otherwise the user
      without its hash, with the owner-store average. */
  function AdminUserDetail(header: Option<string>, verify: string -> Option<Claims>, id: int, db: Db)
    : (r: Response)
    ensures Guard(header, verify, AdminRoles).Refuse? ==> r == Refusal(Guard(header, verify, AdminRoles).rejection)
    ensures Guard(header, verify, AdminRoles).Pass? ==>
              if HasUser(db, id) then
                r.status == 200 && r.body.UserDetail? && r.body.user.id == id &&
                exists u :: u in db.users && u.id == id && r.body == UserDetail(ViewOf(u), OwnerStoreRating(db, u))
              else r == NotFound
  {
    match Guard(header, verify, AdminRoles)
    case Refuse(e) => Refusal(e)
    case Pass(_) =>
      match Find(db.users, (u: UserRow) => u.id == id)
      case None => NotFound
      case Some(u) => Response(200, UserDetail(ViewOf(u), OwnerStoreRating(db, u)))
  }
}
