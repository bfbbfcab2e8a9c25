/** The owner and user routes of the server: `GET /owner/store/ratings`
    (role `OWNER`), and `GET /stores` and `POST /stores/:id/ratings` (any
    authenticated caller). */
module ServerStores {
  import opened Wrappers
  import opened Text
  import opened Seqs
  import opened ServerAuth
  import opened ServerDb
  import opened ServerHttp
  import opened ServerAdmin

  const OwnerRoles: seq<string> := ["OWNER"]
  const NoStoreLinked := Response(200, Message("No store linked to this owner"))

  /** `prisma.store.findFirst({ where: { ownerUserId } })`. */
  function OwnedStore(db: Db, ownerId: int): (r: Option<StoreRow>)
    ensures r.None? <==> forall i :: 0 <= i < |db.stores| ==> db.stores[i].ownerUserId != ownerId
    ensures r.Some? ==> r.value in db.stores && r.value.ownerUserId == ownerId
  {
    Find(db.stores, (s: StoreRow) => s.ownerUserId == ownerId)
  }

  /** A rating joined with its rater's name and email. */
  function RaterOf(db: Db, row: RatingRow): (r: Rater)
    requires HasUser(db, row.userId)
    ensures r.userId == row.userId && r.value == row.value && r.createdAt == row.createdAt
    ensures exists u :: u in db.users && u.id == row.userId && u.name == r.name && u.email == r.email
  {
    var u := Find(db.users, (u: UserRow) => u.id == row.userId).value;
    Rater(u.id, u.name, u.email, row.value, row.createdAt)
  }

  /** `GET /owner/store/ratings`: a store the caller owns, with its average
      and one rater entry per rating of that store, or a message when the
      caller owns no store. */
  function OwnerRatings(header: Option<string>, verify: string -> Option<Claims>, db: Db): (r: Response)
    requires RatingsReferenced(db)
    ensures Guard(header, verify, OwnerRoles).Refuse? ==> r == Refusal(Guard(header, verify, OwnerRoles).rejection)
    ensures Guard(header, verify, OwnerRoles).Pass? ==>
              var me := Guard(header, verify, OwnerRoles).who.id;
              match OwnedStore(db, me)
              case None => r == NoStoreLinked
              case Some(s) =>
                var rows := RatingsOfStore(db.ratings, s.id);
                && r.status == 200 && r.body.OwnerStore?
                && r.body.storeId == s.id
                && r.body.average == StoreRating(db.ratings, s.id)
                && |r.body.raters| == |rows|
                && forall i :: 0 <= i < |rows| ==>
                     r.body.raters[i].userId == rows[i].userId && r.body.raters[i].value == rows[i].value &&
                     r.body.raters[i].createdAt == rows[i].createdAt &&
                     exists u :: u in db.users && u.id == rows[i].userId &&
                                 u.name == r.body.raters[i].name && u.email == r.body.raters[i].email
  {
    match Guard(header, verify, OwnerRoles)
    case Refuse(e) => Refusal(e)
    case Pass(who) =>
      match OwnedStore(db, who.id)
      case None => NoStoreLinked
      case Some(s) =>
        var rows := RatingsOfStore(db.ratings, s.id);
        assert forall i :: 0 <= i < |rows| ==> HasUser(db, rows[i].userId) by {
          forall i | 0 <= i < |rows|
            ensures HasUser(db, rows[i].userId)
          {
            var k :| 0 <= k < |db.ratings| && db.ratings[k] == rows[i];
          }
        }
        var raters := seq(|rows|, i requires 0 <= i < |rows| => RaterOf(db, rows[i]));
        Response(200, OwnerStore(s.id, StoreRating(db.ratings, s.id), raters))
  }

  /** The `/stores` search covers name and address only. */
  predicate PublicStoreMatches(s: StoreRow, q: string)
  {
    q == "" || ContainsInsensitive(s.name, q) || ContainsInsensitive(s.address, q)
  }

  function PublicStoreViewOf(db: Db, s: StoreRow, me: int): PublicStoreView
  {
    PublicStoreView(s.id, s.name, s.address, StoreRating(db.ratings, s.id),
                    MyRating(RatingsOfStore(db.ratings, s.id), me))
  }

  /** The listing of `/stores`: matching stores in table order, each with its
      live average and the caller's own rating. */
  function PublicStoreList(db: Db, q: string, me: int): (r: seq<PublicStoreView>)
    ensures |r| <= |db.stores|
    ensures forall i :: 0 <= i < |r| ==> exists k ::
              0 <= k < |db.stores| && PublicStoreMatches(db.stores[k], q) && r[i] == PublicStoreViewOf(db, db.stores[k], me)
    ensures forall k :: 0 <= k < |db.stores| && PublicStoreMatches(db.stores[k], q) ==>
              PublicStoreViewOf(db, db.stores[k], me) in r
  {
    var found := Filter(db.stores, (s: StoreRow) => PublicStoreMatches(s, q));
    var r := seq(|found|, i requires 0 <= i < |found| => PublicStoreViewOf(db, found[i], me));
    assert forall i :: 0 <= i < |r| ==> exists k ::
              0 <= k < |db.stores| && PublicStoreMatches(db.stores[k], q) && r[i] == PublicStoreViewOf(db, db.stores[k], me) by {
      forall i | 0 <= i < |r|
        ensures exists k :: 0 <= k < |db.stores| && PublicStoreMatches(db.stores[k], q) &&
                            r[i] == PublicStoreViewOf(db, db.stores[k], me)
      {
        var k :| 0 <= k < |db.stores| && db.stores[k] == found[i];
      }
    }
    assert forall k :: 0 <= k < |db.stores| && PublicStoreMatches(db.stores[k], q) ==>
              PublicStoreViewOf(db, db.stores[k], me) in r by {
      forall k | 0 <= k < |db.stores| && PublicStoreMatches(db.stores[k], q)
        ensures PublicStoreViewOf(db, db.stores[k], me) in r
      {
        var i :| 0 <= i < |found| && found[i] == db.stores[k];
        assert r[i] == PublicStoreViewOf(db, db.stores[k], me);
      }
    }
    r
  }

  /** The public search never looks at a store's email; the admin search
      does. So a match on the email alone is found by the admin and not by a
      user. */
  lemma EmailOnlyMatch(s: StoreRow, q: string)
    requires q != "" && ContainsInsensitive(s.email, q)
    requires !ContainsInsensitive(s.name, q) && !ContainsInsensitive(s.address, q)
    ensures AdminStoreMatches(s, q) && !PublicStoreMatches(s, q)
  {
  }

  /** `GET /stores?q=`: behind `authMiddleware` only, so any authenticated
      role is served. */
  function ListStores(header: Option<string>, verify: string -> Option<Claims>, q: string, db: Db): (r: Response)
    ensures Authenticate(header, verify).Refuse? ==> r == Refusal(Authenticate(header, verify).rejection)
    ensures Authenticate(header, verify).Pass? ==>
              r == Response(200, StoresForUser(PublicStoreList(db, q, Authenticate(header, verify).who.id)))
  {
    match Authenticate(header, verify)
    case Refuse(e) => Refusal(e)
    case Pass(who) => Response(200, StoresForUser(PublicStoreList(db, q, who.id)))
  }

  /** A JSON `value`: a number, or anything else (string, boolean, null,
      object, or missing). */
  datatype BodyValue = Num(n: real) | NotNumber

  /** `Number.isInteger(value) && 1 <= value <= 5`. */
  predicate IsStarValue(v: BodyValue)
  {
    v.Num? && v.n.Floor as real == v.n && 1.0 <= v.n <= 5.0
  }

  const InvalidRating := Response(400, Error("Rating must be an integer 1\U{2013}5"))

  /** `POST /stores/:id/ratings`. After the gate, anything but an integer in
      1..5 answers 400 and writes nothing. Otherwise the ledger is upserted on
      (caller, store); a new row for an unknown store or user breaks a foreign
      key and answers 500 with nothing written. */
  function SubmitRating(header: Option<string>, verify: string -> Option<Claims>, storeId: int, value: BodyValue,
                        db: Db, now: int): (r: Reply)
    ensures Authenticate(header, verify).Refuse? ==>
              r == Reply(Refusal(Authenticate(header, verify).rejection), db)
    ensures Authenticate(header, verify).Pass? && !IsStarValue(value) ==> r == Reply(InvalidRating, db)
    ensures Authenticate(header, verify).Pass? && IsStarValue(value) ==>
              var me := Authenticate(header, verify).who.id;
              (r.response.status == 200 <==>
                 RowFor(db.ratings, me, storeId).Some? || (HasUser(db, me) && HasStore(db, storeId)))
    ensures Authenticate(header, verify).Pass? && IsStarValue(value) && r.response.status != 200 ==>
              r == Reply(ServerError, db)
    ensures r.response.status != 200 ==> r.db == db
    ensures r.response.status == 200 ==>
              var me := Authenticate(header, verify).who.id;
              && IsStarValue(value)
              && r.db.users == db.users && r.db.stores == db.stores
              && r.db.ratings == Upsert(db.ratings, me, storeId, value.n.Floor, db.nextRatingId, now)
              && r.response.body.Saved?
              && r.response.body.rating in r.db.ratings
              && SamePair(r.response.body.rating, me, storeId)
              && r.response.body.rating.value == value.n.Floor
  {
    match Authenticate(header, verify)
    case Refuse(e) => Reply(Refusal(e), db)
    case Pass(who) =>
      if !IsStarValue(value) then Reply(InvalidRating, db)
      else
        var v := value.n.Floor;
        match RowFor(db.ratings, who.id, storeId)
        case Some(k) =>
          var row := db.ratings[k].(value := v);
          Reply(Response(200, Saved("Saved", row)), db.(ratings := db.ratings[k := row]))
        case None =>
          if !HasUser(db, who.id) || !HasStore(db, storeId) then Reply(ServerError, db)
          else
            var row := RatingRow(db.nextRatingId, who.id, storeId, v, now);
            Reply(Response(200, Saved("Saved", row)),
                  db.(ratings := db.ratings + [row], nextRatingId := db.nextRatingId + 1))
  }

  /** A rating submission keeps every schema constraint and keeps every
      ledger value within 1..5. */
  lemma SubmitRatingKeepsValid(header: Option<string>, verify: string -> Option<Claims>, storeId: int,
                               value: BodyValue, db: Db, now: int)
    requires Valid(db) && LedgerInRange(db.ratings)
    ensures Valid(SubmitRating(header, verify, storeId, value, db, now).db)
    ensures LedgerInRange(SubmitRating(header, verify, storeId, value, db, now).db.ratings)
  {
    match Authenticate(header, verify)
    case Refuse(_) =>
    case Pass(who) =>
      if IsStarValue(value) {
        var v := value.n.Floor;
        var after := SubmitRating(header, verify, storeId, value, db, now).db;
        match RowFor(db.ratings, who.id, storeId)
        case Some(k) =>
          assert after == db.(ratings := db.ratings[k := db.ratings[k].(value := v)]);
          UpdateRowKeepsValid(db, k, v);
          WriteKeepsRange(db.ratings, k, db.ratings[k].(value := v));
        case None =>
          if HasUser(db, who.id) && HasStore(db, storeId) {
            assert after == db.(ratings := db.ratings + [RatingRow(db.nextRatingId, who.id, storeId, v, now)],
                                nextRatingId := db.nextRatingId + 1);
            AppendRowKeepsValid(db, who.id, storeId, v, now);
            WriteKeepsRange(db.ratings, 0, RatingRow(db.nextRatingId, who.id, storeId, v, now));
          } else {
            assert after == db;
          }
      }
  }

  /** Read-your-writes: after a successful submission the caller's `myRating`
      for that store in the `/stores` listing is the submitted value. */
  lemma SubmitThenMyRating(header: Option<string>, verify: string -> Option<Claims>, storeId: int,
                           value: BodyValue, db: Db, now: int, s: StoreRow)
    requires Valid(db)
    requires SubmitRating(header, verify, storeId, value, db, now).response.status == 200
    requires s.id == storeId
    ensures var me := Authenticate(header, verify).who.id;
            PublicStoreViewOf(SubmitRating(header, verify, storeId, value, db, now).db, s, me).myRating
              == Some(value.n.Floor)
  {
    var me := Authenticate(header, verify).who.id;
    var v := value.n.Floor;
    var rs := Upsert(db.ratings, me, storeId, v, db.nextRatingId, now);
    UpsertKeepsUnique(db.ratings, me, storeId, v, db.nextRatingId, now);
    MyRatingIsLedgerValue(rs, storeId, me);
  }

  /** The rating value boundaries: 0, 6, 3.5 and a non-number are refused,
      1 and 5 accepted. */
  lemma StarValueBoundaries()
    ensures !IsStarValue(Num(0.0)) && !IsStarValue(Num(6.0)) && !IsStarValue(Num(3.5)) && !IsStarValue(NotNumber)
    ensures IsStarValue(Num(1.0)) && IsStarValue(Num(5.0))
  {
    assert (3.5).Floor == 3;
  }

  /** Submitting 4 and then 2 for one (user, store) pair leaves a single row
      for the pair, holding 2, with the id and `createdAt` of the first
      write. */
  lemma ResubmissionKeepsOneRow(header: Option<string>, verify: string -> Option<Claims>, storeId: int,
                                db: Db, now1: int, now2: int)
    requires Valid(db) && LedgerInRange(db.ratings)
    requires SubmitRating(header, verify, storeId, Num(4.0), db, now1).response.status == 200
    ensures var me := Authenticate(header, verify).who.id;
            var first := SubmitRating(header, verify, storeId, Num(4.0), db, now1);
            var second := SubmitRating(header, verify, storeId, Num(2.0), first.db, now2);
            var k := RowFor(first.db.ratings, me, storeId).value;
            && second.response.status == 200
            && |second.db.ratings| == |first.db.ratings|
            && second.db.ratings[k] == first.db.ratings[k].(value := 2)
            && (forall j :: 0 <= j < |second.db.ratings| && SamePair(second.db.ratings[j], me, storeId) ==> j == k)
  {
    var me := Authenticate(header, verify).who.id;
    var first := SubmitRating(header, verify, storeId, Num(4.0), db, now1);
    assert (4.0).Floor == 4 && (2.0).Floor == 2;
    UpsertKeepsUnique(db.ratings, me, storeId, 4, db.nextRatingId, now1);
    UpsertKeepsUnique(first.db.ratings, me, storeId, 2, first.db.nextRatingId, now2);
  }
}
