/** The server's relational data as immutable sequences of rows: users,
    stores and the rating ledger, with the constraints the schema enforces
    and the aggregation the routes compute on read. */
module ServerDb {
  import opened Wrappers
  import opened Seqs
  import opened Stats

  datatype UserRow = UserRow(id: int, name: string, email: string, address: Option<string>,
                             passwordHash: string, role: string)

  datatype StoreRow = StoreRow(id: int, name: string, email: string, address: string, ownerUserId: int)

  /** One row of the rating ledger; `createdAt` is the database clock at insertion. */
  datatype RatingRow = RatingRow(id: int, userId: int, storeId: int, value: int, createdAt: int)

  /** The database, with the next value of each autoincrement key. */
  datatype Db = Db(users: seq<UserRow>, stores: seq<StoreRow>, ratings: seq<RatingRow>,
                   nextUserId: int, nextRatingId: int)

  predicate SamePair(r: RatingRow, userId: int, storeId: int)
  {
    r.userId == userId && r.storeId == storeId
  }

  /** The `userId_storeId` unique constraint: at most one row per (user, store). */
  predicate UniquePairs(rs: seq<RatingRow>)
  {
    forall i, j :: 0 <= i < j < |rs| ==> !SamePair(rs[j], rs[i].userId, rs[i].storeId)
  }

  predicate HasUser(db: Db, id: int)
  {
    exists i :: 0 <= i < |db.users| && db.users[i].id == id
  }

  predicate HasStore(db: Db, id: int)
  {
    exists i :: 0 <= i < |db.stores| && db.stores[i].id == id
  }

  predicate EmailTaken(users: seq<UserRow>, email: string)
  {
    exists i :: 0 <= i < |users| && users[i].email == email
  }

  /** Every rating row names an existing user and store. */
  predicate RatingsReferenced(db: Db)
  {
    forall k :: 0 <= k < |db.ratings| ==> HasUser(db, db.ratings[k].userId) && HasStore(db, db.ratings[k].storeId)
  }

  /** The schema's constraints: unique keys, unique emails, the ledger's pair
      constraint, foreign keys, and autoincrement counters ahead of every key. */
  predicate Valid(db: Db)
  {
    && (forall i, j :: 0 <= i < j < |db.users| ==> db.users[i].id != db.users[j].id)
    && (forall i, j :: 0 <= i < j < |db.users| ==> db.users[i].email != db.users[j].email)
    && (forall i :: 0 <= i < |db.users| ==> db.users[i].id < db.nextUserId)
    && (forall i, j :: 0 <= i < j < |db.stores| ==> db.stores[i].id != db.stores[j].id)
    && (forall i, j :: 0 <= i < j < |db.ratings| ==> db.ratings[i].id != db.ratings[j].id)
    && (forall i :: 0 <= i < |db.ratings| ==> db.ratings[i].id < db.nextRatingId)
    && UniquePairs(db.ratings)
    && RatingsReferenced(db)
  }

  /** Position of the ledger row for (userId, storeId), if any. */
  function RowFor(rs: seq<RatingRow>, userId: int, storeId: int): (r: Option<nat>)
    ensures r.Some? ==> r.value < |rs| && SamePair(rs[r.value], userId, storeId)
    ensures r.None? <==> forall k :: 0 <= k < |rs| ==> !SamePair(rs[k], userId, storeId)
  {
    FindIndex(rs, (x: RatingRow) => SamePair(x, userId, storeId))
  }

  /** The upsert keyed on (userId, storeId): an existing row gets the new
      `value` and nothing else; otherwise a row is appended with the given id
      and time. */
  function Upsert(rs: seq<RatingRow>, userId: int, storeId: int, value: int, newId: int, now: int)
    : (r: seq<RatingRow>)
    ensures RowFor(rs, userId, storeId).Some? ==>
              var k := RowFor(rs, userId, storeId).value;
              && |r| == |rs| && r[k] == rs[k].(value := value)
              && forall i :: 0 <= i < |rs| && i != k ==> r[i] == rs[i]
    ensures RowFor(rs, userId, storeId).None? ==> r == rs + [RatingRow(newId, userId, storeId, value, now)]
  {
    match RowFor(rs, userId, storeId)
    case Some(k) => rs[k := rs[k].(value := value)]
    case None => rs + [RatingRow(newId, userId, storeId, value, now)]
  }

  /** The upsert keeps the pair constraint and leaves exactly one row for
      the pair, holding the submitted value. */
  lemma UpsertKeepsUnique(rs: seq<RatingRow>, userId: int, storeId: int, value: int, newId: int, now: int)
    requires UniquePairs(rs)
    ensures var r := Upsert(rs, userId, storeId, value, newId, now);
            && UniquePairs(r)
            && RowFor(r, userId, storeId).Some?
            && r[RowFor(r, userId, storeId).value].value == value
            && (forall i, j ::
                  (0 <= i < |r| && 0 <= j < |r| && SamePair(r[i], userId, storeId) && SamePair(r[j], userId, storeId))
                  ==> i == j)
  {
    var r := Upsert(rs, userId, storeId, value, newId, now);
    match RowFor(rs, userId, storeId)
    case Some(k) =>
      assert forall i :: 0 <= i < |r| ==> r[i].userId == rs[i].userId && r[i].storeId == rs[i].storeId;
    case None =>
      assert forall i :: 0 <= i < |rs| ==> r[i] == rs[i];
      assert SamePair(r[|rs|], userId, storeId);
  }

  /** Resubmission: two upserts for the same pair leave what one upsert of
      the later value leaves, so the row's id and `createdAt` are those of
      the first write and its value is the last one. */
  lemma UpsertLastWriteWins(rs: seq<RatingRow>, userId: int, storeId: int, v1: int, v2: int,
                            id1: int, now1: int, id2: int, now2: int)
    ensures Upsert(Upsert(rs, userId, storeId, v1, id1, now1), userId, storeId, v2, id2, now2)
         == Upsert(rs, userId, storeId, v2, id1, now1)
  {
    var once := Upsert(rs, userId, storeId, v1, id1, now1);
    match RowFor(rs, userId, storeId)
    case Some(k) =>
      assert forall i :: 0 <= i < k ==> once[i] == rs[i];
      assert RowFor(once, userId, storeId) == Some(k);
    case None =>
      assert forall i :: 0 <= i < |rs| ==> once[i] == rs[i];
      assert SamePair(once[|rs|], userId, storeId);
      assert RowFor(once, userId, storeId) == Some(|rs|);
  }

  /** Changing the value of one ledger row keeps every schema constraint. */
  lemma UpdateRowKeepsValid(db: Db, k: nat, value: int)
    requires Valid(db) && k < |db.ratings|
    ensures Valid(db.(ratings := db.ratings[k := db.ratings[k].(value := value)]))
  {
    var d := db.(ratings := db.ratings[k := db.ratings[k].(value := value)]);
    assert forall i :: 0 <= i < |d.ratings| ==>
             (d.ratings[i].id, d.ratings[i].userId, d.ratings[i].storeId)
               == (db.ratings[i].id, db.ratings[i].userId, db.ratings[i].storeId);
    assert RatingsReferenced(d) by {
      forall i | 0 <= i < |d.ratings|
        ensures HasUser(d, d.ratings[i].userId) && HasStore(d, d.ratings[i].storeId)
      {
        assert HasUser(db, db.ratings[i].userId) && HasStore(db, db.ratings[i].storeId);
      }
    }
  }

  /** Appending a row for a new pair of an existing user and store, keyed by
      the counter, keeps every schema constraint. */
  lemma AppendRowKeepsValid(db: Db, userId: int, storeId: int, value: int, now: int)
    requires Valid(db) && HasUser(db, userId) && HasStore(db, storeId)
    requires RowFor(db.ratings, userId, storeId).None?
    ensures Valid(db.(ratings := db.ratings + [RatingRow(db.nextRatingId, userId, storeId, value, now)],
                      nextRatingId := db.nextRatingId + 1))
  {
    var d := db.(ratings := db.ratings + [RatingRow(db.nextRatingId, userId, storeId, value, now)],
                 nextRatingId := db.nextRatingId + 1);
    assert forall i :: 0 <= i < |db.ratings| ==> d.ratings[i] == db.ratings[i];
    assert RatingsReferenced(d) by {
      forall i | 0 <= i < |d.ratings|
        ensures HasUser(d, d.ratings[i].userId) && HasStore(d, d.ratings[i].storeId)
      {
        if i < |db.ratings| {
          assert HasUser(db, db.ratings[i].userId) && HasStore(db, db.ratings[i].storeId);
        }
      }
    }
  }

  /** The values of a sequence of ledger rows. */
  function Values(rs: seq<RatingRow>): (vs: seq<int>)
    ensures |vs| == |rs|
    ensures forall i :: 0 <= i < |rs| ==> vs[i] == rs[i].value
  {
    seq(|rs|, i requires 0 <= i < |rs| => rs[i].value)
  }

  /** The rows of one store (`include: { ratings: true }`), in ledger order. */
  function RatingsOfStore(rs: seq<RatingRow>, storeId: int): (r: seq<RatingRow>)
    ensures forall i :: 0 <= i < |r| ==> r[i].storeId == storeId && r[i] in rs
    ensures forall i :: 0 <= i < |rs| && rs[i].storeId == storeId ==> rs[i] in r
  {
    Filter(rs, (x: RatingRow) => x.storeId == storeId)
  }

  /** The caller's own rating among a store's rows, `find(...)?.value ?? null`. */
  function MyRating(storeRatings: seq<RatingRow>, me: int): (r: Option<int>)
    ensures r.None? <==> forall i :: 0 <= i < |storeRatings| ==> storeRatings[i].userId != me
    ensures r.Some? ==> exists i :: 0 <= i < |storeRatings| && storeRatings[i].userId == me &&
                                   storeRatings[i].value == r.value
  {
    match Find(storeRatings, (x: RatingRow) => x.userId == me)
    case None => None
    case Some(row) => Some(row.value)
  }

  /** With the pair constraint, a store's row for the caller is the ledger's
      row for the pair, so `myRating` is the value last submitted. */
  lemma MyRatingIsLedgerValue(rs: seq<RatingRow>, storeId: int, me: int)
    requires UniquePairs(rs)
    ensures RowFor(rs, me, storeId).None? ==> MyRating(RatingsOfStore(rs, storeId), me).None?
    ensures RowFor(rs, me, storeId).Some? ==>
              MyRating(RatingsOfStore(rs, storeId), me) == Some(rs[RowFor(rs, me, storeId).value].value)
  {
    var mine := RatingsOfStore(rs, storeId);
    match RowFor(rs, me, storeId)
    case None =>
    case Some(k) =>
      assert rs[k] in mine;
      var m := MyRating(mine, me);
      var i :| 0 <= i < |mine| && mine[i].userId == me && mine[i].value == m.value;
      var j :| 0 <= j < |rs| && rs[j] == mine[i];
      assert SamePair(rs[j], me, storeId);
      assert j == k;
  }

  /** Every ledger value is a star count 1..5 (the only writer checks it). */
  predicate LedgerInRange(rs: seq<RatingRow>)
  {
    forall i :: 0 <= i < |rs| ==> 1 <= rs[i].value <= 5
  }

  /** Writing a star value into a ledger of star values, in place or as a
      new row, keeps it within 1..5. */
  lemma WriteKeepsRange(rs: seq<RatingRow>, k: nat, row: RatingRow)
    requires LedgerInRange(rs) && 1 <= row.value <= 5
    ensures k < |rs| ==> LedgerInRange(rs[k := row])
    ensures LedgerInRange(rs + [row])
  {
    assert forall i :: 0 <= i < |rs| ==> (rs + [row])[i] == rs[i];
  }

  /** The live average of one store: the mean of its ledger values, 0 with none. */
  function StoreRating(rs: seq<RatingRow>, storeId: int): real
  {
    Average(Values(RatingsOfStore(rs, storeId)))
  }

  /** With every value in 1..5, a store's average is 0 exactly when it has no
      ratings and otherwise lies within 1..5. */
  lemma StoreRatingRange(rs: seq<RatingRow>, storeId: int)
    requires LedgerInRange(rs)
    ensures StoreRating(rs, storeId) == 0.0 <==> forall i :: 0 <= i < |rs| ==> rs[i].storeId != storeId
    ensures StoreRating(rs, storeId) != 0.0 ==> 1.0 <= StoreRating(rs, storeId) <= 5.0
  {
    var mine := RatingsOfStore(rs, storeId);
    var vs := Values(mine);
    if |mine| > 0 {
      assert forall i :: 0 <= i < |vs| ==> 1 <= vs[i] <= 5 by {
        forall i | 0 <= i < |vs|
          ensures 1 <= vs[i] <= 5
        {
          assert mine[i] in rs;
        }
      }
      AverageInStarRange(vs);
      assert mine[0] in rs;
    }
  }
}
