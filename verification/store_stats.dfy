/** The store owner's statistics panel: the owned store, its ratings, their
    average and the number of distinct raters. */
module StoreStats {
  import opened Wrappers
  import opened Seqs
  import opened Stats
  import opened AuthContext

  /** `stores.find(store => store.ownerId === user?.id)`: the first store of
      the current user; with nobody logged in, none. */
  function OwnedStore(st: State): (r: Option<Store>)
    ensures st.user.None? ==> r.None?
    ensures st.user.Some? ==> (r.None? <==> forall i :: 0 <= i < |st.stores| ==> st.stores[i].ownerId != st.user.value.id)
    ensures r.Some? ==> exists i :: 0 <= i < |st.stores| && st.stores[i] == r.value &&
                                    r.value.ownerId == st.user.value.id &&
                                    forall j :: 0 <= j < i ==> st.stores[j].ownerId != st.user.value.id
  {
    match st.user
    case None => None
    case Some(u) => Find(st.stores, (s: Store) => s.ownerId == u.id)
  }

  /** The ratings of the owned store, or none without one. */
  function StoreRatings(st: State): (r: seq<Rating>)
    ensures OwnedStore(st).None? ==> r == []
    ensures OwnedStore(st).Some? ==> r == ForStore(st.ratings, OwnedStore(st).value.id)
  {
    match OwnedStore(st)
    case None => []
    case Some(s) => ForStore(st.ratings, s.id)
  }

  /** The panel's average: 0 with no ratings, else within 1..5 when every
      value is a star count. */
  lemma AverageRange(st: State)
    requires InRange(st.ratings)
    ensures |StoreRatings(st)| == 0 ==> MeanRating(StoreRatings(st)) == 0.0
    ensures |StoreRatings(st)| > 0 ==> 1.0 <= MeanRating(StoreRatings(st)) <= 5.0
  {
    var rs := StoreRatings(st);
    if |rs| > 0 {
      var vs := Stars(rs);
      forall i | 0 <= i < |vs|
        ensures 1 <= vs[i] <= 5
      {
        assert rs[i] in st.ratings;
      }
      AverageInStarRange(vs);
    }
  }

  function Rater(r: Rating): string
  {
    r.userId
  }

  /** `new Set(storeRatings.map(r => r.userId)).size`. */
  function UniqueRaters(rs: seq<Rating>): (n: nat)
    ensures n <= |rs|
  {
    KeySetSize(rs, Rater);
    |KeySet(rs, Rater)|
  }

  /** With at most one rating per (user, store), every rating of the owned
      store comes from a different user, so the two counts agree. */
  lemma UniqueRatersIsTotal(st: State)
    requires UniquePairs(st.ratings)
    ensures UniqueRaters(StoreRatings(st)) == |StoreRatings(st)|
  {
    var rs := StoreRatings(st);
    if OwnedStore(st).Some? {
      var id := OwnedStore(st).value.id;
      FilterKeepsDistinct(st.ratings, (x: Rating) => x.storeId == id, Pair);
      assert DistinctKeys(rs, Pair);
      assert forall i :: 0 <= i < |rs| ==> rs[i].storeId == id;
      assert DistinctKeys(rs, Rater);
    }
    KeySetSize(rs, Rater);
  }

  /** "rating" for exactly one, "ratings" otherwise. */
  function RatingNoun(n: nat): (r: string)
    ensures r == "rating" <==> n == 1
    ensures r == "ratings" <==> n != 1
  {
    if n != 1 then "ratings" else "rating"
  }
}
