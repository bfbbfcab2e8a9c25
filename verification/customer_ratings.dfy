/** The store owner's list of customer ratings: the owned store's ratings
    sorted newest first, each with its rater's name and email and a badge
    colour. `new Date(createdAt).getTime()` is the parameter `stamp`. */
module CustomerRatings {
  import opened Wrappers
  import opened Seqs
  import opened AuthContext
  import StoreStats

  /** Non-increasing in time: newest first. */
  predicate NewestFirst(rs: seq<Rating>, stamp: string -> int)
  {
    forall i, j :: 0 <= i < j < |rs| ==> stamp(rs[i].createdAt) >= stamp(rs[j].createdAt)
  }

  /** Places `x` before the first rating not newer than it. */
  function Insert(x: Rating, s: seq<Rating>, stamp: string -> int): (r: seq<Rating>)
    requires NewestFirst(s, stamp)
    ensures NewestFirst(r, stamp)
    ensures multiset(r) == multiset(s) + multiset{x}
    ensures forall i :: 0 <= i < |r| ==> r[i] == x || r[i] in s
    decreases |s|
  {
    if |s| == 0 then [x]
    else if stamp(x.createdAt) >= stamp(s[0].createdAt) then [x] + s
    else
      assert s == [s[0]] + s[1..];
      [s[0]] + Insert(x, s[1..], stamp)
  }

  /** `sort((a, b) => stamp(b) - stamp(a))` by insertion: the same ratings,
      newest first. */
  function SortNewestFirst(rs: seq<Rating>, stamp: string -> int): (r: seq<Rating>)
    ensures NewestFirst(r, stamp)
    ensures multiset(r) == multiset(rs)
    ensures |r| == |rs|
    decreases |rs|
  {
    if |rs| == 0 then []
    else
      assert rs == [rs[0]] + rs[1..];
      Insert(rs[0], SortNewestFirst(rs[1..], stamp), stamp)
  }

  /** The list shown: the owned store's ratings, newest first. */
  function Listed(st: State, stamp: string -> int): (r: seq<Rating>)
    ensures NewestFirst(r, stamp)
    ensures multiset(r) == multiset(StoreStats.StoreRatings(st))
    ensures StoreStats.OwnedStore(st).Some? ==>
              forall i :: 0 <= i < |r| ==> r[i].storeId == StoreStats.OwnedStore(st).value.id && r[i] in st.ratings
  {
    var r := SortNewestFirst(StoreStats.StoreRatings(st), stamp);
    assert forall i :: 0 <= i < |r| ==> r[i] in multiset(StoreStats.StoreRatings(st));
    r
  }

  /** The empty state shows exactly when the store has no ratings. */
  lemma EmptyStateIffNoRatings(st: State, stamp: string -> int)
    ensures |Listed(st, stamp)| == 0 <==> |StoreStats.StoreRatings(st)| == 0
  {
    assert |multiset(Listed(st, stamp))| == |multiset(StoreStats.StoreRatings(st))|;
  }

  /** `getUserName`: the first user with the id's name, else "Unknown User". */
  function UserName(users: seq<User>, userId: string): (r: string)
    ensures (forall i :: 0 <= i < |users| ==> users[i].id != userId) ==> r == "Unknown User"
    ensures (exists i :: 0 <= i < |users| && users[i].id == userId) ==>
              exists i :: 0 <= i < |users| && users[i].id == userId &&
                          (forall j :: 0 <= j < i ==> users[j].id != userId) && r == users[i].name
  {
    match Find(users, (u: User) => u.id == userId)
    case None => "Unknown User"
    case Some(u) => u.name
  }

  /** `getUserEmail`: the first user with the id's email, else "Unknown Email". */
  function UserEmail(users: seq<User>, userId: string): (r: string)
    ensures (forall i :: 0 <= i < |users| ==> users[i].id != userId) ==> r == "Unknown Email"
    ensures (exists i :: 0 <= i < |users| && users[i].id == userId) ==>
              exists i :: 0 <= i < |users| && users[i].id == userId &&
                          (forall j :: 0 <= j < i ==> users[j].id != userId) && r == users[i].email
  {
    match Find(users, (u: User) => u.id == userId)
    case None => "Unknown Email"
    case Some(u) => u.email
  }

  /** `getRatingColor`: 4 and up, 3 up to 4, and below 3. */
  function RatingColor(rating: int): (r: string)
    ensures r == "default" <==> rating >= 4
    ensures r == "secondary" <==> rating == 3
    ensures r == "destructive" <==> rating < 3
  {
    if rating >= 4 then "default" else if rating >= 3 then "secondary" else "destructive"
  }

  /** Nothing renders without an owned store. */
  predicate Renders(st: State)
  {
    StoreStats.OwnedStore(st).Some?
  }
}
