/** The client's in-memory account store (`AuthProvider`): the current user,
    the user, store and rating lists seeded with mock data, and the operations
    the pages call. Ids (`Date.now().toString()`) and dates are parameters;
    `localStorage` is left out. */
module AuthContext {
  import opened Wrappers
  import opened Seqs
  import opened Stats

  /** `UserRole`: `"admin" | "user" | "store_owner"`. */
  datatype Role = Admin | NormalUser | StoreOwner

  datatype User = User(id: string, name: string, email: string, address: string, role: Role, rating: Option<real>)

  /** A store with its cached average `rating`. */
  datatype Store = Store(id: string, name: string, email: string, address: string, rating: real, ownerId: string)

  datatype Rating = Rating(id: string, userId: string, storeId: string, rating: int, createdAt: string)

  datatype State = State(user: Option<User>, users: seq<User>, stores: seq<Store>, ratings: seq<Rating>)

  /** A boolean answer together with the state it leaves. */
  datatype Outcome = Outcome(ok: bool, state: State)

  const MockUsers: seq<User> := [
    User("1", "System Administrator", "admin@system.com", "123 Admin Street, Admin City", Admin, None),
    User("2", "John Doe Normal User", "john@user.com", "456 User Avenue, User Town", NormalUser, None),
    User("3", "Store Owner Mike Johnson", "mike@store.com", "789 Store Boulevard, Store City", StoreOwner, Some(4.2))
  ]

  const MockStores: seq<Store> := [
    Store("1", "Mike's Electronics Store", "mike@store.com", "789 Store Boulevard, Store City", 4.2, "3"),
    Store("2", "Tech Paradise", "info@techparadise.com", "321 Tech Street, Digital City", 3.8, "4")
  ]

  const MockRatings: seq<Rating> := [Rating("1", "2", "1", 4, "2024-01-15")]

  /** The state on mount: nobody logged in, the mock lists. */
  const Initial := State(None, MockUsers, MockStores, MockRatings)

  /** The (user, store) pair a rating is about. */
  function Pair(r: Rating): (string, string)
  {
    (r.userId, r.storeId)
  }

  /** At most one rating per (user, store). */
  ghost predicate UniquePairs(rs: seq<Rating>)
  {
    DistinctKeys(rs, Pair)
  }

  /** Every rating value is a star count 1..5. */
  predicate InRange(rs: seq<Rating>)
  {
    forall i :: 0 <= i < |rs| ==> 1 <= rs[i].rating <= 5
  }

  // ---------------------------------------------------------------------------
  // Accounts

  predicate Credentials(u: User, email: string, role: Role)
  {
    u.email == email && u.role == role
  }

  /** `login`: the first user with this email and this role becomes current;
      the password is never looked at. */
  function Login(st: State, email: string, password: string, role: Role): (r: Outcome)
    ensures r.ok <==> exists i :: 0 <= i < |st.users| && Credentials(st.users[i], email, role)
    ensures !r.ok ==> r.state == st
    ensures r.ok ==> exists i :: 0 <= i < |st.users| && Credentials(st.users[i], email, role) &&
                       (forall j :: 0 <= j < i ==> !Credentials(st.users[j], email, role)) &&
                       r.state == st.(user := Some(st.users[i]))
  {
    match Find(st.users, (u: User) => Credentials(u, email, role))
    case None => Outcome(false, st)
    case Some(u) => Outcome(true, st.(user := Some(u)))
  }

  /** Any password logs in whoever the email and role pick. */
  lemma LoginIgnoresPassword(st: State, email: string, p1: string, p2: string, role: Role)
    ensures Login(st, email, p1, role) == Login(st, email, p2, role)
  {
  }

  /** `logout`: nobody is current and nothing else changes. */
  function Logout(st: State): (r: State)
    ensures r.user.None?
    ensures r.(user := st.user) == st
  {
    st.(user := None)
  }

  predicate EmailInUse(users: seq<User>, email: string)
  {
    exists i :: 0 <= i < |users| && users[i].email == email
  }

  /** `signup`: refused when the email is in use; otherwise one `user`-role
      account is appended and becomes current. */
  function Signup(st: State, name: string, email: string, address: string, password: string, newId: string)
    : (r: Outcome)
    ensures r.ok <==> !EmailInUse(st.users, email)
    ensures !r.ok ==> r.state == st
    ensures r.ok ==> && |r.state.users| == |st.users| + 1
                     && r.state.users[..|st.users|] == st.users
                     && r.state.user == Some(r.state.users[|st.users|])
                     && r.state.users[|st.users|] == User(newId, name, email, address, NormalUser, None)
                     && r.state.stores == st.stores && r.state.ratings == st.ratings
  {
    if EmailInUse(st.users, email) then Outcome(false, st)
    else
      var u := User(newId, name, email, address, NormalUser, None);
      Outcome(true, State(Some(u), st.users + [u], st.stores, st.ratings))
  }

  /** An account created by `signup` can log in as a normal user with any
      password, and it is that account which becomes current. */
  lemma {:induction false} SignupThenLogin(st: State, name: string, email: string, address: string,
                                           password: string, newId: string, anyPassword: string)
    requires Signup(st, name, email, address, password, newId).ok
    ensures var s := Signup(st, name, email, address, password, newId).state;
            Login(s, email, anyPassword, NormalUser) == Outcome(true, s)
  {
    var s := Signup(st, name, email, address, password, newId).state;
    var u := s.users[|st.users|];
    assert Credentials(u, email, NormalUser);
    assert forall j :: 0 <= j < |st.users| ==> s.users[j] == st.users[j] && s.users[j].email != email;
  }

  /** `addUser`: one account with the chosen role is appended; no duplicate
      check and the current user is untouched. */
  function AddUser(st: State, name: string, email: string, address: string, password: string, role: Role,
                   newId: string): (r: State)
    ensures |r.users| == |st.users| + 1 && r.users[..|st.users|] == st.users
    ensures r.users[|st.users|] == User(newId, name, email, address, role, None)
    ensures r.user == st.user && r.stores == st.stores && r.ratings == st.ratings
  {
    st.(users := st.users + [User(newId, name, email, address, role, None)])
  }

  /** Unlike `signup`, `addUser` accepts an email already in use, leaving two
      accounts with it. */
  lemma AddUserAllowsDuplicateEmail(st: State, name: string, email: string, address: string, password: string,
                                    role: Role, newId: string)
    requires EmailInUse(st.users, email)
    ensures !Signup(st, name, email, address, password, newId).ok
    ensures var r := AddUser(st, name, email, address, password, role, newId);
            exists i, j :: 0 <= i < j < |r.users| && r.users[i].email == email && r.users[j].email == email
  {
    var r := AddUser(st, name, email, address, password, role, newId);
    var i :| 0 <= i < |st.users| && st.users[i].email == email;
    assert r.users[i] == st.users[i];
    assert r.users[|st.users|].email == email;
  }

  /** `addStore`: one store with a cached rating of 0 is appended. */
  function AddStore(st: State, name: string, email: string, address: string, ownerId: string, newId: string)
    : (r: State)
    ensures |r.stores| == |st.stores| + 1 && r.stores[..|st.stores|] == st.stores
    ensures r.stores[|st.stores|] == Store(newId, name, email, address, 0.0, ownerId)
    ensures r.user == st.user && r.users == st.users && r.ratings == st.ratings
  {
    st.(stores := st.stores + [Store(newId, name, email, address, 0.0, ownerId)])
  }

  /** `updatePassword`: always answers true and stores nothing. */
  function UpdatePassword(st: State, newPassword: string): (r: Outcome)
    ensures r.ok && r.state == st
  {
    Outcome(true, st)
  }

  // ---------------------------------------------------------------------------
  // Ratings

  predicate IsPair(r: Rating, userId: string, storeId: string)
  {
    r.userId == userId && r.storeId == storeId
  }

  /** Position of the first rating for (userId, storeId). */
  function PairIndex(rs: seq<Rating>, userId: string, storeId: string): (r: Option<nat>)
    ensures r.Some? ==> r.value < |rs| && IsPair(rs[r.value], userId, storeId)
    ensures r.Some? ==> forall j :: 0 <= j < r.value ==> !IsPair(rs[j], userId, storeId)
    ensures r.None? <==> forall j :: 0 <= j < |rs| ==> !IsPair(rs[j], userId, storeId)
  {
    FindIndex(rs, (x: Rating) => IsPair(x, userId, storeId))
  }

  /** `prev.map(r => r.id === id ? { ...r, rating: value } : r)`: every rating
      carrying the id takes the value; nothing else changes. */
  function SetRatingById(rs: seq<Rating>, id: string, value: int): (r: seq<Rating>)
    ensures |r| == |rs|
    ensures forall i :: 0 <= i < |rs| ==> r[i].(rating := rs[i].rating) == rs[i]
    ensures forall i :: 0 <= i < |rs| && rs[i].id == id ==> r[i].rating == value
    ensures forall i :: 0 <= i < |rs| && rs[i].id != id ==> r[i] == rs[i]
  {
    seq(|rs|, i requires 0 <= i < |rs| => if rs[i].id == id then rs[i].(rating := value) else rs[i])
  }

  /** The ledger half of `submitRating`: the caller's existing rating for the
      store takes the value (with every rating sharing its id), or one rating
      is appended. */
  function WriteRating(rs: seq<Rating>, userId: string, storeId: string, value: int, newId: string,
                       today: string): (r: seq<Rating>)
    ensures PairIndex(rs, userId, storeId).Some? ==> r == SetRatingById(rs, rs[PairIndex(rs, userId, storeId).value].id, value)
    ensures PairIndex(rs, userId, storeId).None? ==> r == rs + [Rating(newId, userId, storeId, value, today)]
    ensures PairIndex(r, userId, storeId).Some? && r[PairIndex(r, userId, storeId).value].rating == value
  {
    match PairIndex(rs, userId, storeId)
    case Some(k) =>
      var r := SetRatingById(rs, rs[k].id, value);
      assert forall j :: 0 <= j <= k ==> IsPair(r[j], userId, storeId) == IsPair(rs[j], userId, storeId);
      assert PairIndex(r, userId, storeId) == Some(k);
      r
    case None =>
      var r := rs + [Rating(newId, userId, storeId, value, today)];
      assert forall j :: 0 <= j < |rs| ==> r[j] == rs[j];
      assert IsPair(r[|rs|], userId, storeId);
      assert PairIndex(r, userId, storeId) == Some(|rs|);
      r
  }

  /** Writing a rating keeps at most one rating per (user, store). */
  lemma WriteRatingKeepsUnique(rs: seq<Rating>, userId: string, storeId: string, value: int, newId: string,
                               today: string)
    requires UniquePairs(rs)
    ensures UniquePairs(WriteRating(rs, userId, storeId, value, newId, today))
  {
    var r := WriteRating(rs, userId, storeId, value, newId, today);
    match PairIndex(rs, userId, storeId)
    case Some(k) =>
      assert forall i :: 0 <= i < |r| ==> Pair(r[i]) == Pair(rs[i]);
    case None =>
      assert forall i :: 0 <= i < |rs| ==> Pair(r[i]) == Pair(rs[i]) && Pair(rs[i]) != (userId, storeId);
  }

  /** The ratings of one store, in list order. */
  function ForStore(rs: seq<Rating>, storeId: string): (r: seq<Rating>)
    ensures forall i :: 0 <= i < |r| ==> r[i].storeId == storeId && r[i] in rs
    ensures forall i :: 0 <= i < |rs| && rs[i].storeId == storeId ==> rs[i] in r
  {
    Filter(rs, (x: Rating) => x.storeId == storeId)
  }

  /** The star values of some ratings. */
  function Stars(rs: seq<Rating>): (vs: seq<int>)
    ensures |vs| == |rs| && forall i :: 0 <= i < |rs| ==> vs[i] == rs[i].rating
  {
    seq(|rs|, i requires 0 <= i < |rs| => rs[i].rating)
  }

  /** The mean star value, 0 for no ratings. */
  function MeanRating(rs: seq<Rating>): real
  {
    Average(Stars(rs))
  }

  /** `Math.round(x * 10) / 10`: `Math.round` takes halves up. The result is
      a whole number of tenths within a twentieth of `x`. */
  function Round1(x: real): (r: real)
    ensures (r * 10.0).Floor as real == r * 10.0
    ensures x - 0.05 < r <= x + 0.05
  {
    (x * 10.0 + 0.5).Floor as real / 10.0
  }

  /** The store's cached rating is set to `v`; nothing else changes. */
  function Recache(stores: seq<Store>, storeId: string, v: real): (r: seq<Store>)
    ensures |r| == |stores|
    ensures forall i :: 0 <= i < |stores| ==> r[i].(rating := stores[i].rating) == stores[i]
    ensures forall i :: 0 <= i < |stores| && stores[i].id == storeId ==> r[i].rating == v
    ensures forall i :: 0 <= i < |stores| && stores[i].id != storeId ==> r[i] == stores[i]
  {
    seq(|stores|, i requires 0 <= i < |stores| =>
      if stores[i].id == storeId then stores[i].(rating := v) else stores[i])
  }

  /** The average `submitRating` caches: the store's ratings from BEFORE the
      write, plus the new value, over their count plus one. */
  function SnapshotAverage(rs: seq<Rating>, storeId: string, value: int): (avg: real)
    ensures avg * (|ForStore(rs, storeId)| + 1) as real == (Sum(Stars(ForStore(rs, storeId))) + value) as real
  {
    var mine := ForStore(rs, storeId);
    (Sum(Stars(mine)) + value) as real / (|mine| + 1) as real
  }

  /** `submitRating` as written: with nobody logged in nothing happens;
      otherwise the ledger is written and the store's cache is set from the
      pre-write snapshot. */
  function SubmitRating(st: State, storeId: string, value: int, newId: string, today: string): (r: State)
    ensures st.user.None? ==> r == st
    ensures st.user.Some? ==>
              && r.user == st.user && r.users == st.users
              && r.ratings == WriteRating(st.ratings, st.user.value.id, storeId, value, newId, today)
              && r.stores == Recache(st.stores, storeId, Round1(SnapshotAverage(st.ratings, storeId, value)))
  {
    match st.user
    case None => st
    case Some(u) =>
      st.(ratings := WriteRating(st.ratings, u.id, storeId, value, newId, today),
          stores := Recache(st.stores, storeId, Round1(SnapshotAverage(st.ratings, storeId, value))))
  }

  /** `submitRating` with the cache computed from the ratings AFTER the
      write: the store's cached rating is the rounded mean of the ratings it
      now has, so it agrees with what the owner's page computes. */
  function SubmitRatingFresh(st: State, storeId: string, value: int, newId: string, today: string): (r: State)
    ensures st.user.None? ==> r == st
    ensures st.user.Some? ==>
              && r.user == st.user && r.users == st.users
              && r.ratings == WriteRating(st.ratings, st.user.value.id, storeId, value, newId, today)
              && |r.stores| == |st.stores|
              && (forall i :: 0 <= i < |st.stores| && st.stores[i].id != storeId ==> r.stores[i] == st.stores[i])
              && (forall i :: 0 <= i < |st.stores| && st.stores[i].id == storeId ==>
                    r.stores[i] == st.stores[i].(rating := Round1(MeanRating(ForStore(r.ratings, storeId)))))
  {
    match st.user
    case None => st
    case Some(u) =>
      var rs := WriteRating(st.ratings, u.id, storeId, value, newId, today);
      st.(ratings := rs, stores := Recache(st.stores, storeId, Round1(MeanRating(ForStore(rs, storeId)))))
  }

  /** On a first submission for the pair the snapshot holds every other
      rating of the store, so the written and the corrected operation agree. */
  lemma {:induction false} SubmitRatingAgreesOnFirst(st: State, storeId: string, value: int, newId: string,
                                                     today: string)
    requires st.user.Some? && PairIndex(st.ratings, st.user.value.id, storeId).None?
    ensures SubmitRating(st, storeId, value, newId, today) == SubmitRatingFresh(st, storeId, value, newId, today)
  {
    var row := Rating(newId, st.user.value.id, storeId, value, today);
    var rs := st.ratings + [row];
    var mine := ForStore(st.ratings, storeId);
    FilterSnoc(st.ratings, row, (x: Rating) => x.storeId == storeId);
    assert ForStore(rs, storeId) == mine + [row];
    assert Stars(mine + [row]) == Stars(mine) + [value];
    SumSnoc(Stars(mine), value);
    assert MeanRating(ForStore(rs, storeId)) == SnapshotAverage(st.ratings, storeId, value);
  }

  /** The logged-in mock user John (id "2") rated store "1" with 4. Rating
      it 2 instead leaves 2 as the store's only rating, yet the written
      operation caches (4 + 2) / 2 = 3; the corrected one caches 2. */
  lemma SubmitRatingStaleOnResubmit()
    ensures var st := Initial.(user := Some(MockUsers[1]));
            var wrong := SubmitRating(st, "1", 2, "99", "2024-02-01");
            var fixed := SubmitRatingFresh(st, "1", 2, "99", "2024-02-01");
            && wrong.ratings == [Rating("1", "2", "1", 2, "2024-01-15")]
            && MeanRating(ForStore(wrong.ratings, "1")) == 2.0
            && wrong.stores[0].rating == 3.0
            && fixed.stores[0].rating == 2.0
  {
    var st := Initial.(user := Some(MockUsers[1]));
    var p := (x: Rating) => x.storeId == "1";
    assert PairIndex(MockRatings, "2", "1") == Some(0);
    var after := [Rating("1", "2", "1", 2, "2024-01-15")];
    assert WriteRating(MockRatings, "2", "1", 2, "99", "2024-02-01") == after;
    assert Filter(MockRatings, p) == MockRatings by {
      assert MockRatings[1..] == [];
    }
    assert Filter(after, p) == after by {
      assert after[1..] == [];
    }
    assert Stars(MockRatings) == [4];
    assert Stars(after) == [2];
    assert Sum([4]) == 4 && Sum([2]) == 2 by {
      assert [4][1..] == [] && [2][1..] == [];
    }
    assert SnapshotAverage(MockRatings, "1", 2) == 3.0;
    assert MeanRating(after) == 2.0;
    assert Round1(3.0) == 3.0 by {
      assert (3.0 * 10.0 + 0.5).Floor == 30;
    }
    assert Round1(2.0) == 2.0 by {
      assert (2.0 * 10.0 + 0.5).Floor == 20;
    }
  }

  /** `updateRating`: every rating with the id takes the new value; nothing
      else changes. */
  function UpdateRating(st: State, ratingId: string, newRating: int): (r: State)
    ensures r.user == st.user && r.users == st.users && r.stores == st.stores
    ensures r.ratings == SetRatingById(st.ratings, ratingId, newRating)
  {
    st.(ratings := SetRatingById(st.ratings, ratingId, newRating))
  }

  /** `getUserRatingForStore`: the current user's first rating of the store;
      nothing when logged out. */
  function GetUserRatingForStore(st: State, storeId: string): (r: Option<Rating>)
    ensures st.user.None? ==> r.None?
    ensures st.user.Some? ==>
              match PairIndex(st.ratings, st.user.value.id, storeId)
              case None => r.None?
              case Some(k) => r == Some(st.ratings[k])
  {
    match st.user
    case None => None
    case Some(u) =>
      match PairIndex(st.ratings, u.id, storeId)
      case None => None
      case Some(k) => Some(st.ratings[k])
  }

  /** Read-your-writes: after a submission the caller's rating of the store
      holds the submitted value. */
  lemma SubmitThenGet(st: State, storeId: string, value: int, newId: string, today: string)
    requires st.user.Some?
    ensures var r := GetUserRatingForStore(SubmitRating(st, storeId, value, newId, today), storeId);
            r.Some? && r.value.rating == value && r.value.userId == st.user.value.id && r.value.storeId == storeId
  {
  }

  // ---------------------------------------------------------------------------
  // The context as a state machine

  /** Every call the pages make on the context. */
  datatype Action =
    | LogIn(email: string, password: string, role: Role)
    | LogOut
    | SignUp(name: string, email: string, address: string, password: string, newId: string)
    | AddAccount(name: string, email: string, address: string, password: string, role: Role, newId: string)
    | AddShop(name: string, email: string, address: string, ownerId: string, newId: string)
    | ChangePassword(newPassword: string)
    | Rate(storeId: string, value: int, newId: string, today: string)
    | Rerate(ratingId: string, value: int)

  function Apply(st: State, a: Action): State
  {
    match a
    case LogIn(email, password, role) => Login(st, email, password, role).state
    case LogOut => Logout(st)
    case SignUp(name, email, address, password, newId) => Signup(st, name, email, address, password, newId).state
    case AddAccount(name, email, address, password, role, newId) =>
      AddUser(st, name, email, address, password, role, newId)
    case AddShop(name, email, address, ownerId, newId) => AddStore(st, name, email, address, ownerId, newId)
    case ChangePassword(newPassword) => UpdatePassword(st, newPassword).state
    case Rate(storeId, value, newId, today) => SubmitRating(st, storeId, value, newId, today)
    case Rerate(ratingId, value) => UpdateRating(st, ratingId, value)
  }

  /** The values the rating widget can submit. */
  predicate StarAction(a: Action)
  {
    (a.Rate? ==> 1 <= a.value <= 5) && (a.Rerate? ==> 1 <= a.value <= 5)
  }

  /** Every operation keeps at most one rating per (user, store), and keeps
      the values in 1..5 when the submitted value is. */
  lemma ApplyKeepsInvariant(st: State, a: Action)
    requires UniquePairs(st.ratings)
    ensures UniquePairs(Apply(st, a).ratings)
    ensures InRange(st.ratings) && StarAction(a) ==> InRange(Apply(st, a).ratings)
  {
    match a
    case Rate(storeId, value, newId, today) =>
      if st.user.Some? {
        WriteRatingKeepsUnique(st.ratings, st.user.value.id, storeId, value, newId, today);
      }
    case Rerate(ratingId, value) =>
      var r := Apply(st, a).ratings;
      assert forall i :: 0 <= i < |r| ==> Pair(r[i]) == Pair(st.ratings[i]);
    case _ =>
  }

  /** A submission of a star count keeps the invariant. */
  lemma SubmitKeepsInvariant(st: State, storeId: string, value: int, newId: string, today: string)
    requires UniquePairs(st.ratings) && InRange(st.ratings) && 1 <= value <= 5
    ensures UniquePairs(SubmitRating(st, storeId, value, newId, today).ratings)
    ensures InRange(SubmitRating(st, storeId, value, newId, today).ratings)
  {
    if st.user.Some? {
      var rs := WriteRating(st.ratings, st.user.value.id, storeId, value, newId, today);
      WriteRatingKeepsUnique(st.ratings, st.user.value.id, storeId, value, newId, today);
      assert SubmitRating(st, storeId, value, newId, today).ratings == rs;
    }
  }

  /** Any sequence of calls keeps the invariant. */
  lemma {:induction false} ReplayKeepsInvariant(st: State, actions: seq<Action>)
    requires UniquePairs(st.ratings)
    ensures UniquePairs(Replay(st, actions).ratings)
    ensures InRange(st.ratings) && (forall i :: 0 <= i < |actions| ==> StarAction(actions[i])) ==>
              InRange(Replay(st, actions).ratings)
    decreases |actions|
  {
    if |actions| > 0 {
      ApplyKeepsInvariant(st, actions[0]);
      ReplayKeepsInvariant(Apply(st, actions[0]), actions[1..]);
    }
  }

  function Replay(st: State, actions: seq<Action>): State
    decreases |actions|
  {
    if |actions| == 0 then st else Replay(Apply(st, actions[0]), actions[1..])
  }

  /** The mock data starts out with the invariant. */
  lemma InitialKeepsInvariant()
    ensures UniquePairs(Initial.ratings) && InRange(Initial.ratings)
  {
  }
}
