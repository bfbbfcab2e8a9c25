/** The admin's stores table: the search over name, email and address, and
    the owner's name beside each store. */
module StoresTable {
  import opened Seqs
  import opened Text
  import opened AuthContext

  predicate Kept(s: Store, term: string)
  {
    ContainsInsensitive(s.name, term) || ContainsInsensitive(s.email, term) || ContainsInsensitive(s.address, term)
  }

  /** `filteredStores`: the stores matching the search, in list order. */
  function FilteredStores(stores: seq<Store>, term: string): (r: seq<Store>)
    ensures IsSubseq(r, stores)
    ensures forall i :: 0 <= i < |r| ==> Kept(r[i], term)
    ensures forall i :: 0 <= i < |stores| && Kept(stores[i], term) ==> stores[i] in r
  {
    FilterIsSubseq(stores, (s: Store) => Kept(s, term));
    Filter(stores, (s: Store) => Kept(s, term))
  }

  /** An empty search shows every store, in order. */
  lemma EmptySearchKeepsAll(stores: seq<Store>)
    ensures FilteredStores(stores, "") == stores
  {
    forall s: Store
      ensures Kept(s, "")
    {
      ContainsEmpty(Lower(s.name));
      assert Lower("") == "";
    }
    FilterAll(stores, (s: Store) => Kept(s, ""));
  }

  /** The "No stores found" line appears exactly when no store matches. */
  lemma NoStoresMessage(stores: seq<Store>, term: string)
    ensures |FilteredStores(stores, term)| == 0 <==> forall i :: 0 <= i < |stores| ==> !Kept(stores[i], term)
  {
  }

  /** `getOwnerName`: the name of the first user with the id, or
      "Unknown Owner". */
  function OwnerName(users: seq<User>, ownerId: string): (r: string)
    ensures (forall i :: 0 <= i < |users| ==> users[i].id != ownerId) ==> r == "Unknown Owner"
    ensures (exists i :: 0 <= i < |users| && users[i].id == ownerId) ==>
              exists i :: 0 <= i < |users| && users[i].id == ownerId &&
                          (forall j :: 0 <= j < i ==> users[j].id != ownerId) && r == users[i].name
  {
    match Find(users, (u: User) => u.id == ownerId)
    case None => "Unknown Owner"
    case Some(u) => u.name
  }

  /** In the mock data, "Tech Paradise" names owner "4", who is no user. */
  lemma MockOwners()
    ensures OwnerName(MockUsers, MockStores[0].ownerId) == "Store Owner Mike Johnson"
    ensures OwnerName(MockUsers, MockStores[1].ownerId) == "Unknown Owner"
  {
    assert MockUsers[0].id != "3" && MockUsers[1].id != "3";
  }
}
