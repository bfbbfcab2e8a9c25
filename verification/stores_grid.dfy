/** The user's store browser: the search over name and address only. */
module StoresGrid {
  import opened Seqs
  import opened Text
  import opened AuthContext
  import StoresTable

  /** The email is never searched. */
  predicate Kept(s: Store, term: string)
  {
    ContainsInsensitive(s.name, term) || ContainsInsensitive(s.address, term)
  }

  function FilteredStores(stores: seq<Store>, term: string): (r: seq<Store>)
    ensures IsSubseq(r, stores)
    ensures forall i :: 0 <= i < |r| ==> Kept(r[i], term)
    ensures forall i :: 0 <= i < |stores| && Kept(stores[i], term) ==> stores[i] in r
  {
    FilterIsSubseq(stores, (s: Store) => Kept(s, term));
    Filter(stores, (s: Store) => Kept(s, term))
  }

  /** An empty search shows every store, in order. */
  lemma EmptySearchKeepsAll(stores: seq<Store>)
    ensures FilteredStores(stores, "") == stores
  {
    forall s: Store
      ensures Kept(s, "")
    {
      ContainsEmpty(Lower(s.name));
      assert Lower("") == "";
    }
    FilterAll(stores, (s: Store) => Kept(s, ""));
  }

  /** The empty-state card is shown exactly when no store matches. */
  lemma EmptyCard(stores: seq<Store>, term: string)
    ensures |FilteredStores(stores, term)| == 0 <==> forall i :: 0 <= i < |stores| ==> !Kept(stores[i], term)
  {
  }

  /** What the user sees is what the admin sees for the same search, less
      the stores that match on their email alone. */
  lemma GridWithinTable(stores: seq<Store>, term: string)
    ensures FilteredStores(stores, term) == Filter(StoresTable.FilteredStores(stores, term), (s: Store) => Kept(s, term))
    ensures IsSubseq(FilteredStores(stores, term), StoresTable.FilteredStores(stores, term))
  {
    FilterNarrows(stores, (s: Store) => Kept(s, term), (s: Store) => StoresTable.Kept(s, term));
    FilterIsSubseq(StoresTable.FilteredStores(stores, term), (s: Store) => Kept(s, term));
  }
}
