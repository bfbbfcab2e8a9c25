/** The star-rating widget on a store card: the selection, hover
    highlighting, and the submit button that calls the context. */
module RatingComponent {
  import opened Wrappers
  import opened AuthContext

  datatype Widget = Widget(selected: int, hovered: int)

  /** `existingRating?.rating || 0`. */
  function InitialSelection(existing: Option<Rating>): (r: int)
    ensures existing.None? ==> r == 0
    ensures existing.Some? ==> r == existing.value.rating
  {
    match existing
    case None => 0
    case Some(x) => if x.rating != 0 then x.rating else 0
  }

  /** The widget as first rendered for a store. */
  function Mount(st: State, storeId: string): Widget
  {
    Widget(InitialSelection(GetUserRatingForStore(st, storeId)), 0)
  }

  /** Mouse events on the five star buttons. */
  datatype Event = Enter(star: int) | Leave | Click(star: int)

  /** The buttons are numbered 1 to 5. */
  predicate FromButtons(e: Event)
  {
    (e.Enter? ==> 1 <= e.star <= 5) && (e.Click? ==> 1 <= e.star <= 5)
  }

  function Handle(w: Widget, e: Event): (r: Widget)
    ensures e.Enter? ==> r == w.(hovered := e.star)
    ensures e.Leave? ==> r == w.(hovered := 0)
    ensures e.Click? ==> r == w.(selected := e.star)
  {
    match e
    case Enter(star) => w.(hovered := star)
    case Leave => w.(hovered := 0)
    case Click(star) => w.(selected := star)
  }

  /** `hoveredRating || selectedRating`. */
  function Highlight(w: Widget): int
  {
    if w.hovered != 0 then w.hovered else w.selected
  }

  /** Which of stars 1..5 are drawn filled: a prefix, up to the highlight. */
  function Filled(w: Widget): (r: seq<bool>)
    ensures |r| == 5
    ensures forall i :: 0 <= i < 5 ==> (r[i] <==> i + 1 <= Highlight(w))
    ensures forall i, j :: 0 <= i < j < 5 && r[j] ==> r[i]
  {
    seq(5, i requires 0 <= i < 5 => i + 1 <= Highlight(w))
  }

  /** The selection and hover are 0 (none) or a star. */
  predicate WidgetOk(w: Widget)
  {
    0 <= w.selected <= 5 && 0 <= w.hovered <= 5
  }

  lemma MountOk(st: State, storeId: string)
    requires InRange(st.ratings)
    ensures WidgetOk(Mount(st, storeId))
  {
  }

  /** Button events keep the widget's values in range. */
  lemma {:induction false} EventsKeepOk(w: Widget, events: seq<Event>)
    requires WidgetOk(w)
    requires forall i :: 0 <= i < |events| ==> FromButtons(events[i])
    ensures WidgetOk(Run(w, events))
    decreases |events|
  {
    if |events| > 0 {
      EventsKeepOk(Handle(w, events[0]), events[1..]);
    }
  }

  function Run(w: Widget, events: seq<Event>): Widget
    decreases |events|
  {
    if |events| == 0 then w else Run(Handle(w, events[0]), events[1..])
  }

  datatype Toast = Toast(title: string, unit: string, destructive: bool)

  const PleaseSelect := Toast("Please select a rating", "", true)

  /** `handleRatingSubmit`: with nothing selected a warning and no call;
      otherwise the context records the selection and the toast says
      whether it replaced an earlier rating. */
  function Submit(w: Widget, st: State, storeId: string, newId: string, today: string): (r: (Toast, State))
    ensures w.selected == 0 ==> r == (PleaseSelect, st)
    ensures w.selected != 0 ==>
              && r.1 == SubmitRating(st, storeId, w.selected, newId, today)
              && !r.0.destructive
              && (r.0.title == "Rating updated" <==> GetUserRatingForStore(st, storeId).Some?)
              && (r.0.title == "Rating submitted" <==> GetUserRatingForStore(st, storeId).None?)
              && (r.0.unit == "stars" <==> w.selected > 1)
              && (r.0.unit == "star" <==> w.selected <= 1)
  {
    if w.selected == 0 then (PleaseSelect, st)
    else
      var title := if GetUserRatingForStore(st, storeId).Some? then "Rating updated" else "Rating submitted";
      var unit := if w.selected > 1 then "stars" else "star";
      (Toast(title, unit, false), SubmitRating(st, storeId, w.selected, newId, today))
  }

  /** The widget reaches the context's stale cache: John, who rated store
      "1" with 4, selects 2 and submits. The toast reports an update, his
      rating becomes 2, and store "1" is cached at 3.0 although 2 is its
      only rating. */
  lemma SubmitCachesStaleMean()
    ensures var st := Initial.(user := Some(MockUsers[1]));
            var (toast, after) := Submit(Widget(2, 0), st, "1", "99", "2024-02-01");
            && toast == Toast("Rating updated", "stars", false)
            && GetUserRatingForStore(after, "1") == Some(Rating("1", "2", "1", 2, "2024-01-15"))
            && MeanRating(ForStore(after.ratings, "1")) == 2.0
            && after.stores[0].rating == 3.0
  {
    var st := Initial.(user := Some(MockUsers[1]));
    assert PairIndex(st.ratings, "2", "1") == Some(0);
    SubmitRatingStaleOnResubmit();
    var after := SubmitRating(st, "1", 2, "99", "2024-02-01");
    assert after.ratings == [Rating("1", "2", "1", 2, "2024-01-15")];
    assert PairIndex(after.ratings, "2", "1") == Some(0);
  }

  /** Whatever the widget submits is a star count, so the context's ratings
      stay within 1..5 and unique per (user, store). */
  lemma SubmitKeepsInvariant(w: Widget, st: State, storeId: string, newId: string, today: string)
    requires WidgetOk(w) && InRange(st.ratings) && UniquePairs(st.ratings)
    ensures InRange(Submit(w, st, storeId, newId, today).1.ratings)
    ensures UniquePairs(Submit(w, st, storeId, newId, today).1.ratings)
  {
    if w.selected != 0 {
      AuthContext.SubmitKeepsInvariant(st, storeId, w.selected, newId, today);
    }
  }

  /** Nothing renders with nobody logged in. */
  predicate Renders(st: State)
  {
    st.user.Some?
  }
}
