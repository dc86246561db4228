/** What a review comes to: it goes on exactly as long as its origin is owned, appending entries never takes that
    away, and a review nobody disturbs is saved and consumed. */
module ReviewOutcomes {
  import opened Prelude
  import opened ReviewTransaction
  import V = DiffValidation
  import J = Journal

  lemma HasLast(entries: seq<J.Entry>, captured: seq<J.Entry>)
    requires |captured| > 0 && captured <= entries
    ensures J.HasId(entries, CutoffOf(captured).value)
  {
    assert entries[|captured| - 1] in entries;
  }

  /** The origin is owned exactly if the same session is current and its branch begins with what was captured. */
  lemma OwnedExactly(h: Host, r: Review)
    requires GoodHost(h) && Remembered(h, r)
    ensures OwnsOrigin(h, r) <==> h.current == r.origin && r.captured <= ActiveBranch(h)
  {
    if OwnsOrigin(h, r) { OwnedBranchExtends(h, r); }
    if |r.captured| > 0 && r.captured <= ActiveBranch(h) { HasLast(ActiveBranch(h), r.captured); }
  }

  /** What the review goes on to, or that it ends: only the phase tells, and nothing else of the world has changed. */
  lemma GoesOnWhileOwned(w: World, e: Event)
    requires Invariant(w) && Enabled(w, e) && (e.NotesRead? || e.Saved?)
    ensures var r, next := w.phase.review, Step(w, e);
            && next.host == w.host
            && next.saved == (if e.Saved? then w.saved[e.reviewRef := r] else w.saved)
            && next.phase == if w.host.current != r.origin || !(r.captured <= ActiveBranch(w.host)) then Ended
                             else if e.NotesRead? then Saving(r) else Closing(r, e.reviewRef)
  {
    OwnedExactly(w.host, w.phase.review);
    hide OwnsOrigin, ActiveBranch, Remembered, GoodHost;
  }

  /** A loaded diff begins a review of what is then on the branch, unless the session has changed. */
  lemma LoadedBegins(w: World, snapshot: V.Snapshot)
    requires Invariant(w) && Enabled(w, Loaded(snapshot))
    ensures var next := Step(w, Loaded(snapshot));
            && next.host == w.host && next.saved == w.saved
            && if w.host.current != w.phase.origin then next.phase == Ended
               else
                 && next.phase.Reviewing?
                 && var r, branch := next.phase.review, ActiveBranch(w.host);
                    && r.origin == w.host.current && r.captured == branch
                    && multiset(r.shown) + multiset(r.discarded) == multiset(J.Active(branch))
                    && (forall a :: a in r.shown ==> V.IsCurrent(snapshot, a))
                    && (forall a :: a in r.discarded ==> !V.IsCurrent(snapshot, a))
  {
    hide ActiveBranch, J.Active, V.IsCurrent;
    var active := J.Active(ActiveBranch(w.host));
    V.PartitionInOrder(snapshot, active);
    SelectedAre(active, a => V.IsCurrent(snapshot, a), true);
    SelectedAre(active, a => V.IsCurrent(snapshot, a), false);
  }

  lemma {:induction false} SelectedAre<T>(items: seq<T>, test: T -> bool, outcome: bool)
    ensures forall x :: x in V.Selected(items, test, outcome) ==> test(x) == outcome
  {
    if |items| > 0 { SelectedAre(items[..|items| - 1], test, outcome); }
  }

  /** The origin stays owned when entries are appended to whatever session is current. */
  lemma AppendKeepsOwned(w: World, e: J.Entry)
    requires Invariant(w) && Enabled(w, Append(e)) && Ongoing(w.phase) && OwnsOrigin(w.host, w.phase.review)
    ensures var next := Step(w, Append(e));
            && Invariant(next) && Usable(next.host) && next.phase == w.phase && next.saved == w.saved
            && OwnsOrigin(next.host, w.phase.review)
            && ActiveBranch(next.host) == ActiveBranch(w.host) + [e]
  {
    var r, next := w.phase.review, Step(w, Append(e));
    StepKeeps(w, Append(e));
    AppendIsGood(w.host.sessions[w.host.current], e);
    OwnedExactly(w.host, r);
    hide Branch, GoodTree, OwnsOrigin, Remembered, HasEntry;
    assert ActiveBranch(next.host) == ActiveBranch(w.host) + [e];
    assert next.host.current == w.host.current;
    hide *;
    OwnedAgain(next, r);
  }

  lemma OwnedAgain(w: World, r: Review)
    requires Invariant(w) && Ongoing(w.phase) && w.phase.review == r
    requires w.host.current == r.origin && r.captured <= ActiveBranch(w.host)
    ensures OwnsOrigin(w.host, r)
  {
    OwnedExactly(w.host, r);
  }

  // ----- A whole review -----

  /** The events can happen in this order. */
  predicate Goes(w: World, events: seq<Event>)
    decreases |events|
  {
    |events| == 0 || (Enabled(w, events[0]) && Goes(Step(w, events[0]), events[1..]))
  }

  function Reached(w: World, events: seq<Event>): World
    requires Goes(w, events)
    decreases |events|
  {
    if |events| == 0 then w else Reached(Step(w, events[0]), events[1..])
  }

  function Appends(entries: seq<J.Entry>): (events: seq<Event>)
    ensures |events| == |entries| && forall i :: 0 <= i < |entries| ==> events[i] == Append(entries[i])
  {
    seq(|entries|, i requires 0 <= i < |entries| => Append(entries[i]))
  }

  /** First one event, then the rest. */
  lemma GoesFirst(w: World, e: Event, rest: seq<Event>)
    requires Goes(w, [e] + rest)
    ensures Enabled(w, e) && Goes(Step(w, e), rest) && Reached(w, [e] + rest) == Reached(Step(w, e), rest)
  {
    assert ([e] + rest)[1..] == rest;
  }

  /** Appended entries leave an owned review as it is, and the branch ends with them. */
  lemma {:induction false} GrowingKeepsOwned(w: World, entries: seq<J.Entry>, rest: seq<Event>) returns (next: World)
    requires Invariant(w) && Ongoing(w.phase) && OwnsOrigin(w.host, w.phase.review) && Goes(w, Appends(entries) + rest)
    ensures Goes(next, rest) && Reached(w, Appends(entries) + rest) == Reached(next, rest)
    ensures Invariant(next) && next.phase == w.phase && next.saved == w.saved && OwnsOrigin(next.host, w.phase.review)
    ensures ActiveBranch(next.host) == ActiveBranch(w.host) + entries
    decreases |entries|
  {
    hide Branch, GoodTree, OwnsOrigin, Remembered, HasEntry, ActiveBranch;
    if |entries| > 0 {
      var e := entries[0];
      AppendsFirst(entries, rest);
      GoesFirst(w, Append(e), Appends(entries[1..]) + rest);
      assert Usable(w.host);
      hide *;
      AppendKeepsOwned(w, e);
      var first := Step(w, Append(e));
      next := GrowingKeepsOwned(first, entries[1..], rest);
      assert ActiveBranch(w.host) + [e] + entries[1..] == ActiveBranch(w.host) + entries;
    } else {
      next := w;
      assert Usable(w.host);
      hide *;
      assert Appends(entries) + rest == rest;
      assert ActiveBranch(w.host) + [] == ActiveBranch(w.host);
      assert entries == [];
    }
  }

  lemma AppendsFirst(entries: seq<J.Entry>, rest: seq<Event>)
    requires |entries| > 0
    ensures Appends(entries) + rest == [Append(entries[0])] + (Appends(entries[1..]) + rest)
  {
  }

  /** From the notes on: they are read, the review is saved, the pane is closed. */
  lemma NotesToEnd(w: World, b: seq<J.Entry>, c: seq<J.Entry>, reviewRef: string, id: J.EntryId)
    requires Invariant(w) && w.phase.Reviewing? && OwnsOrigin(w.host, w.phase.review)
    requires Goes(w, [NotesRead] + (Appends(b) + ([Saved(reviewRef)] + (Appends(c) + [PaneClosed(id)]))))
    ensures var r, done := w.phase.review,
                           Reached(w, [NotesRead] + (Appends(b) + ([Saved(reviewRef)] + (Appends(c) + [PaneClosed(id)]))));
            && done.phase == Ended && Lookup(done.saved, reviewRef) == Some(r) && Usable(done.host)
            && ActiveBranch(done.host) == ActiveBranch(w.host) + b + c + [Completion(id, reviewRef, r)]
  {
    hide Goes, Reached, OwnsOrigin, ActiveBranch, Invariant, Enabled;
    var r := w.phase.review;
    var saving := [Saved(reviewRef)] + (Appends(c) + [PaneClosed(id)]);
    GoesFirst(w, NotesRead, Appends(b) + saving);
    StepKeeps(w, NotesRead);
    var w1 := GrowingKeepsOwned(Step(w, NotesRead), b, saving);
    GoesFirst(w1, Saved(reviewRef), Appends(c) + [PaneClosed(id)]);
    StepKeeps(w1, Saved(reviewRef));
    var w2 := GrowingKeepsOwned(Step(w1, Saved(reviewRef)), c, [PaneClosed(id)]);
    assert [PaneClosed(id)] + [] == [PaneClosed(id)];
    GoesFirst(w2, PaneClosed(id), []);
    StepKeeps(w2, PaneClosed(id));
    ClosedAppends(w2, id);
    NothingMore(Step(w2, PaneClosed(id)));
  }

  lemma NothingMore(w: World)
    ensures Goes(w, []) && Reached(w, []) == w
  {
  }

  lemma ClosedAppends(w: World, id: J.EntryId)
    requires Invariant(w) && Enabled(w, PaneClosed(id)) && OwnsOrigin(w.host, w.phase.review)
    ensures var done := Step(w, PaneClosed(id));
            && done.phase == Ended && done.saved == w.saved && Usable(done.host)
            && ActiveBranch(done.host) == ActiveBranch(w.host) + [Completion(id, w.phase.reviewRef, w.phase.review)]
  {
    AppendIsGood(w.host.sessions[w.host.current], Completion(id, w.phase.reviewRef, w.phase.review));
    hide Branch, GoodTree, OwnsOrigin, HasEntry;
  }

  /** A review during which the session only appends entries completes: what was on the branch when the journal was
      read is saved under the reference, and the branch ends with the appended entries and the completion. */
  lemma UndisturbedReviewCompletes(w: World, snapshot: V.Snapshot, a: seq<J.Entry>, b: seq<J.Entry>, c: seq<J.Entry>,
                                   reviewRef: string, id: J.EntryId) returns (r: Review)
    requires Invariant(w) && w.phase == Loading(w.host.current)
    requires Goes(w, [Loaded(snapshot)] + (Appends(a) + ([NotesRead] + (Appends(b) + ([Saved(reviewRef)] + (Appends(c) + [PaneClosed(id)]))))))
    ensures r.captured == ActiveBranch(w.host)
    ensures var done := Reached(w, [Loaded(snapshot)]
                                   + (Appends(a) + ([NotesRead] + (Appends(b) + ([Saved(reviewRef)] + (Appends(c) + [PaneClosed(id)]))))));
            && done.phase == Ended && Lookup(done.saved, reviewRef) == Some(r) && Usable(done.host)
            && ActiveBranch(done.host) == ActiveBranch(w.host) + a + b + c + [Completion(id, reviewRef, r)]
  {
    hide Goes, Reached, OwnsOrigin, ActiveBranch, Invariant, Enabled, Step;
    var notes := [NotesRead] + (Appends(b) + ([Saved(reviewRef)] + (Appends(c) + [PaneClosed(id)])));
    GoesFirst(w, Loaded(snapshot), Appends(a) + notes);
    StepKeeps(w, Loaded(snapshot));
    LoadedBegins(w, snapshot);
    var w1 := Step(w, Loaded(snapshot));
    r := w1.phase.review;
    OwnedAtFirst(w1, r);
    var w2 := GrowingKeepsOwned(w1, a, notes);
    NotesToEnd(w2, b, c, reviewRef, id);
  }

  lemma OwnedAtFirst(w: World, r: Review)
    requires Invariant(w) && Ongoing(w.phase) && w.phase.review == r && w.host.current == r.origin && Usable(w.host)
    requires r.captured == ActiveBranch(w.host)
    ensures OwnsOrigin(w.host, r)
  {
    OwnedExactly(w.host, r);
  }
}
