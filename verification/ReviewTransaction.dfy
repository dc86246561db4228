/** One `/diff` review as a transaction over a session that goes on changing: between two segments the
    host may append entries, move to another branch, or switch sessions. The review consumes the
    journal only through the leaf it captured before Hunk opened. */
module ReviewTransaction {
  import opened Prelude
  import opened Annotations
  import V = DiffValidation
  import J = Journal

  type SessionId = string

  // ----- Session trees -----

  datatype Node = Node(entry: J.Entry, parent: Option<nat>)

  /** An append-only tree of entries and the leaf of its active branch. */
  datatype Session = Session(tree: seq<Node>, leaf: Option<nat>)

  ghost predicate GoodTree(tree: seq<Node>) {
    && (forall i :: 0 <= i < |tree| && tree[i].parent.Some? ==> tree[i].parent.value < i)
    && (forall i, j :: 0 <= i < j < |tree| ==> tree[i].entry.id != tree[j].entry.id)
  }

  ghost predicate GoodSession(s: Session) {
    GoodTree(s.tree) && (s.leaf.Some? ==> s.leaf.value < |s.tree|)
  }

  function Branch(tree: seq<Node>, at: Option<nat>): seq<J.Entry>
    requires at.Some? ==> at.value < |tree|
    decreases if at.Some? then at.value + 1 else 0
  {
    if at.None? then []
    else
      var node := tree[at.value];
      (if node.parent.Some? && node.parent.value < at.value then Branch(tree, node.parent) else []) + [node.entry]
  }

  datatype Host = Host(sessions: map<SessionId, Session>, current: SessionId)

  ghost predicate GoodHost(h: Host) {
    h.current in h.sessions && forall id :: id in h.sessions ==> GoodSession(h.sessions[id])
  }

  predicate Usable(h: Host) {
    && h.current in h.sessions
    && (var s := h.sessions[h.current]; s.leaf.Some? ==> s.leaf.value < |s.tree|)
  }

  function ActiveBranch(h: Host): seq<J.Entry>
    requires Usable(h)
  {
    Branch(h.sessions[h.current].tree, h.sessions[h.current].leaf)
  }

  predicate HasEntry(tree: seq<Node>, id: J.EntryId) {
    exists n :: n in tree && n.entry.id == id
  }

  /** An entry appended below the leaf becomes the leaf. */
  function Appended(s: Session, e: J.Entry): Session {
    Session(s.tree + [Node(e, s.leaf)], Some(|s.tree|))
  }

  // ----- The review -----

  datatype Review = Review(
    origin: SessionId,
    at: Option<nat>,             // the leaf when the journal was read
    captured: seq<J.Entry>,      // the branch at that moment
    shown: seq<Annotation>,
    discarded: seq<Annotation>)

  datatype Phase =
    | Idle
    | Loading(origin: SessionId)
    | Reviewing(review: Review)
    | Saving(review: Review)
    | Closing(review: Review, reviewRef: string)
    | Ended

  datatype World = World(host: Host, phase: Phase, saved: map<string, Review>)

  datatype Event =
    | Append(entry: J.Entry)
    | Navigate(leaf: Option<nat>)
    | Switch(session: SessionId)
    | Begin
    | Loaded(snapshot: V.Snapshot)
    | NotesRead
    | Saved(reviewRef: string)
    | PaneClosed(entryId: J.EntryId)
    | Fail

  function CutoffOf(captured: seq<J.Entry>): Option<J.EntryId> {
    if |captured| == 0 then None else Some(captured[|captured| - 1].id)
  }

  /** Still the originating session, and its branch still runs through the captured leaf. */
  predicate OwnsOrigin(h: Host, r: Review)
    requires Usable(h)
  {
    h.current == r.origin && (|r.captured| == 0 || J.HasId(ActiveBranch(h), CutoffOf(r.captured).value))
  }

  function Capture(h: Host, snapshot: V.Snapshot): Review
    requires Usable(h)
  {
    var branch := ActiveBranch(h);
    Review(h.current, h.sessions[h.current].leaf, branch, V.Current(snapshot, J.Active(branch)),
           V.Stale(snapshot, J.Active(branch)))
  }

  function Completion(id: J.EntryId, reviewRef: string, r: Review): J.Entry {
    J.Entry(id, J.Journaled(J.Completed(reviewRef, CutoffOf(r.captured))))
  }

  function AppendTo(h: Host, e: J.Entry): Host
    requires h.current in h.sessions
  {
    h.(sessions := h.sessions[h.current := Appended(h.sessions[h.current], e)])
  }

  predicate Enabled(w: World, e: Event) {
    Usable(w.host) && CanHappen(w.phase, w.host.sessions[w.host.current], e)
  }

  predicate CanHappen(phase: Phase, s: Session, e: Event) {
    match e
    case Append(entry) => !HasEntry(s.tree, entry.id)
    case Navigate(leaf) => leaf.Some? ==> leaf.value < |s.tree|
    case Switch(_) => true
    case Begin => phase.Idle?
    case Loaded(_) => phase.Loading?
    case NotesRead => phase.Reviewing?
    case Saved(_) => phase.Saving?
    case PaneClosed(id) => phase.Closing? && !HasEntry(s.tree, id)
    case Fail => !phase.Idle? && !phase.Ended?
  }

  function Step(w: World, e: Event): World
    requires Enabled(w, e)
  {
    var h := w.host;
    var s := h.sessions[h.current];
    match e
    case Append(entry) => w.(host := AppendTo(h, entry))
    case Navigate(leaf) => w.(host := h.(sessions := h.sessions[h.current := s.(leaf := leaf)]))
    case Switch(session) =>
      w.(host := Host(if session in h.sessions then h.sessions else h.sessions[session := Session([], None)], session))
    case Begin => w.(phase := Loading(h.current))
    case Loaded(snapshot) =>
      w.(phase := if h.current != w.phase.origin then Ended else Reviewing(Capture(h, snapshot)))
    case NotesRead => w.(phase := if OwnsOrigin(h, w.phase.review) then Saving(w.phase.review) else Ended)
    case Saved(reviewRef) =>
      var r := w.phase.review;
      w.(saved := w.saved[reviewRef := r], phase := if OwnsOrigin(h, r) then Closing(r, reviewRef) else Ended)
    case PaneClosed(id) =>
      var r := w.phase.review;
      if OwnsOrigin(h, r) then w.(host := AppendTo(h, Completion(id, w.phase.reviewRef, r)), phase := Ended)
      else w.(phase := Ended)
    case Fail => w.(phase := Ended)
  }

  // ----- What every run keeps -----

  /** The captured branch is still a branch of the originating session. */
  ghost predicate Remembered(h: Host, r: Review) {
    && r.origin in h.sessions
    && (r.at.Some? ==> r.at.value < |h.sessions[r.origin].tree|)
    && Branch(h.sessions[r.origin].tree, r.at) == r.captured
  }

  ghost predicate Invariant(w: World) {
    && GoodHost(w.host)
    && (w.phase.Reviewing? || w.phase.Saving? || w.phase.Closing? ==> Remembered(w.host, w.phase.review))
    && (w.phase.Closing? ==> w.phase.reviewRef in w.saved && w.saved[w.phase.reviewRef] == w.phase.review)
  }

  lemma {:induction false} BranchStable(tree: seq<Node>, more: seq<Node>, at: Option<nat>)
    requires at.Some? ==> at.value < |tree|
    ensures Branch(tree + more, at) == Branch(tree, at)
    decreases if at.Some? then at.value + 1 else 0
  {
    if at.Some? && tree[at.value].parent.Some? && tree[at.value].parent.value < at.value {
      BranchStable(tree, more, tree[at.value].parent);
    }
  }

  lemma AppendIsGood(s: Session, e: J.Entry)
    requires GoodSession(s) && !HasEntry(s.tree, e.id)
    ensures GoodSession(Appended(s, e))
    ensures Branch(Appended(s, e).tree, Appended(s, e).leaf) == Branch(s.tree, s.leaf) + [e]
  {
    BranchStable(s.tree, [Node(e, s.leaf)], s.leaf);
    assert forall n :: n in s.tree ==> n.entry.id != e.id;
  }

  lemma AppendRemembers(h: Host, e: J.Entry, r: Review)
    requires GoodHost(h) && Remembered(h, r)
    ensures Remembered(AppendTo(h, e), r)
  {
    var s := h.sessions[h.current];
    BranchStable(s.tree, [Node(e, s.leaf)], if r.origin == h.current then r.at else None);
  }

  lemma AppendKeepsHost(h: Host, e: J.Entry)
    requires GoodHost(h) && !HasEntry(h.sessions[h.current].tree, e.id)
    ensures GoodHost(AppendTo(h, e))
  {
    AppendIsGood(h.sessions[h.current], e);
    hide GoodSession, HasEntry, Appended;
  }

  predicate Ongoing(phase: Phase) {
    phase.Reviewing? || phase.Saving? || phase.Closing?
  }

  lemma AppendKeeps(w: World, e: J.Entry)
    requires Invariant(w) && Enabled(w, Append(e))
    ensures Invariant(Step(w, Append(e)))
  {
    AppendKeepsHost(w.host, e);
    if Ongoing(w.phase) { AppendRemembers(w.host, e, w.phase.review); }
    hide GoodHost, Remembered, HasEntry, AppendTo;
  }

  lemma SwitchKeeps(w: World, session: SessionId)
    requires Invariant(w)
    ensures Invariant(Step(w, Switch(session)))
  {
    NoTree();
    hide Branch, GoodTree;
  }

  lemma NavigateKeeps(w: World, leaf: Option<nat>)
    requires Invariant(w) && Enabled(w, Navigate(leaf))
    ensures Invariant(Step(w, Navigate(leaf)))
  {
    hide Branch, GoodTree;
  }

  lemma PaneClosedKeeps(w: World, id: J.EntryId)
    requires Invariant(w) && Enabled(w, PaneClosed(id))
    ensures Invariant(Step(w, PaneClosed(id)))
  {
    AppendKeepsHost(w.host, Completion(id, w.phase.reviewRef, w.phase.review));
    hide AppendTo, HasEntry, OwnsOrigin, Completion;
  }

  lemma LoadedKeeps(w: World, snapshot: V.Snapshot)
    requires Invariant(w) && Enabled(w, Loaded(snapshot))
    ensures Invariant(Step(w, Loaded(snapshot)))
  {
    hide V.Current, V.Stale, J.Active;
  }

  lemma ReviewKeeps(w: World, e: Event)
    requires Invariant(w) && Enabled(w, e) && (e.Begin? || e.NotesRead? || e.Saved? || e.Fail?)
    ensures Invariant(Step(w, e))
  {
    hide GoodHost, Remembered, OwnsOrigin;
  }

  lemma StepKeeps(w: World, e: Event)
    requires Invariant(w) && Enabled(w, e)
    ensures Invariant(Step(w, e))
  {
    match e
    case Append(entry) => AppendKeeps(w, entry);
    case Navigate(leaf) => NavigateKeeps(w, leaf);
    case Switch(session) => SwitchKeeps(w, session);
    case Loaded(snapshot) => LoadedKeeps(w, snapshot);
    case PaneClosed(id) => PaneClosedKeeps(w, id);
    case _ => ReviewKeeps(w, e);
  }

  lemma NoTree()
    ensures GoodTree([])
  {
  }

  // ----- The branch at completion extends the captured one -----

  lemma {:induction false} OnBranch(tree: seq<Node>, at: Option<nat>, e: J.Entry) returns (k: nat)
    requires GoodTree(tree) && (at.Some? ==> at.value < |tree|) && e in Branch(tree, at)
    ensures k <= at.value < |tree| && tree[k].entry == e && Branch(tree, Some(k)) <= Branch(tree, at)
    decreases if at.Some? then at.value + 1 else 0
  {
    var node := tree[at.value];
    if e == node.entry {
      k := at.value;
    } else {
      k := OnBranch(tree, node.parent, e);
    }
  }

  lemma LastOfBranch(tree: seq<Node>, at: Option<nat>)
    requires at.Some? && at.value < |tree|
    ensures |Branch(tree, at)| > 0 && Branch(tree, at)[|Branch(tree, at)| - 1] == tree[at.value].entry
  {
  }

  /** Owning the origin means that the branch still begins with everything that was captured. */
  lemma OwnedBranchExtends(h: Host, r: Review)
    requires GoodHost(h) && Remembered(h, r) && OwnsOrigin(h, r)
    ensures r.captured <= ActiveBranch(h)
  {
    if |r.captured| > 0 {
      var tree := h.sessions[h.current].tree;
      var at := h.sessions[h.current].leaf;
      var id := CutoffOf(r.captured).value;
      LastOfBranch(tree, r.at);
      var e :| e in ActiveBranch(h) && e.id == id;
      var k := OnBranch(tree, at, e);
      hide Branch;
      assert k == r.at.value;
    }
  }

  lemma {:induction false} BranchIsFresh(tree: seq<Node>, at: Option<nat>, id: J.EntryId)
    requires (at.Some? ==> at.value < |tree|) && !HasEntry(tree, id)
    ensures !J.HasId(Branch(tree, at), id)
    decreases if at.Some? then at.value + 1 else 0
  {
    if at.Some? {
      var node := tree[at.value];
      assert node in tree;
      if node.parent.Some? && node.parent.value < at.value { BranchIsFresh(tree, node.parent, id); }
    }
  }

  lemma {:induction false} BranchIsUnique(tree: seq<Node>, at: Option<nat>)
    requires GoodTree(tree) && (at.Some? ==> at.value < |tree|)
    ensures J.UniqueIds(Branch(tree, at))
    decreases if at.Some? then at.value + 1 else 0
  {
    if at.Some? && tree[at.value].parent.Some? {
      var parent := tree[at.value].parent;
      BranchIsUnique(tree, parent);
      forall e | e in Branch(tree, parent)
        ensures e.id != tree[at.value].entry.id
      {
        var k := OnBranch(tree, parent, e);
      }
    }
  }

  lemma IndexInPrefix(entries: seq<J.Entry>, captured: seq<J.Entry>)
    requires J.UniqueIds(entries) && captured <= entries && |captured| > 0
    ensures J.IndexOf(entries, CutoffOf(captured).value) == Some(|captured| - 1)
  {
    assert captured[|captured| - 1] == entries[|captured| - 1];
    assert entries[|captured| - 1] in entries;
  }

  /** Where the fold starts once a completion has been appended. */
  function Consumed(before: seq<J.Entry>, captured: seq<J.Entry>): (from: nat)
    ensures from <= |before| || from == |captured|
    ensures from >= |captured|
  {
    if J.Boundary(before) + 1 >= |captured| then J.Boundary(before) + 1 else |captured|
  }

  lemma {:induction false} NoOpsAppended(entries: seq<J.Entry>, e: J.Entry)
    requires J.OpsOf(e) == []
    ensures J.Ops(entries + [e]) == J.Ops(entries)
  {
    assert (entries + [e])[..|entries|] == entries;
  }

  lemma SliceAppended<T>(s: seq<T>, x: T, k: nat)
    requires k <= |s|
    ensures (s + [x])[k..] == s[k..] + [x]
  {
  }

  lemma ActiveFrom(entries: seq<J.Entry>, from: nat)
    requires J.Boundary(entries) + 1 == from <= |entries|
    ensures J.Active(entries) == J.Fold(J.Ops(entries[from..]))
  {
    hide J.Fold, J.Ops, J.Boundary;
  }

  lemma CompletionFold(before: seq<J.Entry>, r: Review, id: J.EntryId, reviewRef: string)
    requires J.UniqueIds(before) && !J.HasId(before, id) && r.captured <= before
    ensures J.Active(before + [Completion(id, reviewRef, r)]) == J.Fold(J.Ops(before[Consumed(before, r.captured)..]))
  {
    var c := Completion(id, reviewRef, r);
    var from := Consumed(before, r.captured);
    CompletionBoundary(before, r, id, reviewRef);
    assert J.OpsOf(c) == [];
    assert from <= |before|;
    hide J.Fold, J.OpsOf, J.UniqueIds, J.HasId, J.IndexOf, J.Boundary, J.Ops, J.Active, Completion, Consumed;
    ActiveFrom(before + [c], from);
    SliceAppended(before, c, from);
    NoOpsAppended(before[from..], c);
  }

  lemma CompletionBoundary(before: seq<J.Entry>, r: Review, id: J.EntryId, reviewRef: string)
    requires J.UniqueIds(before) && !J.HasId(before, id) && r.captured <= before
    ensures J.Boundary(before + [Completion(id, reviewRef, r)]) + 1 == Consumed(before, r.captured)
  {
    J.BoundaryNeverMovesBack(before, Completion(id, reviewRef, r));
    hide J.Boundary, J.UniqueIds, J.HasId, J.IndexOf;
    if |r.captured| > 0 { IndexInPrefix(before, r.captured); }
  }

  /** A completed review consumes everything that was on the branch when the journal was read, and only
      that: afterwards the active annotations are exactly the fold of what was appended since, or since
      a later reset or cutoff. */
  lemma CompletionConsumesExactlyTheCaptured(w: World, id: J.EntryId)
    requires Invariant(w) && Enabled(w, PaneClosed(id)) && OwnsOrigin(w.host, w.phase.review)
    ensures var r, before, after := w.phase.review, ActiveBranch(w.host), ActiveBranch(Step(w, PaneClosed(id)).host);
            && r.captured <= before
            && after == before + [Completion(id, w.phase.reviewRef, r)]
            && J.Active(after) == J.Fold(J.Ops(before[Consumed(before, r.captured)..]))
            && (J.Boundary(before) < |r.captured| ==> J.Active(after) == J.Fold(J.Ops(before[|r.captured|..])))
  {
    var h, r := w.host, w.phase.review;
    var s := h.sessions[h.current];
    OwnedBranchExtends(h, r);
    BranchIsUnique(s.tree, s.leaf);
    BranchIsFresh(s.tree, s.leaf, id);
    AppendIsGood(s, Completion(id, w.phase.reviewRef, r));
    hide Branch, J.Active, J.Fold, J.Boundary, HasEntry, GoodTree;
    CompletionFold(ActiveBranch(h), r, id, w.phase.reviewRef);
  }

  lemma {:induction false} FoldedWereRecorded(entries: seq<J.Entry>, a: Annotation) returns (k: nat)
    requires J.Set(a) in J.Ops(entries)
    ensures k < |entries| && entries[k].body.Journaled? && entries[k].body.event.Recorded?
            && a in entries[k].body.event.annotations
  {
    var last := entries[|entries| - 1];
    if J.Set(a) in J.Ops(entries[..|entries| - 1]) {
      k := FoldedWereRecorded(entries[..|entries| - 1], a);
    } else {
      k := |entries| - 1;
      SetFrom(last, a);
    }
  }

  lemma SetFrom(e: J.Entry, a: Annotation)
    requires J.Set(a) in J.OpsOf(e)
    ensures e.body.Journaled? && e.body.event.Recorded? && a in e.body.event.annotations
  {
    if e.body.event.Recorded? {
      SetAllFrom(e.body.event.annotations, a);
    } else if e.body.event.Withdrawn? {
      DeleteAllSetsNone(e.body.event.ids, a);
    }
  }

  lemma {:induction false} SetAllFrom(annotations: seq<Annotation>, a: Annotation)
    requires J.Set(a) in J.SetAll(annotations)
    ensures a in annotations
  {
    if J.Set(a) in J.SetAll(annotations[..|annotations| - 1]) { SetAllFrom(annotations[..|annotations| - 1], a); }
  }

  lemma {:induction false} DeleteAllSetsNone(ids: seq<Digest>, a: Annotation)
    ensures J.Set(a) !in J.DeleteAll(ids)
  {
    if |ids| > 0 { DeleteAllSetsNone(ids[..|ids| - 1], a); }
  }

  lemma {:induction false} LastIsThere(ops: seq<J.Op>, id: Digest)
    ensures J.LastAbout(ops, id).Some? ==> J.LastAbout(ops, id).value in ops
  {
    if |ops| > 0 { LastIsThere(ops[..|ops| - 1], id); }
  }

  lemma FoldedSince(before: seq<J.Entry>, from: nat, a: Annotation) returns (k: nat)
    requires from <= |before| && a in J.Fold(J.Ops(before[from..]))
    ensures from <= k < |before|
    ensures before[k].body.Journaled? && before[k].body.event.Recorded? && a in before[k].body.event.annotations
  {
    var ops := J.Ops(before[from..]);
    J.ActiveMeansLastRecorded(ops);
    LastIsThere(ops, a.id);
    hide J.Fold;
    var i := FoldedWereRecorded(before[from..], a);
    k := from + i;
  }

  /** Nothing the user was shown comes back by itself: every annotation active after a completion was
      recorded by an entry appended after the captured leaf. */
  lemma ShownAnnotationsAreConsumed(w: World, id: J.EntryId, a: Annotation) returns (k: nat)
    requires Invariant(w) && Enabled(w, PaneClosed(id)) && OwnsOrigin(w.host, w.phase.review)
    requires a in J.Active(ActiveBranch(Step(w, PaneClosed(id)).host))
    ensures var before := ActiveBranch(w.host);
            && |w.phase.review.captured| <= k < |before|
            && before[k].body.Journaled? && before[k].body.event.Recorded? && a in before[k].body.event.annotations
  {
    hide J.Active, J.Fold, J.Boundary, Invariant, ActiveBranch;
    CompletionConsumesExactlyTheCaptured(w, id);
    k := FoldedSince(ActiveBranch(w.host), Consumed(ActiveBranch(w.host), w.phase.review.captured), a);
  }

  /** Without the origin nothing is consumed. */
  lemma LostOriginConsumesNothing(w: World, id: J.EntryId)
    requires Invariant(w) && Enabled(w, PaneClosed(id)) && !OwnsOrigin(w.host, w.phase.review)
    ensures Step(w, PaneClosed(id)).host == w.host
  {
  }

  // ----- Runs -----

  predicate Run(start: Host, events: seq<Event>)
    decreases |events|, 0
  {
    |events| == 0 || (Run(start, Front(events)) && Enabled(After(start, Front(events)), events[|events| - 1]))
  }

  function After(start: Host, events: seq<Event>): World
    requires Run(start, events)
    decreases |events|, 1
  {
    if |events| == 0 then World(start, Idle, map[]) else Step(After(start, Front(events)), events[|events| - 1])
  }

  lemma {:induction false} EveryRunKeepsInvariant(start: Host, events: seq<Event>)
    requires GoodHost(start) && Run(start, events)
    ensures Invariant(After(start, events))
    decreases |events|
  {
    if |events| > 0 {
      EveryRunKeepsInvariant(start, Front(events));
      StepKeeps(After(start, Front(events)), events[|events| - 1]);
    }
  }

  /** A review that is about to complete was saved before, under the reference its completion names,
      at a moment when its origin was still owned. */
  lemma {:induction false} CompletionFollowsItsSave(start: Host, events: seq<Event>) returns (j: nat)
    requires Run(start, events) && After(start, events).phase.Closing?
    ensures j < |events| && Run(start, events[..j])
    ensures var w, phase := After(start, events[..j]), After(start, events).phase;
            && w.phase == Saving(phase.review) && events[j] == Saved(phase.reviewRef)
            && Usable(w.host) && OwnsOrigin(w.host, phase.review)
    decreases |events|
  {
    var earlier, last := Front(events), events[|events| - 1];
    assert Run(start, earlier) && Enabled(After(start, earlier), last);
    ClosingCameFrom(After(start, earlier), last);
    hide OwnsOrigin, Usable, Step, Enabled;
    if last.Saved? {
      j := |earlier|;
    } else {
      j := CompletionFollowsItsSave(start, earlier);
      assert earlier[..j] == events[..j];
    }
  }

  lemma ClosingCameFrom(w: World, e: Event)
    requires Enabled(w, e) && Step(w, e).phase.Closing?
    ensures if e.Saved? then
              w.phase == Saving(Step(w, e).phase.review) && e.reviewRef == Step(w, e).phase.reviewRef
              && Usable(w.host) && OwnsOrigin(w.host, w.phase.review)
            else w.phase == Step(w, e).phase
  {
    hide OwnsOrigin, ActiveBranch, AppendTo, Capture;
  }
}
