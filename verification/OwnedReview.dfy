/** The `/diff` command over one worktree: which Hunk pane it owns, in which order it reads, closes and
    delivers, and what becomes of every pane it ever opened. What the outside world answers during one
    command is given as data; the effects are kept as a trace. */
module OwnedReview {
  import opened Prelude

  type PaneId = string
  type SessionId = string
  type Note = string

  /** The surviving record of an opened review. */
  datatype Owned = Owned(pane: PaneId, session: Option<SessionId>, before: Option<seq<SessionId>>)

  datatype Effect =
    | Opened(pane: PaneId)
    | Remembered(pane: PaneId)
    | Forgotten(pane: PaneId)
    | StartFailed(pane: PaneId)
    | FoundGone(pane: PaneId)
    | NotesRead(pane: PaneId, notes: seq<Note>)
    | Closed(pane: PaneId)
    | Delivered(notes: seq<Note>)
    | Consumed

  datatype World = World(record: Option<Owned>, trace: seq<Effect>) {
    function Did(e: Effect): World {
      this.(trace := trace + [e])
    }
  }

  /** What one command is told by the host, Hunk and Herdr. */
  datatype Answers = Answers(
    available: bool,
    live: Option<seq<SessionId>>,
    resolved: bool,
    gone: bool,
    oldNotes: Option<seq<Note>>,
    oldClosed: bool,
    split: Option<PaneId>,
    launched: bool,
    failedClosed: bool,
    polls: seq<Option<seq<SessionId>>>,
    notes: Option<seq<Note>>,
    closed: bool)

  // ----- Finding the session of a launch -----

  datatype Discovery = Found(session: SessionId) | NotYet | Failed

  function Fresh(live: seq<SessionId>, before: seq<SessionId>): seq<SessionId> {
    if |live| == 0 then []
    else
      var last := live[|live| - 1];
      Fresh(live[..|live| - 1], before) + (if last in before then [] else [last])
  }

  function Discover(live: seq<SessionId>, before: seq<SessionId>): Discovery {
    var news := Fresh(live, before);
    if |news| > 1 then Failed else if |news| == 1 then Found(news[0]) else NotYet
  }

  /** The polls end with the first one that shows a new session, or several; a failed listing is only
      remembered in case it is the last. */
  function Await(polls: seq<Option<seq<SessionId>>>, before: seq<SessionId>, lastAttempt: Discovery): Discovery {
    if |polls| == 0 then lastAttempt
    else if polls[0].None? then Await(polls[1..], before, Failed)
    else
      var d := Discover(polls[0].value, before);
      if d.NotYet? then Await(polls[1..], before, NotYet) else d
  }

  // ----- The record -----

  function Remember(w: World, pane: PaneId, before: seq<SessionId>): World {
    World(Some(Owned(pane, None, Some(before))), w.trace + [Remembered(pane)])
  }

  function Attach(w: World, session: SessionId): World {
    if w.record.Some? then w.(record := Some(Owned(w.record.value.pane, Some(session), None))) else w
  }

  function Forget(w: World, pane: PaneId): World {
    World(None, w.trace + [Forgotten(pane)])
  }

  function CloseAndForget(w: World, pane: PaneId, closed: bool): World {
    if closed then Forget(w.Did(Closed(pane)), pane) else w
  }

  function Deliver(w: World, notes: seq<Note>): World {
    if notes == [] then w else w.Did(Delivered(notes))
  }

  // ----- Draining the previous review -----

  datatype Drained = Drained(world: World, notes: seq<Note>, blocked: bool, lost: bool)

  predicate Registered(owned: Owned, live: seq<SessionId>) {
    owned.session.Some? && owned.session.value in live
  }

  /** A failed poll can leave a live pane without a session; its launch baseline may find it now. */
  function Recover(w: World, live: seq<SessionId>): World {
    if w.record.None? || w.record.value.session.Some? || w.record.value.before.None? then w
    else
      var d := Discover(live, w.record.value.before.value);
      if d.Found? then Attach(w, d.session) else w
  }

  function ReadOld(w: World, a: Answers): Drained
    requires w.record.Some?
  {
    var pane := w.record.value.pane;
    if a.oldNotes.None? then Drained(w, [], true, false)
    else
      var notes := a.oldNotes.value;
      Drained(CloseAndForget(w.Did(NotesRead(pane, notes)), pane, a.oldClosed), notes, !a.oldClosed, false)
  }

  function Drain(w: World, live: seq<SessionId>, a: Answers): Drained {
    if w.record.None? then Drained(w, [], false, false)
    else
      var pane := w.record.value.pane;
      if !Registered(w.record.value, live) && a.gone then
        Drained(Forget(w.Did(FoundGone(pane)), pane), [], false, true)
      else
        var r := Recover(w, live);
        if !Registered(r.record.value, live) then Drained(r, [], true, false) else ReadOld(r, a)
  }

  // ----- One command -----

  function Review(w: World, pane: PaneId, live: seq<SessionId>, a: Answers): World {
    var remembered := Remember(w.Did(Opened(pane)), pane, live);
    if !a.launched then CloseAndForget(remembered.Did(StartFailed(pane)), pane, a.failedClosed)
    else
      var d := Await(a.polls, live, NotYet);
      if !d.Found? then remembered
      else
        var attached := Attach(remembered, d.session);
        if a.notes.None? then attached
        else
          var closed := CloseAndForget(attached.Did(NotesRead(pane, a.notes.value)), pane, a.closed);
          Deliver(closed, a.notes.value).Did(Consumed)
  }

  function Command(w: World, a: Answers): World {
    if !a.available || a.live.None? || !a.resolved then w
    else
      var d := Drain(w, a.live.value, a);
      if d.blocked || d.notes != [] then Deliver(d.world, d.notes)
      else if a.split.None? then d.world
      else Review(d.world, a.split.value, a.live.value, a)
  }

  const START := World(None, [])

  /** Herdr never hands out a pane id twice. */
  predicate FreshPane(w: World, a: Answers) {
    a.split.Some? ==> Opened(a.split.value) !in w.trace
  }

  predicate Run(commands: seq<Answers>) {
    |commands| == 0 || (Run(commands[..|commands| - 1])
                        && FreshPane(After(commands[..|commands| - 1]), commands[|commands| - 1]))
  }

  function After(commands: seq<Answers>): World {
    if |commands| == 0 then START else Command(After(commands[..|commands| - 1]), commands[|commands| - 1])
  }

  // ----- What every run keeps -----

  /** The pane recorded after a stretch of trace. */
  function Held(trace: seq<Effect>): Option<PaneId> {
    if |trace| == 0 then None
    else match trace[|trace| - 1]
      case Remembered(pane) => Some(pane)
      case Forgotten(_) => None
      case _ => Held(trace[..|trace| - 1])
  }

  /** A record is only ever made where there is none. */
  ghost predicate NeverOverwritten(trace: seq<Effect>) {
    forall i :: 0 <= i < |trace| && trace[i].Remembered? ==> Held(trace[..i]).None?
  }

  /** A pane is only closed after its launch failed or its notes were read. */
  ghost predicate ReadBeforeClosed(trace: seq<Effect>) {
    forall j :: 0 <= j < |trace| && trace[j].Closed? ==>
      exists i :: 0 <= i < j && (trace[i] == StartFailed(trace[j].pane) || IsReadOf(trace[i], trace[j].pane))
  }

  predicate IsReadOf(e: Effect, pane: PaneId) {
    e.NotesRead? && e.pane == pane
  }

  /** The notes read from `pane` were handed over, or there were none. */
  predicate ReadAndDelivered(trace: seq<Effect>, pane: PaneId) {
    exists i :: 0 <= i < |trace| && IsReadOf(trace[i], pane) && Handed(trace, trace[i].notes, i)
  }

  predicate Handed(trace: seq<Effect>, notes: seq<Note>, from: nat) {
    notes == [] || exists k :: from < k < |trace| && trace[k] == Delivered(notes)
  }

  /** A pane that needs no record any more. */
  predicate Settled(trace: seq<Effect>, pane: PaneId) {
    || FoundGone(pane) in trace
    || (StartFailed(pane) in trace && Closed(pane) in trace)
    || (Closed(pane) in trace && ReadAndDelivered(trace, pane))
  }

  predicate IsRecorded(w: World, pane: PaneId) {
    w.record.Some? && w.record.value.pane == pane
  }

  ghost predicate AllAccounted(w: World) {
    forall pane :: Opened(pane) in w.trace ==> Settled(w.trace, pane) || IsRecorded(w, pane)
  }

  function PaneOf(record: Option<Owned>): Option<PaneId> {
    if record.Some? then Some(record.value.pane) else None
  }

  /** The record and the order of effects, whatever the panes. */
  ghost predicate Orderly(w: World) {
    && Held(w.trace) == PaneOf(w.record)
    && NeverOverwritten(w.trace)
    && ReadBeforeClosed(w.trace)
    && (w.record.Some? ==> Opened(w.record.value.pane) in w.trace)
  }

  ghost predicate Invariant(w: World) {
    Orderly(w) && AllAccounted(w)
  }

  // ----- One more effect -----

  lemma HeldAfter(trace: seq<Effect>, e: Effect)
    ensures Held(trace + [e]) == match e
                                 case Remembered(pane) => Some(pane)
                                 case Forgotten(_) => None
                                 case _ => Held(trace)
  {
    assert (trace + [e])[..|trace|] == trace;
  }

  lemma PrefixOf(trace: seq<Effect>, e: Effect, i: nat)
    requires i <= |trace|
    ensures (trace + [e])[..i] == trace[..i]
  {
  }

  /** An effect that neither remembers over a record nor closes an unread pane. */
  lemma OrderlyAfter(w: World, e: Effect, record: Option<Owned>)
    requires Orderly(w)
    requires e.Remembered? ==> w.record.None? && Opened(e.pane) in w.trace
    requires e.Closed? ==> exists i :: 0 <= i < |w.trace| && (w.trace[i] == StartFailed(e.pane) || IsReadOf(w.trace[i], e.pane))
    requires PaneOf(record) == if e.Remembered? then Some(e.pane) else if e.Forgotten? then None else PaneOf(w.record)
    ensures Orderly(World(record, w.trace + [e]))
  {
    var trace := w.trace + [e];
    HeldAfter(w.trace, e);
    forall i | 0 <= i < |trace| && trace[i].Remembered?
      ensures Held(trace[..i]).None?
    {
      PrefixOf(w.trace, e, i);
      assert w.trace[..|w.trace|] == w.trace;
    }
    hide Held, NeverOverwritten;
    CloseAfter(w.trace, e);
    assert NeverOverwritten(trace) by { NeverOverwrittenIs(trace); }
  }

  lemma NeverOverwrittenIs(trace: seq<Effect>)
    requires forall i :: 0 <= i < |trace| && trace[i].Remembered? ==> Held(trace[..i]).None?
    ensures NeverOverwritten(trace)
  {
  }

  lemma CloseAfter(trace: seq<Effect>, e: Effect)
    requires ReadBeforeClosed(trace)
    requires e.Closed? ==> exists i :: 0 <= i < |trace| && (trace[i] == StartFailed(e.pane) || IsReadOf(trace[i], e.pane))
    ensures ReadBeforeClosed(trace + [e])
  {
    var more := trace + [e];
    forall j | 0 <= j < |more| && more[j].Closed?
      ensures exists i :: 0 <= i < j && (more[i] == StartFailed(more[j].pane) || IsReadOf(more[i], more[j].pane))
    {
      var i :| 0 <= i < |trace| && i < j && (trace[i] == StartFailed(more[j].pane) || IsReadOf(trace[i], more[j].pane));
      assert more[i] == trace[i];
    }
  }

  lemma SettledStays(trace: seq<Effect>, e: Effect, pane: PaneId)
    requires Settled(trace, pane)
    ensures Settled(trace + [e], pane)
  {
    var more := trace + [e];
    assert forall x :: x in trace ==> x in more;
    if ReadAndDelivered(trace, pane) {
      var i :| 0 <= i < |trace| && IsReadOf(trace[i], pane) && Handed(trace, trace[i].notes, i);
      assert more[i] == trace[i];
      if trace[i].notes != [] {
        var k :| i < k < |trace| && trace[k] == Delivered(trace[i].notes);
        assert more[k] == trace[k];
      }
      assert Handed(more, more[i].notes, i);
    }
  }

  /** Every opened pane but one is accounted for. */
  ghost predicate AccountedExcept(w: World, except: Option<PaneId>) {
    forall pane :: Opened(pane) in w.trace && Some(pane) != except ==> Settled(w.trace, pane) || IsRecorded(w, pane)
  }

  lemma AccountedAfter(w: World, e: Effect, record: Option<Owned>, except: Option<PaneId>)
    requires AccountedExcept(w, except)
    requires e.Opened? ==> Some(e.pane) == except
    requires PaneOf(record) == PaneOf(w.record) || PaneOf(w.record) == except || w.record.None?
    ensures AccountedExcept(World(record, w.trace + [e]), except)
  {
    forall pane | Opened(pane) in w.trace + [e] && Some(pane) != except
      ensures Settled(w.trace + [e], pane) || IsRecorded(World(record, w.trace + [e]), pane)
    {
      assert Opened(pane) in w.trace;
      if Settled(w.trace, pane) { SettledStays(w.trace, e, pane); }
    }
  }

  lemma AccountedWithout(w: World, except: PaneId)
    requires AccountedExcept(w, Some(except)) && (Settled(w.trace, except) || IsRecorded(w, except))
    ensures AllAccounted(w)
  {
    hide Settled, IsRecorded;
    forall pane | Opened(pane) in w.trace
      ensures Settled(w.trace, pane) || IsRecorded(w, pane)
    {
      if pane != except { assert Some(pane) != Some(except); }
    }
  }

  lemma AccountedIsAll(w: World, except: Option<PaneId>)
    requires AllAccounted(w)
    ensures AccountedExcept(w, except)
  {
  }

  // ----- Reading, closing, delivering -----

  /** Reading the notes of the recorded pane, closing it and handing the notes over. */
  lemma ReadCloseDeliver(w: World, notes: seq<Note>, closed: bool)
    requires Invariant(w) && w.record.Some?
    ensures var pane := w.record.value.pane;
            var done := CloseAndForget(w.Did(NotesRead(pane, notes)), pane, closed);
            && Orderly(done) && Invariant(Deliver(done, notes))
            && (closed ==> done.record.None?) && (!closed ==> done.record == w.record)
  {
    var pane := w.record.value.pane;
    var read := w.Did(NotesRead(pane, notes));
    OrderlyAfter(w, NotesRead(pane, notes), w.record);
    AccountedIsAll(w, Some(pane));
    AccountedAfter(w, NotesRead(pane, notes), w.record, Some(pane));
    if closed { ClosedIsOrderly(read, w, pane, notes); }
    var done := CloseAndForget(read, pane, closed);
    DeliverSettles(w, done, pane, notes);
  }

  lemma ClosedIsOrderly(read: World, w: World, pane: PaneId, notes: seq<Note>)
    requires read == w.Did(NotesRead(pane, notes)) && Orderly(read) && AccountedExcept(read, Some(pane))
    requires IsRecorded(read, pane)
    ensures var done := CloseAndForget(read, pane, true);
            Orderly(done) && AccountedExcept(done, Some(pane)) && done.record.None? && Closed(pane) in done.trace
  {
    assert IsReadOf(read.trace[|w.trace|], pane);
    OrderlyAfter(read, Closed(pane), read.record);
    AccountedAfter(read, Closed(pane), read.record, Some(pane));
    var shut := read.Did(Closed(pane));
    OrderlyAfter(shut, Forgotten(pane), None);
    AccountedAfter(shut, Forgotten(pane), None, Some(pane));
    assert shut.trace[|read.trace|] == Closed(pane);
    assert Forget(shut, pane).trace[|read.trace|] == Closed(pane);
  }

  lemma DeliverSettles(w: World, done: World, pane: PaneId, notes: seq<Note>)
    requires Orderly(done) && AccountedExcept(done, Some(pane)) && w.Did(NotesRead(pane, notes)).trace <= done.trace
    requires IsRecorded(done, pane) || Closed(pane) in done.trace
    ensures Invariant(Deliver(done, notes))
  {
    var i := |w.trace|;
    assert done.trace[i] == NotesRead(pane, notes);
    var r := Deliver(done, notes);
    if notes != [] {
      OrderlyAfter(done, Delivered(notes), done.record);
      AccountedAfter(done, Delivered(notes), done.record, Some(pane));
      assert r.trace[|done.trace|] == Delivered(notes);
    }
    if Closed(pane) in done.trace {
      assert r.trace[i] == NotesRead(pane, notes) && IsReadOf(r.trace[i], pane) && Handed(r.trace, notes, i);
      assert ReadAndDelivered(r.trace, pane);
      var k :| 0 <= k < |done.trace| && done.trace[k] == Closed(pane);
      assert r.trace[k] == Closed(pane);
    }
    AccountedWithout(r, pane);
  }

  lemma SamePane(w: World, record: Option<Owned>)
    requires Invariant(w) && PaneOf(record) == PaneOf(w.record)
    ensures Invariant(World(record, w.trace))
  {
    assert forall pane :: IsRecorded(w, pane) <==> IsRecorded(World(record, w.trace), pane);
    hide Settled, Held, NeverOverwritten, ReadBeforeClosed;
  }

  lemma GoneSettles(w: World, pane: PaneId)
    requires Invariant(w) && IsRecorded(w, pane)
    ensures Invariant(Forget(w.Did(FoundGone(pane)), pane))
  {
    var found := w.Did(FoundGone(pane));
    OrderlyAfter(w, FoundGone(pane), w.record);
    AccountedIsAll(w, Some(pane));
    AccountedAfter(w, FoundGone(pane), w.record, Some(pane));
    OrderlyAfter(found, Forgotten(pane), None);
    AccountedAfter(found, Forgotten(pane), None, Some(pane));
    var r := Forget(found, pane);
    assert r.trace[|w.trace|] == FoundGone(pane);
    AccountedWithout(r, pane);
  }

  /** Draining leaves everything in order; the recovered notes are all that remains to be delivered, and
      without a blocked drain no record is left. */
  lemma DrainKeeps(w: World, live: seq<SessionId>, a: Answers)
    requires Invariant(w)
    ensures var d := Drain(w, live, a);
            && Invariant(Deliver(d.world, d.notes))
            && (!d.blocked ==> d.world.record.None?)
  {
    hide Invariant, Registered, Discover;
    if w.record.Some? {
      var pane := w.record.value.pane;
      if !Registered(w.record.value, live) && a.gone {
        GoneSettles(w, pane);
      } else {
        var r := Recover(w, live);
        assert r.trace == w.trace && PaneOf(r.record) == PaneOf(w.record);
        SamePane(w, r.record);
        if Registered(r.record.value, live) && a.oldNotes.Some? {
          ReadCloseDeliver(r, a.oldNotes.value, a.oldClosed);
        }
      }
    }
  }

  lemma OpenAndRemember(w: World, pane: PaneId, live: seq<SessionId>)
    requires Invariant(w) && w.record.None? && Opened(pane) !in w.trace
    ensures Invariant(Remember(w.Did(Opened(pane)), pane, live))
  {
    var begun := w.Did(Opened(pane));
    OrderlyAfter(w, Opened(pane), w.record);
    AccountedIsAll(w, Some(pane));
    AccountedAfter(w, Opened(pane), w.record, Some(pane));
    assert begun.trace[|w.trace|] == Opened(pane);
    var record := Some(Owned(pane, None, Some(live)));
    OrderlyAfter(begun, Remembered(pane), record);
    AccountedAfter(begun, Remembered(pane), record, Some(pane));
    AccountedWithout(World(record, begun.trace + [Remembered(pane)]), pane);
  }

  lemma StartFailure(w: World, pane: PaneId, closed: bool)
    requires Invariant(w) && IsRecorded(w, pane)
    ensures Invariant(CloseAndForget(w.Did(StartFailed(pane)), pane, closed))
  {
    var failed := w.Did(StartFailed(pane));
    OrderlyAfter(w, StartFailed(pane), w.record);
    AccountedIsAll(w, Some(pane));
    AccountedAfter(w, StartFailed(pane), w.record, Some(pane));
    assert failed.trace[|w.trace|] == StartFailed(pane);
    if closed {
      var shut := failed.Did(Closed(pane));
      OrderlyAfter(failed, Closed(pane), failed.record);
      AccountedAfter(failed, Closed(pane), failed.record, Some(pane));
      OrderlyAfter(shut, Forgotten(pane), None);
      AccountedAfter(shut, Forgotten(pane), None, Some(pane));
      var r := Forget(shut, pane);
      assert r.trace[|w.trace|] == StartFailed(pane) && r.trace[|w.trace| + 1] == Closed(pane);
      AccountedWithout(r, pane);
    } else {
      AccountedWithout(failed, pane);
    }
  }

  lemma ConsumedKeeps(w: World)
    requires Invariant(w)
    ensures Invariant(w.Did(Consumed))
  {
    OrderlyAfter(w, Consumed, w.record);
    AccountedIsAll(w, None);
    AccountedAfter(w, Consumed, w.record, None);
    AccountedExceptNone(w.Did(Consumed));
  }

  lemma AccountedExceptNone(w: World)
    requires AccountedExcept(w, None)
    ensures AllAccounted(w)
  {
    forall pane | Opened(pane) in w.trace
      ensures Settled(w.trace, pane) || IsRecorded(w, pane)
    {
      assert Some(pane) != None;
    }
  }

  lemma ReviewKeeps(w: World, pane: PaneId, live: seq<SessionId>, a: Answers)
    requires Invariant(w) && w.record.None? && Opened(pane) !in w.trace
    ensures Invariant(Review(w, pane, live, a))
  {
    hide Invariant, Await, Orderly;
    var remembered := Remember(w.Did(Opened(pane)), pane, live);
    OpenAndRemember(w, pane, live);
    if !a.launched {
      StartFailure(remembered, pane, a.failedClosed);
      return;
    }
    var d := Await(a.polls, live, NotYet);
    if d.Found? {
      var attached := Attach(remembered, d.session);
      SamePane(remembered, attached.record);
      if a.notes.Some? {
        ReadCloseDeliver(attached, a.notes.value, a.closed);
        ConsumedKeeps(Deliver(CloseAndForget(attached.Did(NotesRead(pane, a.notes.value)), pane, a.closed), a.notes.value));
      }
    }
  }

  lemma {:induction false} DrainOpensNothing(w: World, live: seq<SessionId>, a: Answers, pane: PaneId)
    requires Opened(pane) !in w.trace
    ensures Opened(pane) !in Drain(w, live, a).world.trace
  {
    hide Registered, Discover;
  }

  lemma CommandKeeps(w: World, a: Answers)
    requires Invariant(w) && FreshPane(w, a)
    ensures Invariant(Command(w, a))
  {
    hide Invariant, Drain, Review;
    if a.available && a.live.Some? && a.resolved {
      var d := Drain(w, a.live.value, a);
      DrainKeeps(w, a.live.value, a);
      if !d.blocked && d.notes == [] && a.split.Some? {
        DrainOpensNothing(w, a.live.value, a, a.split.value);
        ReviewKeeps(d.world, a.split.value, a.live.value, a);
      }
    }
  }

  /** Over any run of commands on one worktree a record is never overwritten, no pane is closed before
      its launch failed or its notes were read, and every pane ever opened is still recorded, or proven
      gone, or closed after a failed launch, or closed after a successful read whose notes were handed
      over. */
  lemma {:induction false} EveryRunKeepsInvariant(commands: seq<Answers>)
    requires Run(commands)
    ensures Invariant(After(commands))
    ensures NeverOverwritten(After(commands).trace) && ReadBeforeClosed(After(commands).trace)
  {
    if |commands| > 0 {
      hide Invariant, Command;
      EveryRunKeepsInvariant(commands[..|commands| - 1]);
      CommandKeeps(After(commands[..|commands| - 1]), commands[|commands| - 1]);
    } else {
      assert Invariant(START);
    }
  }

  // ----- What every consumption follows -----

  /** Between the opening at `m`, the last one before `i`, and `i`: the notes of that pane were read at `j`
      and handed over after that, unless there were none. */
  ghost predicate ReadSince(trace: seq<Effect>, m: nat, j: nat, i: nat) {
    && m < j < i <= |trace| && trace[m].Opened? && IsReadOf(trace[j], trace[m].pane)
    && (forall l :: m < l < i ==> !trace[l].Opened?)
    && Handed(trace[..i], trace[j].notes, j)
  }

  ghost predicate ConsumedInOrder(trace: seq<Effect>) {
    forall i :: 0 <= i < |trace| && trace[i] == Consumed ==> exists m, j :: ReadSince(trace, m, j, i)
  }

  /** A longer trace without another consumption. */
  ghost predicate Continues(trace: seq<Effect>, more: seq<Effect>) {
    trace <= more && forall i :: |trace| <= i < |more| ==> more[i] != Consumed
  }

  lemma ReadSinceStays(trace: seq<Effect>, more: seq<Effect>, m: nat, j: nat, i: nat)
    requires trace <= more && ReadSince(trace, m, j, i)
    ensures ReadSince(more, m, j, i)
  {
    assert more[..i] == trace[..i];
  }

  lemma ContinuedInOrder(trace: seq<Effect>, more: seq<Effect>)
    requires ConsumedInOrder(trace) && Continues(trace, more)
    ensures ConsumedInOrder(more)
  {
    forall i | 0 <= i < |more| && more[i] == Consumed
      ensures exists m, j :: ReadSince(more, m, j, i)
    {
      var m, j :| ReadSince(trace, m, j, i);
      ReadSinceStays(trace, more, m, j, i);
    }
  }

  lemma OneMoreConsumed(trace: seq<Effect>, m: nat, j: nat)
    requires ConsumedInOrder(trace) && ReadSince(trace, m, j, |trace|)
    ensures ConsumedInOrder(trace + [Consumed])
  {
    var more := trace + [Consumed];
    forall i | 0 <= i < |more| && more[i] == Consumed
      ensures exists m, j :: ReadSince(more, m, j, i)
    {
      if i == |trace| {
        ReadSinceStays(trace, more, m, j, i);
      } else {
        var x, y :| ReadSince(trace, x, y, i);
        ReadSinceStays(trace, more, x, y, i);
      }
    }
  }

  lemma DrainContinues(w: World, live: seq<SessionId>, a: Answers)
    ensures var d := Drain(w, live, a);
            Continues(w.trace, d.world.trace) && Continues(w.trace, Deliver(d.world, d.notes).trace)
  {
    hide Registered, Discover;
  }

  /** Reading, closing and handing over, as a stretch of trace behind the opening. */
  lemma ReadIsSince(w: World, pane: PaneId, notes: seq<Note>, closed: bool)
    requires |w.trace| > 1 && w.trace[|w.trace| - 2] == Opened(pane) && w.trace[|w.trace| - 1] == Remembered(pane)
    ensures var done := Deliver(CloseAndForget(w.Did(NotesRead(pane, notes)), pane, closed), notes);
            && Continues(w.trace, done.trace)
            && ReadSince(done.trace, |w.trace| - 2, |w.trace|, |done.trace|)
  {
    var shut := CloseAndForget(w.Did(NotesRead(pane, notes)), pane, closed);
    var done := Deliver(shut, notes);
    assert done.trace[..|done.trace|] == done.trace;
    assert notes != [] ==> done.trace[|shut.trace|] == Delivered(notes);
  }

  lemma ReviewInOrder(w: World, pane: PaneId, live: seq<SessionId>, a: Answers)
    requires ConsumedInOrder(w.trace)
    ensures ConsumedInOrder(Review(w, pane, live, a).trace)
  {
    var remembered := Remember(w.Did(Opened(pane)), pane, live);
    var d := Await(a.polls, live, NotYet);
    hide Await, ConsumedInOrder, ReadSince;
    ContinuedInOrder(w.trace, remembered.trace);
    if a.launched && d.Found? && a.notes.Some? {
      var attached, notes := Attach(remembered, d.session), a.notes.value;
      ReadIsSince(attached, pane, notes, a.closed);
      hide Deliver, CloseAndForget, Continues;
      var done := Deliver(CloseAndForget(attached.Did(NotesRead(pane, notes)), pane, a.closed), notes);
      ContinuedInOrder(attached.trace, done.trace);
      OneMoreConsumed(done.trace, |attached.trace| - 2, |attached.trace|);
    } else {
      ContinuedInOrder(remembered.trace, Review(w, pane, live, a).trace);
    }
  }

  /** In every run, stored rationale is consumed only after the notes of the review opened last were read,
      and after they were handed over. */
  lemma {:induction false} ConsumedOnlyAfterReading(commands: seq<Answers>)
    requires Run(commands)
    ensures ConsumedInOrder(After(commands).trace)
  {
    if |commands| > 0 {
      var w, a := After(commands[..|commands| - 1]), commands[|commands| - 1];
      ConsumedOnlyAfterReading(commands[..|commands| - 1]);
      hide ConsumedInOrder, Drain, Review, Deliver, After;
      if a.available && a.live.Some? && a.resolved {
        var d := Drain(w, a.live.value, a);
        DrainContinues(w, a.live.value, a);
        ContinuedInOrder(w.trace, d.world.trace);
        ContinuedInOrder(w.trace, Deliver(d.world, d.notes).trace);
        if a.split.Some? { ReviewInOrder(d.world, a.split.value, a.live.value, a); }
      }
      assert ConsumedInOrder(Command(w, a).trace);
      LastCommand(commands);
    } else {
      assert START.trace == [];
    }
  }

  lemma LastCommand(commands: seq<Answers>)
    requires |commands| > 0
    ensures After(commands) == Command(After(commands[..|commands| - 1]), commands[|commands| - 1])
  {
  }
}
