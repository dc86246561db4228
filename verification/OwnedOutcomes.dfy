/** What one `/diff` command comes to, by what the host, Hunk and Herdr answer: when a recorded pane is given up
    unread, when it blocks, when its notes are read, and what a new review leaves behind. */
module OwnedOutcomes {
  import opened Prelude
  import opened OwnedReview
  import O = OverlappingReviews

  // ----- Identifying a session -----

  /** The session at this place is listed now and was not there before. */
  predicate NewAt(live: seq<SessionId>, before: seq<SessionId>, i: nat) {
    i < |live| && live[i] !in before
  }

  lemma {:induction false} NoneFresh(live: seq<SessionId>, before: seq<SessionId>)
    ensures |Fresh(live, before)| == 0 <==> forall i: nat :: !NewAt(live, before, i)
  {
    if |live| > 0 {
      var init, last := live[..|live| - 1], live[|live| - 1];
      NoneFresh(init, before);
      assert forall i: nat :: i < |init| ==> (NewAt(live, before, i) <==> NewAt(init, before, i));
      assert NewAt(live, before, |init|) <==> last !in before;
    }
  }

  lemma {:induction false} FreshHas(live: seq<SessionId>, before: seq<SessionId>, i: nat)
    requires NewAt(live, before, i)
    ensures live[i] in Fresh(live, before)
  {
    if i < |live| - 1 { FreshHas(live[..|live| - 1], before, i); }
  }

  lemma {:induction false} FreshIs(live: seq<SessionId>, before: seq<SessionId>)
    ensures |Fresh(live, before)| == 1 <==> exists i :: NewAt(live, before, i) && forall j :: NewAt(live, before, j) ==> j == i
  {
    if |live| > 0 {
      var init, last := live[..|live| - 1], live[|live| - 1];
      FreshIs(init, before);
      NoneFresh(init, before);
      assert Fresh(live, before) == Fresh(init, before) + (if last in before then [] else [last]);
      hide Fresh;
      assert forall i: nat :: i < |init| ==> (NewAt(live, before, i) <==> NewAt(init, before, i));
      assert NewAt(live, before, |init|) <==> last !in before;
      if last !in before && |Fresh(init, before)| > 0 {
        var i: nat :| NewAt(init, before, i);
        assert NewAt(live, before, i) && i != |init|;
      }
    }
  }

  /** A session is found exactly when one listed session, and only one, was not there before. */
  lemma DiscoverIs(live: seq<SessionId>, before: seq<SessionId>, i: nat)
    requires NewAt(live, before, i)
    ensures Discover(live, before)
            == if forall j :: NewAt(live, before, j) ==> j == i then Found(live[i]) else Failed
  {
    FreshIs(live, before);
    NoneFresh(live, before);
    FreshHas(live, before, i);
    hide Fresh;
    if forall j :: NewAt(live, before, j) ==> j == i {
      assert |Fresh(live, before)| == 1;
    } else {
      assert |Fresh(live, before)| != 1;
      assert |Fresh(live, before)| > 0;
    }
  }

  lemma NothingDiscovered(live: seq<SessionId>, before: seq<SessionId>)
    requires forall j :: !NewAt(live, before, j)
    ensures Discover(live, before) == NotYet
  {
    NoneFresh(live, before);
  }

  /** The poll at `k` decides: it could list the sessions, and one or several were new. */
  predicate Decides(polls: seq<Option<seq<SessionId>>>, before: seq<SessionId>, k: nat) {
    k < |polls| && polls[k].Some? && !Discover(polls[k].value, before).NotYet?
  }

  /** Waiting for a launch ends with what the first poll that decides has found; without one, what matters is only
      whether the last poll could list the sessions. */
  lemma {:induction false} AwaitIs(polls: seq<Option<seq<SessionId>>>, before: seq<SessionId>, last: Discovery, k: nat)
    requires k <= |polls| && forall j: nat :: j < k ==> !Decides(polls, before, j)
    ensures Decides(polls, before, k) ==> Await(polls, before, last) == Discover(polls[k].value, before)
    ensures k == |polls| ==>
              Await(polls, before, last) == if k == 0 then last else if polls[k - 1].None? then Failed else NotYet
  {
    hide Discover;
    if k > 0 {
      assert !Decides(polls, before, 0);
      var rest := polls[1..];
      forall j: nat | j < k - 1
        ensures !Decides(rest, before, j)
      {
        assert !Decides(polls, before, j + 1);
      }
      AwaitIs(rest, before, if polls[0].None? then Failed else NotYet, k - 1);
    }
  }

  // ----- Draining -----

  /** The recorded review is among the live sessions, by its own session or as the only new one since its launch. */
  predicate Identified(owned: Owned, live: seq<SessionId>) {
    || (owned.session.Some? && owned.session.value in live)
    || (owned.session.None? && owned.before.Some? && Discover(live, owned.before.value).Found?)
  }

  /** The recorded pane is given up without a read. */
  predicate GivenUp(owned: Owned, live: seq<SessionId>, a: Answers) {
    !(owned.session.Some? && owned.session.value in live) && a.gone
  }

  lemma {:induction false} FreshListed(live: seq<SessionId>, before: seq<SessionId>)
    ensures forall s :: s in Fresh(live, before) ==> s in live
  {
    if |live| > 0 { FreshListed(live[..|live| - 1], before); }
  }

  lemma FoundIsListed(live: seq<SessionId>, before: seq<SessionId>)
    requires Discover(live, before).Found?
    ensures Discover(live, before).session in live
  {
    FreshListed(live, before);
  }

  /** Without a record there is nothing to drain. A recorded pane is given up exactly when its session is not live
      and the pane is proven gone, and then its notes count as lost. Otherwise it blocks, still recorded and nothing
      done, if it cannot be identified or its notes cannot be read; and if they can, they are read, the pane is
      closed after that, and it is forgotten exactly if the close succeeded. */
  lemma DrainIs(w: World, live: seq<SessionId>, a: Answers)
    ensures var d := Drain(w, live, a);
            if w.record.None? then d == Drained(w, [], false, false)
            else
              var owned := w.record.value;
              if GivenUp(owned, live, a) then
                d == Drained(World(None, w.trace + [FoundGone(owned.pane), Forgotten(owned.pane)]), [], false, true)
              else if !Identified(owned, live) || a.oldNotes.None? then
                d.world.trace == w.trace && d.notes == [] && d.blocked && !d.lost && IsRecorded(d.world, owned.pane)
                && (!Identified(owned, live) ==> d.world == w)
              else
                && d.world.trace == w.trace + [NotesRead(owned.pane, a.oldNotes.value)]
                                    + (if a.oldClosed then [Closed(owned.pane), Forgotten(owned.pane)] else [])
                && d.notes == a.oldNotes.value && d.blocked == !a.oldClosed && !d.lost
                && (if a.oldClosed then d.world.record.None? else IsRecorded(d.world, owned.pane))
  {
    if w.record.Some? {
      var owned := w.record.value;
      if owned.session.None? && owned.before.Some? && Discover(live, owned.before.value).Found? {
        FoundIsListed(live, owned.before.value);
      }
      hide Discover;
      if a.oldNotes.Some? {
        var t, r, c, f := w.trace, NotesRead(owned.pane, a.oldNotes.value), Closed(owned.pane), Forgotten(owned.pane);
        assert t + [r] + [c] + [f] == t + [r] + [c, f] && t + [r] + [] == t + [r];
      }
      assert w.trace + [FoundGone(owned.pane)] + [Forgotten(owned.pane)] == w.trace + [FoundGone(owned.pane), Forgotten(owned.pane)];
    }
  }

  // ----- One review -----

  /** What a review in a new pane does, in order, by whether hunk could be started, its session was found and its
      notes could be read, and what it leaves recorded: the pane unless it was closed, with the session once that was
      found, else with the sessions that were live before. */
  lemma ReviewIs(w: World, pane: PaneId, live: seq<SessionId>, a: Answers)
    ensures var r, d, begun := Review(w, pane, live, a), Await(a.polls, live, NotYet), w.trace + [Opened(pane), Remembered(pane)];
            if !a.launched then
              r == World(if a.failedClosed then None else Some(Owned(pane, None, Some(live))),
                         begun + [StartFailed(pane)] + (if a.failedClosed then [Closed(pane), Forgotten(pane)] else []))
            else if !d.Found? then r == World(Some(Owned(pane, None, Some(live))), begun)
            else if a.notes.None? then r == World(Some(Owned(pane, Some(d.session), None)), begun)
            else
              r == World(if a.closed then None else Some(Owned(pane, Some(d.session), None)),
                         begun + [NotesRead(pane, a.notes.value)]
                         + (if a.closed then [Closed(pane), Forgotten(pane)] else [])
                         + (if a.notes.value == [] then [] else [Delivered(a.notes.value)])
                         + [Consumed])
  {
    hide Await;
    assert w.trace + [Opened(pane)] + [Remembered(pane)] == w.trace + [Opened(pane), Remembered(pane)];
    var begun := w.trace + [Opened(pane), Remembered(pane)];
    if !a.launched {
      assert begun + [StartFailed(pane)] + [Closed(pane)] + [Forgotten(pane)] == begun + [StartFailed(pane)] + [Closed(pane), Forgotten(pane)];
      assert begun + [StartFailed(pane)] + [] == begun + [StartFailed(pane)];
    } else if a.notes.Some? {
      var read := begun + [NotesRead(pane, a.notes.value)];
      assert read + [Closed(pane)] + [Forgotten(pane)] == read + [Closed(pane), Forgotten(pane)];
      assert read + [] == read && read + [Closed(pane), Forgotten(pane)] + [] == read + [Closed(pane), Forgotten(pane)];
    }
  }

  /** A command that can have a review drains first; a blocked drain and recovered notes are delivered and end it,
      and only a drain that leaves neither goes on to a new pane. */
  lemma CommandIs(w: World, a: Answers)
    ensures if !(a.available && a.live.Some? && a.resolved) then Command(w, a) == w
            else
              var d := Drain(w, a.live.value, a);
              var handed := if d.notes == [] then d.world else World(d.world.record, d.world.trace + [Delivered(d.notes)]);
              Command(w, a) == if !d.blocked && d.notes == [] && a.split.Some?
                               then Review(d.world, a.split.value, a.live.value, a) else handed
  {
    hide Drain, Review;
  }

  // ----- Over whole runs -----

  /** The command at `k` gave up its recorded pane, rightly. */
  ghost predicate GaveUp(commands: seq<Answers>, k: nat, pane: PaneId) {
    && k < |commands|
    && var w, a := After(commands[..k]), commands[k];
       && a.live.Some? && w.record.Some? && w.record.value.pane == pane && GivenUp(w.record.value, a.live.value, a)
  }

  /** From `from` on, only this pane is found gone. */
  ghost predicate OnlyGone(trace: seq<Effect>, from: nat, pane: Option<PaneId>) {
    forall i :: from <= i < |trace| && trace[i].FoundGone? ==> Some(trace[i].pane) == pane
  }

  lemma DrainGivesUp(w: World, live: seq<SessionId>, a: Answers)
    ensures var d := Drain(w, live, a);
            && w.trace <= d.world.trace
            && OnlyGone(d.world.trace, |w.trace|,
                        if w.record.Some? && GivenUp(w.record.value, live, a) then Some(w.record.value.pane) else None)
  {
    DrainIs(w, live, a);
    hide Drain, Identified, GivenUp;
  }

  lemma ReviewGivesUpNone(w: World, pane: PaneId, live: seq<SessionId>, a: Answers)
    ensures w.trace <= Review(w, pane, live, a).trace && OnlyGone(Review(w, pane, live, a).trace, |w.trace|, None)
  {
    ReviewIs(w, pane, live, a);
    hide Review, Await;
  }

  lemma CommandGivesUp(w: World, a: Answers)
    ensures w.trace <= Command(w, a).trace
    ensures OnlyGone(Command(w, a).trace, |w.trace|,
                     if a.live.Some? && w.record.Some? && GivenUp(w.record.value, a.live.value, a)
                     then Some(w.record.value.pane) else None)
  {
    CommandIs(w, a);
    if a.available && a.live.Some? && a.resolved {
      var d := Drain(w, a.live.value, a);
      DrainGivesUp(w, a.live.value, a);
      if a.split.Some? { ReviewGivesUpNone(d.world, a.split.value, a.live.value, a); }
      hide Drain, Review, Command, GivenUp;
    }
  }

  /** In every run a pane counts as gone only by a command that was told so while the recorded session was not live:
      the absence of its session alone never gives a pane up. */
  lemma {:induction false} GivenUpOnlyWhenGone(commands: seq<Answers>, i: nat) returns (k: nat)
    requires Run(commands) && i < |After(commands).trace| && After(commands).trace[i].FoundGone?
    ensures GaveUp(commands, k, After(commands).trace[i].pane)
  {
    var init, a := commands[..|commands| - 1], commands[|commands| - 1];
    var w := After(init);
    CommandGivesUp(w, a);
    hide Command, GivenUp;
    if i < |w.trace| {
      assert w.trace[i] == After(commands).trace[i];
      k := GivenUpOnlyWhenGone(init, i);
      assert init[..k] == commands[..k];
    } else {
      k := |init|;
    }
  }

  // ----- One command among overlapping ones -----

  /** What the stretches of one command amount to when no other command comes in between. */
  function EventsOf(w: World, a: Answers, c: O.CommandId): seq<O.Event> {
    if !(a.available && a.live.Some? && a.resolved) then [O.Stop(c)]
    else if w.record.None? then [O.Inspect(c, false)] + ReviewEvents(a, c)
    else
      var owned, live := w.record.value, a.live.value;
      var listed := Registered(owned, live);
      [O.Inspect(c, listed)] + (if listed then [] else [O.Gone(c, a.gone, Identified(owned, live))])
      + (if !listed && a.gone then ReviewEvents(a, c) else if Identified(owned, live) then ReadEvents(a, c) else [])
  }

  function ReadEvents(a: Answers, c: O.CommandId): seq<O.Event> {
    if a.oldNotes.None? then [O.OldRead(c, None)]
    else [O.OldRead(c, a.oldNotes), O.OldClosed(c, a.oldClosed)]
         + (if a.oldClosed && a.oldNotes.value == [] then ReviewEvents(a, c) else [])
  }

  function ReviewEvents(a: Answers, c: O.CommandId): seq<O.Event> {
    if a.split.None? then [O.Split(c, None)]
    else
      [O.Split(c, a.split), O.Launched(c, a.launched)]
      + if !a.launched then [O.FailedClosed(c, a.failedClosed)]
        else
          var found := Await(a.polls, if a.live.Some? then a.live.value else [], NotYet).Found?;
          [O.Polled(c, found)]
          + if !found then [] else if a.notes.None? then [O.Read(c, None)] else [O.Read(c, a.notes), O.ClosedPane(c, a.closed)]
  }

  /** The events happen in this order, and lead from `s` to `t`. */
  predicate Leads(s: O.Reviews, events: seq<O.Event>, t: O.Reviews)
    decreases |events|
  {
    if |events| == 0 then s == t else O.Enabled(s, events[0]) && Leads(O.Step(s, events[0]), events[1..], t)
  }

  lemma {:induction false} LeadsOn(s: O.Reviews, first: seq<O.Event>, t: O.Reviews, second: seq<O.Event>, u: O.Reviews)
    requires Leads(s, first, t) && Leads(t, second, u)
    ensures Leads(s, first + second, u)
    decreases |first|
  {
    if |first| == 0 {
      assert first + second == second;
    } else {
      LeadsOn(O.Step(s, first[0]), first[1..], t, second, u);
      assert (first + second)[1..] == first[1..] + second;
    }
  }

  lemma LeadsByOne(s: O.Reviews, e: O.Event)
    requires O.Enabled(s, e)
    ensures Leads(s, [e], O.Step(s, e))
  {
    assert [e][1..] == [];
  }

  /** The state of all commands that shows this world, the command `c` being at `stage`. */
  function Showing(w: World, stages: map<O.CommandId, O.Stage>, c: O.CommandId, stage: O.Stage): O.Reviews {
    O.Reviews(PaneOf(w.record), stages[c := stage], w.trace)
  }

  lemma Moved(w: World, stages: map<O.CommandId, O.Stage>, c: O.CommandId, stage: O.Stage, next: O.Stage)
    ensures O.At(Showing(w, stages, c, stage), c, next) == Showing(w, stages, c, next)
  {
    assert stages[c := stage][c := next] == stages[c := next];
  }

  /** One event takes one shown world to another, then the rest follows. */
  lemma LeadsFirst(s: O.Reviews, e: O.Event, w: World, stages: map<O.CommandId, O.Stage>, c: O.CommandId, stage: O.Stage,
                   rest: seq<O.Event>, u: O.Reviews)
    requires O.Enabled(s, e) && O.Step(s, e) == Showing(w, stages, c, stage)
    requires Leads(Showing(w, stages, c, stage), rest, u)
    ensures Leads(s, [e] + rest, u)
  {
    LeadsByOne(s, e);
    LeadsOn(s, [e], O.Step(s, e), rest, u);
  }

  lemma ReadingAlone(w: World, a: Answers, stages: map<O.CommandId, O.Stage>, c: O.CommandId)
    requires w.record.Some? && a.notes.Some?
    ensures var pane, notes := w.record.value.pane, a.notes.value;
            var done := Deliver(CloseAndForget(w.Did(NotesRead(pane, notes)), pane, a.closed), notes).Did(Consumed);
            Leads(Showing(w, stages, c, O.Reviewing(pane)), [O.Read(c, a.notes), O.ClosedPane(c, a.closed)],
                  Showing(done, stages, c, O.Over))
  {
    var pane, notes := w.record.value.pane, a.notes.value;
    var read := w.Did(NotesRead(pane, notes));
    var s := Showing(read, stages, c, O.Closing(pane, notes));
    Moved(read, stages, c, O.Reviewing(pane), O.Closing(pane, notes));
    var done := Deliver(CloseAndForget(read, pane, a.closed), notes).Did(Consumed);
    Moved(done, stages, c, O.Closing(pane, notes), O.Over);
    assert read.trace + [Closed(pane)] + [Forgotten(pane)] == read.trace + [Closed(pane), Forgotten(pane)];
    assert O.Step(s, O.ClosedPane(c, a.closed)) == Showing(done, stages, c, O.Over);
    LeadsByOne(s, O.ClosedPane(c, a.closed));
    LeadsFirst(Showing(w, stages, c, O.Reviewing(pane)), O.Read(c, a.notes), read, stages, c, O.Closing(pane, notes),
               [O.ClosedPane(c, a.closed)], Showing(done, stages, c, O.Over));
    assert [O.Read(c, a.notes), O.ClosedPane(c, a.closed)] == [O.Read(c, a.notes)] + [O.ClosedPane(c, a.closed)];
  }

  /** What follows the launch of a new pane. */
  lemma LaunchedAlone(w: World, pane: PaneId, live: seq<SessionId>, a: Answers, stages: map<O.CommandId, O.Stage>, c: O.CommandId)
    requires a.live == Some(live)
    ensures var begun := Remember(w.Did(Opened(pane)), pane, live);
            var found := Await(a.polls, live, NotYet).Found?;
            var after := if !a.launched then [O.FailedClosed(c, a.failedClosed)]
                         else [O.Polled(c, found)]
                              + if !found then []
                                else if a.notes.None? then [O.Read(c, None)] else [O.Read(c, a.notes), O.ClosedPane(c, a.closed)];
            Leads(Showing(begun, stages, c, O.Launching(pane)), [O.Launched(c, a.launched)] + after,
                  Showing(Review(w, pane, live, a), stages, c, O.Over))
  {
    hide Await, Leads;
    var begun := Remember(w.Did(Opened(pane)), pane, live);
    var d := Await(a.polls, live, NotYet);
    var s, over := Showing(begun, stages, c, O.Launching(pane)), Showing(Review(w, pane, live, a), stages, c, O.Over);
    if !a.launched {
      var failed := begun.Did(StartFailed(pane));
      Moved(failed, stages, c, O.Launching(pane), O.ClosingFailed(pane));
      var e := O.FailedClosed(c, a.failedClosed);
      Moved(Review(w, pane, live, a), stages, c, O.ClosingFailed(pane), O.Over);
      assert failed.trace + [Closed(pane)] + [Forgotten(pane)] == failed.trace + [Closed(pane), Forgotten(pane)];
      LeadsByOne(Showing(failed, stages, c, O.ClosingFailed(pane)), e);
      LeadsFirst(s, O.Launched(c, false), failed, stages, c, O.ClosingFailed(pane), [e], over);
    } else {
      Moved(begun, stages, c, O.Launching(pane), O.Polling(pane));
      var polling, e := Showing(begun, stages, c, O.Polling(pane)), O.Polled(c, d.Found?);
      if d.Found? {
        var attached := Attach(begun, d.session);
        Moved(begun, stages, c, O.Polling(pane), O.Reviewing(pane));
        var rest := if a.notes.None? then [O.Read(c, None)] else [O.Read(c, a.notes), O.ClosedPane(c, a.closed)];
        if a.notes.None? {
          Moved(attached, stages, c, O.Reviewing(pane), O.Over);
          LeadsByOne(Showing(attached, stages, c, O.Reviewing(pane)), O.Read(c, None));
        } else {
          ReadingAlone(attached, a, stages, c);
        }
        LeadsFirst(polling, e, attached, stages, c, O.Reviewing(pane), rest, over);
        LeadsFirst(s, O.Launched(c, true), begun, stages, c, O.Polling(pane), [e] + rest, over);
      } else {
        Moved(begun, stages, c, O.Polling(pane), O.Over);
        LeadsByOne(polling, e);
        LeadsFirst(s, O.Launched(c, true), begun, stages, c, O.Polling(pane), [e], over);
        assert [e] + [] == [e];
      }
    }
  }

  lemma ReviewAlone(w: World, a: Answers, stages: map<O.CommandId, O.Stage>, c: O.CommandId)
    requires w.record.None? && a.live.Some? && FreshPane(w, a)
    ensures Leads(Showing(w, stages, c, O.Splitting), ReviewEvents(a, c),
                  Showing(if a.split.None? then w else Review(w, a.split.value, a.live.value, a), stages, c, O.Over))
  {
    hide Leads, Await, Review;
    var s := Showing(w, stages, c, O.Splitting);
    if a.split.None? {
      Moved(w, stages, c, O.Splitting, O.Over);
      LeadsByOne(s, O.Split(c, None));
    } else {
      var pane, live := a.split.value, a.live.value;
      var begun := Remember(w.Did(Opened(pane)), pane, live);
      assert w.trace + [Opened(pane)] + [Remembered(pane)] == w.trace + [Opened(pane), Remembered(pane)];
      Moved(begun, stages, c, O.Splitting, O.Launching(pane));
      LaunchedAlone(w, pane, live, a, stages, c);
      var found := Await(a.polls, live, NotYet).Found?;
      var after := if !a.launched then [O.FailedClosed(c, a.failedClosed)]
                   else [O.Polled(c, found)]
                        + if !found then []
                          else if a.notes.None? then [O.Read(c, None)] else [O.Read(c, a.notes), O.ClosedPane(c, a.closed)];
      LeadsFirst(s, O.Split(c, a.split), begun, stages, c, O.Launching(pane), [O.Launched(c, a.launched)] + after,
                 Showing(Review(w, pane, live, a), stages, c, O.Over));
      assert [O.Split(c, a.split), O.Launched(c, a.launched)] + after == [O.Split(c, a.split)] + ([O.Launched(c, a.launched)] + after);
    }
  }

  /** The command after a drain that read the recorded pane. */
  function AfterReading(w: World, a: Answers): World
    requires w.record.Some? && a.live.Some?
  {
    var d := ReadOld(w, a);
    if d.blocked || d.notes != [] then Deliver(d.world, d.notes)
    else if a.split.None? then d.world else Review(d.world, a.split.value, a.live.value, a)
  }

  lemma OldIsRead(w: World, notes: seq<Note>, stages: map<O.CommandId, O.Stage>, c: O.CommandId)
    requires w.record.Some?
    ensures var pane := w.record.value.pane;
            var s, e := Showing(w, stages, c, O.ReadingOld(pane)), O.OldRead(c, Some(notes));
            O.Enabled(s, e) && O.Step(s, e) == Showing(w.Did(NotesRead(pane, notes)), stages, c, O.ClosingOld(pane, notes))
  {
    var pane := w.record.value.pane;
    Moved(w.Did(NotesRead(pane, notes)), stages, c, O.ReadingOld(pane), O.ClosingOld(pane, notes));
  }

  lemma OldIsClosed(w: World, pane: PaneId, notes: seq<Note>, ok: bool, stages: map<O.CommandId, O.Stage>, c: O.CommandId)
    ensures var s, e := Showing(w, stages, c, O.ClosingOld(pane, notes)), O.OldClosed(c, ok);
            var closed := CloseAndForget(w, pane, ok);
            && O.Enabled(s, e)
            && O.Step(s, e) == if ok && notes == [] then Showing(closed, stages, c, O.Splitting)
                               else Showing(Deliver(closed, notes), stages, c, O.Over)
  {
    var closed := CloseAndForget(w, pane, ok);
    assert w.trace + [Closed(pane)] + [Forgotten(pane)] == w.trace + [Closed(pane), Forgotten(pane)];
    Moved(closed, stages, c, O.ClosingOld(pane, notes), O.Splitting);
    Moved(Deliver(closed, notes), stages, c, O.ClosingOld(pane, notes), O.Over);
  }

  /** Reading, closing and handing over what the recorded pane has. */
  lemma ReadAlone(w: World, a: Answers, stages: map<O.CommandId, O.Stage>, c: O.CommandId)
    requires w.record.Some? && a.live.Some? && FreshPane(w, a)
    ensures Leads(Showing(w, stages, c, O.ReadingOld(w.record.value.pane)), ReadEvents(a, c),
                  Showing(AfterReading(w, a), stages, c, O.Over))
  {
    hide Leads, Await, Review, ReviewEvents, O.Step, O.Enabled;
    var pane := w.record.value.pane;
    var s := Showing(w, stages, c, O.ReadingOld(pane));
    if a.oldNotes.None? {
      OldIsUnread(w, a, stages, c);
    } else {
      var notes := a.oldNotes.value;
      var read, d, e := w.Did(NotesRead(pane, notes)), ReadOld(w, a), O.OldClosed(c, a.oldClosed);
      var closing, over := Showing(read, stages, c, O.ClosingOld(pane, notes)), Showing(AfterReading(w, a), stages, c, O.Over);
      var more := if a.oldClosed && notes == [] then ReviewEvents(a, c) else [];
      OldIsRead(w, notes, stages, c);
      OldIsClosed(read, pane, notes, a.oldClosed, stages, c);
      assert [O.OldRead(c, a.oldNotes), e] + more == [O.OldRead(c, a.oldNotes)] + ([e] + more);
      if a.oldClosed && notes == [] {
        ReviewAlone(d.world, a, stages, c);
        LeadsFirst(closing, e, d.world, stages, c, O.Splitting, more, over);
      } else {
        LeadsByOne(closing, e);
        assert [e] + more == [e];
      }
      LeadsFirst(s, O.OldRead(c, a.oldNotes), read, stages, c, O.ClosingOld(pane, notes), [e] + more, over);
    }
  }

  lemma OldIsUnread(w: World, a: Answers, stages: map<O.CommandId, O.Stage>, c: O.CommandId)
    requires w.record.Some? && a.live.Some? && a.oldNotes.None?
    ensures Leads(Showing(w, stages, c, O.ReadingOld(w.record.value.pane)), ReadEvents(a, c),
                  Showing(AfterReading(w, a), stages, c, O.Over))
  {
    hide Leads;
    Moved(w, stages, c, O.ReadingOld(w.record.value.pane), O.Over);
    LeadsByOne(Showing(w, stages, c, O.ReadingOld(w.record.value.pane)), O.OldRead(c, None));
  }

  /** A command no other comes in between of does, in its stretches, what it does as a whole. */
  lemma CommandAlone(w: World, a: Answers, stages: map<O.CommandId, O.Stage>, c: O.CommandId)
    requires FreshPane(w, a)
    ensures Leads(Showing(w, stages, c, O.Resolving), EventsOf(w, a, c), Showing(Command(w, a), stages, c, O.Over))
  {
    var s := Showing(w, stages, c, O.Resolving);
    hide Leads, Review, Discover;
    if !(a.available && a.live.Some? && a.resolved) {
      Moved(w, stages, c, O.Resolving, O.Over);
      LeadsByOne(s, O.Stop(c));
    } else if w.record.None? {
      Moved(w, stages, c, O.Resolving, O.Splitting);
      ReviewAlone(w, a, stages, c);
      LeadsFirst(s, O.Inspect(c, false), w, stages, c, O.Splitting, ReviewEvents(a, c), Showing(Command(w, a), stages, c, O.Over));
    } else {
      RecordedAlone(w, a, stages, c);
    }
  }

  lemma RecordedAlone(w: World, a: Answers, stages: map<O.CommandId, O.Stage>, c: O.CommandId)
    requires FreshPane(w, a) && a.available && a.live.Some? && a.resolved && w.record.Some?
    ensures Leads(Showing(w, stages, c, O.Resolving), EventsOf(w, a, c), Showing(Command(w, a), stages, c, O.Over))
  {
    hide Leads, Review, Discover;
    var s, over := Showing(w, stages, c, O.Resolving), Showing(Command(w, a), stages, c, O.Over);
    var owned, live := w.record.value, a.live.value;
    var pane := owned.pane;
    if Registered(owned, live) {
      ReadAlone(w, a, stages, c);
      Moved(w, stages, c, O.Resolving, O.ReadingOld(pane));
      LeadsFirst(s, O.Inspect(c, true), w, stages, c, O.ReadingOld(pane), ReadEvents(a, c), over);
      assert [O.Inspect(c, true)] + [] + ReadEvents(a, c) == [O.Inspect(c, true)] + ReadEvents(a, c);
    } else {
      Moved(w, stages, c, O.Resolving, O.AskingGone(pane));
      var e := O.Gone(c, a.gone, Identified(owned, live));
      var rest := if a.gone then ReviewEvents(a, c) else if Identified(owned, live) then ReadEvents(a, c) else [];
      AskedAlone(w, a, stages, c);
      LeadsFirst(s, O.Inspect(c, false), w, stages, c, O.AskingGone(pane), [e] + rest, over);
      assert [O.Inspect(c, false)] + [e] + rest == [O.Inspect(c, false)] + ([e] + rest);
    }
  }

  lemma CommandRecovers(w: World, a: Answers)
    requires a.available && a.live.Some? && a.resolved && w.record.Some?
    requires Registered(w.record.value, a.live.value) || !a.gone
    ensures var live, r := a.live.value, Recover(w, a.live.value);
            && PaneOf(r.record) == PaneOf(w.record) && r.trace == w.trace
            && Command(w, a) == if Identified(w.record.value, live) then AfterReading(r, a) else w
  {
    var owned, live := w.record.value, a.live.value;
    if owned.session.None? && owned.before.Some? && Discover(live, owned.before.value).Found? {
      FoundIsListed(live, owned.before.value);
    }
    hide Discover, ReadOld, Review;
  }

  lemma AskedAlone(w: World, a: Answers, stages: map<O.CommandId, O.Stage>, c: O.CommandId)
    requires FreshPane(w, a) && a.available && a.live.Some? && a.resolved && w.record.Some?
    requires !Registered(w.record.value, a.live.value)
    ensures var owned := w.record.value;
            var known := Identified(owned, a.live.value);
            Leads(Showing(w, stages, c, O.AskingGone(owned.pane)),
                  [O.Gone(c, a.gone, known)] + (if a.gone then ReviewEvents(a, c) else if known then ReadEvents(a, c) else []),
                  Showing(Command(w, a), stages, c, O.Over))
  {
    hide Leads, Review, Discover;
    var owned, live := w.record.value, a.live.value;
    var pane, r, known := owned.pane, Recover(w, live), Identified(owned, live);
    var asking, e, over := Showing(w, stages, c, O.AskingGone(pane)), O.Gone(c, a.gone, known), Showing(Command(w, a), stages, c, O.Over);
    if a.gone {
      var given := World(None, w.trace + [FoundGone(pane), Forgotten(pane)]);
      assert w.trace + [FoundGone(pane)] + [Forgotten(pane)] == given.trace;
      assert Drain(w, live, a) == Drained(given, [], false, true);
      Moved(given, stages, c, O.AskingGone(pane), O.Splitting);
      ReviewAlone(given, a, stages, c);
      hide ReadEvents, ReviewEvents;
      LeadsFirst(asking, e, given, stages, c, O.Splitting, ReviewEvents(a, c), over);
    } else if known {
      CommandRecovers(w, a);
      hide Command, Recover, AfterReading;
      ReadAlone(r, a, stages, c);
      hide ReadEvents, ReviewEvents;
      Moved(r, stages, c, O.AskingGone(pane), O.ReadingOld(pane));
      LeadsFirst(asking, e, r, stages, c, O.ReadingOld(pane), ReadEvents(a, c), over);
    } else {
      CommandRecovers(w, a);
      hide Command;
      Moved(w, stages, c, O.AskingGone(pane), O.Over);
      LeadsByOne(asking, e);
      assert [e] + [] == [e];
    }
  }
}
