/** Several `/diff` commands over one worktree at a time: each is cut at its awaits, and the stretches of all
    of them interleave. The record of the opened pane is looked at before the new pane is awaited and set
    after it, so another command can set it in between. */
module OverlappingReviews {
  import opened Prelude
  import opened OwnedReview

  type CommandId = nat

  /** What a command waits for. */
  datatype Stage =
    | Resolving                                     // sessions and target
    | AskingGone(pane: PaneId)                      // whether the recorded pane is still there
    | ReadingOld(pane: PaneId)                      // the notes of the recorded review
    | ClosingOld(pane: PaneId, notes: seq<Note>)
    | Splitting                                     // the new pane, nothing being recorded when it was asked for
    | Launching(pane: PaneId)
    | ClosingFailed(pane: PaneId)                   // its close, after hunk could not be started
    | Polling(pane: PaneId)                         // the new session
    | Reviewing(pane: PaneId)                       // the user, then the notes
    | Closing(pane: PaneId, notes: seq<Note>)
    | Over

  datatype Reviews = Reviews(record: Option<PaneId>, stages: map<CommandId, Stage>, trace: seq<Effect>)

  datatype Event =
    | Begin(c: CommandId)
    | Stop(c: CommandId)                            // no review can be had
    | Inspect(c: CommandId, registered: bool)       // looks at the record
    | Gone(c: CommandId, gone: bool, registered: bool)
    | OldRead(c: CommandId, notes: Option<seq<Note>>)
    | OldClosed(c: CommandId, ok: bool)
    | Split(c: CommandId, pane: Option<PaneId>)
    | Launched(c: CommandId, ok: bool)
    | FailedClosed(c: CommandId, ok: bool)
    | Polled(c: CommandId, found: bool)
    | Read(c: CommandId, notes: Option<seq<Note>>)
    | ClosedPane(c: CommandId, ok: bool)

  const NONE := Reviews(None, map[], [])

  predicate Enabled(s: Reviews, e: Event) {
    if e.Begin? then e.c !in s.stages
    else
      && e.c in s.stages
      && var stage := s.stages[e.c];
         match e
         case Begin(_) => false
         case Stop(_) => stage.Resolving?
         case Inspect(_, _) => stage.Resolving?
         case Gone(_, _, _) => stage.AskingGone?
         case OldRead(_, _) => stage.ReadingOld?
         case OldClosed(_, _) => stage.ClosingOld?
         case Split(_, pane) => stage.Splitting? && (pane.Some? ==> Opened(pane.value) !in s.trace)
         case Launched(_, _) => stage.Launching?
         case FailedClosed(_, _) => stage.ClosingFailed?
         case Polled(_, _) => stage.Polling?
         case Read(_, _) => stage.Reviewing?
         case ClosedPane(_, _) => stage.Closing?
  }

  function At(s: Reviews, c: CommandId, stage: Stage): Reviews {
    s.(stages := s.stages[c := stage])
  }

  function Did(s: Reviews, effects: seq<Effect>): Reviews {
    s.(trace := s.trace + effects)
  }

  /** Closing a pane forgets whatever is recorded for the worktree. */
  function Closes(s: Reviews, pane: PaneId, ok: bool): Reviews {
    if ok then Did(s, [Closed(pane), Forgotten(pane)]).(record := None) else s
  }

  function Delivers(s: Reviews, notes: seq<Note>): Reviews {
    if notes == [] then s else Did(s, [Delivered(notes)])
  }

  function Step(s: Reviews, e: Event): Reviews
    requires Enabled(s, e)
  {
    match e
    case Begin(c) => At(s, c, Resolving)
    case Stop(c) => At(s, c, Over)
    case Inspect(c, registered) =>
      if s.record.None? then At(s, c, Splitting)
      else At(s, c, if registered then ReadingOld(s.record.value) else AskingGone(s.record.value))
    case Gone(c, gone, registered) =>
      var pane := s.stages[c].pane;
      if gone then At(Did(s, [FoundGone(pane), Forgotten(pane)]), c, Splitting).(record := None)
      else At(s, c, if registered then ReadingOld(pane) else Over)
    case OldRead(c, notes) =>
      var pane := s.stages[c].pane;
      if notes.None? then At(s, c, Over) else At(Did(s, [NotesRead(pane, notes.value)]), c, ClosingOld(pane, notes.value))
    case OldClosed(c, ok) =>
      var notes := s.stages[c].notes;
      At(Delivers(Closes(s, s.stages[c].pane, ok), notes), c, if ok && notes == [] then Splitting else Over)
    case Split(c, pane) =>
      if pane.None? then At(s, c, Over)
      else At(Did(s, [Opened(pane.value), Remembered(pane.value)]), c, Launching(pane.value)).(record := pane)
    case Launched(c, ok) =>
      var pane := s.stages[c].pane;
      if ok then At(s, c, Polling(pane)) else At(Did(s, [StartFailed(pane)]), c, ClosingFailed(pane))
    case FailedClosed(c, ok) => At(Closes(s, s.stages[c].pane, ok), c, Over)
    case Polled(c, found) => At(s, c, if found then Reviewing(s.stages[c].pane) else Over)
    case Read(c, notes) =>
      var pane := s.stages[c].pane;
      if notes.None? then At(s, c, Over) else At(Did(s, [NotesRead(pane, notes.value)]), c, Closing(pane, notes.value))
    case ClosedPane(c, ok) =>
      At(Did(Delivers(Closes(s, s.stages[c].pane, ok), s.stages[c].notes), [Consumed]), c, Over)
  }

  predicate RunOf(events: seq<Event>)
    decreases |events|, 0
  {
    |events| == 0 || (RunOf(Front(events)) && Enabled(Result(Front(events)), events[|events| - 1]))
  }

  function Result(events: seq<Event>): Reviews
    requires RunOf(events)
    decreases |events|, 1
  {
    if |events| == 0 then NONE else Step(Result(Front(events)), events[|events| - 1])
  }

  // ----- When a record is overwritten -----

  /** The event leaves nothing recorded. */
  predicate Forgets(e: Event) {
    || (e.Gone? && e.gone)
    || ((e.OldClosed? || e.FailedClosed? || e.ClosedPane?) && e.ok)
  }

  predicate Records(e: Event) {
    e.Split? && e.pane.Some?
  }

  /** After event `i` the command `c` has waited for its pane ever since. */
  ghost predicate WaitsSince(events: seq<Event>, c: CommandId, i: nat) {
    && i < |events| && events[i].c == c && !events[i].Split?
    && forall j :: i < j < |events| ==> events[j].c != c
  }

  /** A pane recorded after event `i` has not been forgotten again. */
  ghost predicate RecordedSince(events: seq<Event>, i: nat) {
    exists j :: i < j < |events| && Records(events[j]) && forall k :: j < k < |events| ==> !Forgets(events[k])
  }

  lemma StageMoves(s: Reviews, e: Event, c: CommandId)
    requires Enabled(s, e)
    ensures e.c != c ==> (c in Step(s, e).stages <==> c in s.stages)
    ensures e.c != c && c in s.stages ==> Step(s, e).stages[c] == s.stages[c]
    ensures e.c == c && c in Step(s, e).stages && Step(s, e).stages[c].Splitting?
            ==> Step(s, e).record.None? && !e.Split? && !Records(e)
  {
  }

  lemma RecordMoves(s: Reviews, e: Event)
    requires Enabled(s, e)
    ensures Step(s, e).record == if Records(e) then e.pane else if Forgets(e) then None else s.record
  {
  }

  /** While a command waits for its pane, something is recorded exactly when another command has recorded a pane
      since it began to wait, and that was not forgotten again. */
  lemma {:induction false} RecordedWhileWaiting(events: seq<Event>, c: CommandId) returns (i: nat)
    requires RunOf(events) && c in Result(events).stages && Result(events).stages[c].Splitting?
    ensures WaitsSince(events, c, i)
    ensures Result(events).record.Some? <==> RecordedSince(events, i)
    decreases |events|
  {
    var init, e := Front(events), events[|events| - 1];
    StageMoves(Result(init), e, c);
    RecordMoves(Result(init), e);
    if e.c == c {
      i := |init|;
    } else {
      i := RecordedWhileWaiting(init, c);
      OneMoreEvent(init, e, i);
      assert init + [e] == events;
    }
  }

  lemma OneMoreEvent(events: seq<Event>, e: Event, i: nat)
    requires i < |events|
    ensures RecordedSince(events + [e], i) <==> Records(e) || (RecordedSince(events, i) && !Forgets(e))
  {
    var more := events + [e];
    if Records(e) { assert more[|events|] == e; }
    if RecordedSince(events, i) && !Forgets(e) {
      var j :| i < j < |events| && Records(events[j]) && forall k :: j < k < |events| ==> !Forgets(events[k]);
      assert Records(more[j]);
    }
    if RecordedSince(more, i) && !Records(e) {
      var j :| i < j < |more| && Records(more[j]) && forall k :: j < k < |more| ==> !Forgets(more[k]);
      assert Records(events[j]) && !Forgets(more[|events|]);
      assert forall k :: j < k < |events| ==> events[k] == more[k];
    }
  }

  /** In any interleaving a new pane overwrites the record of another exactly when that other pane was recorded
      after this command had looked at the record, and not forgotten since. */
  lemma OverwrittenExactly(events: seq<Event>, c: CommandId, pane: PaneId) returns (i: nat)
    requires RunOf(events) && Enabled(Result(events), Split(c, Some(pane)))
    ensures WaitsSince(events, c, i)
    ensures Result(events).record.Some? <==> RecordedSince(events, i)
  {
    i := RecordedWhileWaiting(events, c);
  }

  /** No two commands wait for their panes at the same time. */
  ghost predicate OneWaits(s: Reviews) {
    forall c, d :: c in s.stages && d in s.stages && s.stages[c].Splitting? && s.stages[d].Splitting? ==> c == d
  }

  /** Where never two commands wait for their panes at the same time, no record is overwritten. */
  lemma {:induction false} NoneOverwritten(events: seq<Event>, c: CommandId)
    requires RunOf(events) && c in Result(events).stages && Result(events).stages[c].Splitting?
    requires forall n :: 0 <= n <= |events| && RunOf(events[..n]) ==> OneWaits(Result(events[..n]))
    ensures Result(events).record.None?
    decreases |events|
  {
    var init, e := Front(events), events[|events| - 1];
    assert events[..|init|] == init && events[..|events|] == events;
    StageMoves(Result(init), e, c);
    RecordMoves(Result(init), e);
    if e.c != c {
      forall n | 0 <= n <= |init| && RunOf(init[..n])
        ensures OneWaits(Result(init[..n]))
      {
        assert init[..n] == events[..n];
      }
      NoneOverwritten(init, c);
      assert OneWaits(Result(init));
    }
  }

  // ----- A pane that is lost -----

  /** A pane that was opened and is neither recorded, nor closed or known to be gone, nor in the hands of a
      command still running. */
  ghost predicate Lost(s: Reviews, pane: PaneId) {
    && Opened(pane) in s.trace && s.record != Some(pane)
    && Closed(pane) !in s.trace && FoundGone(pane) !in s.trace
    && forall c :: c in s.stages ==> s.stages[c].Over? || s.stages[c].Resolving? || s.stages[c].Splitting?
                                     || s.stages[c].pane != pane
  }

  lemma BothLook() returns (events: seq<Event>)
    ensures events == [Begin(0), Begin(1), Inspect(0, false), Inspect(1, false)] && RunOf(events)
    ensures Result(events) == Reviews(None, map[0 := Splitting, 1 := Splitting], [])
  {
    assert RunOf([]) && Result([]) == NONE;
    hide RunOf, Result;
    var e1, s1 := GoesOn([], Begin(0), NONE);
    var e2, s2 := GoesOn(e1, Begin(1), s1);
    var e3, s3 := GoesOn(e2, Inspect(0, false), s2);
    var e4, s4 := GoesOn(e3, Inspect(1, false), s3);
    assert s4.stages == map[0 := Splitting, 1 := Splitting];
    events := e4;
  }

  /** Two commands look at the record before either sets it; the second pane overwrites the first, and the first
      command then finds no session: nothing leads to its pane any more. */
  lemma OverlapLosesAPane(p: PaneId, q: PaneId)
    requires p != q
    ensures var events := [Begin(0), Begin(1), Inspect(0, false), Inspect(1, false), Split(0, Some(p)), Split(1, Some(q)),
                           Launched(0, true), Polled(0, false)];
            RunOf(events) && Lost(Result(events), p)
  {
    var e4 := BothLook();
    var s4 := Reviews(None, map[0 := Splitting, 1 := Splitting], []);
    hide RunOf, Result;
    var e5, s5 := GoesOn(e4, Split(0, Some(p)), s4);
    assert s5 == Reviews(Some(p), map[0 := Launching(p), 1 := Splitting], [Opened(p), Remembered(p)]);
    var e6, s6 := GoesOn(e5, Split(1, Some(q)), s5);
    assert s6 == Reviews(Some(q), map[0 := Launching(p), 1 := Launching(q)], [Opened(p), Remembered(p), Opened(q), Remembered(q)]);
    var e7, s7 := GoesOn(e6, Launched(0, true), s6);
    var e8, s8 := GoesOn(e7, Polled(0, false), s7);
    assert s8 == s6.(stages := map[0 := Over, 1 := Launching(q)]);
    assert e8 == [Begin(0), Begin(1), Inspect(0, false), Inspect(1, false), Split(0, Some(p)), Split(1, Some(q)),
                  Launched(0, true), Polled(0, false)];
  }

  lemma GoesOn(events: seq<Event>, e: Event, s: Reviews) returns (more: seq<Event>, t: Reviews)
    requires RunOf(events) && Result(events) == s && Enabled(s, e)
    ensures more == events + [e] && RunOf(more) && Result(more) == t == Step(s, e)
  {
    more, t := events + [e], Step(s, e);
    assert Front(more) == events;
  }
}
