/** The `/diff` command as an ordered sequence of effects on the pane, the record and the delivery. */
module DiffRunner {
  import opened Prelude
  import opened OwnedReview

  method AwaitLaunchedSession(polls: seq<Option<seq<SessionId>>>, before: seq<SessionId>) returns (found: Discovery)
    ensures found == Await(polls, before, NotYet)
  {
    hide Discover;
    var lastAttempt := NotYet;
    var attempt := 0;
    assert polls[0..] == polls;
    while attempt < |polls|
      invariant 0 <= attempt <= |polls|
      invariant Await(polls[attempt..], before, lastAttempt) == Await(polls, before, NotYet)
    {
      var read := polls[attempt];
      assert polls[attempt..][1..] == polls[attempt + 1..];
      attempt := attempt + 1;
      if read.None? {
        lastAttempt := Failed;
        continue;
      }
      lastAttempt := Discover(read.value, before);
      if !lastAttempt.NotYet? { return lastAttempt; }
    }
    return lastAttempt;
  }

  class Command {
    var record: Option<Owned>
    var trace: seq<Effect>

    constructor ()
      ensures View() == START
    {
      record, trace := None, [];
    }

    ghost function View(): World
      reads this
    {
      World(record, trace)
    }

    method Do(e: Effect)
      modifies this`trace
      ensures View() == old(View()).Did(e)
    {
      trace := trace + [e];
    }

    method AttachSession(session: SessionId)
      modifies this`record
      ensures View() == Attach(old(View()), session)
    {
      if record.Some? { record := Some(Owned(record.value.pane, Some(session), None)); }
    }

    method ForgetPane(pane: PaneId)
      modifies this
      ensures View() == Forget(old(View()), pane)
    {
      record := None;
      Do(Forgotten(pane));
    }

    method ClosePane(pane: PaneId, closed: bool) returns (ok: bool)
      modifies this
      ensures View() == CloseAndForget(old(View()), pane, closed) && ok == closed
    {
      if closed {
        Do(Closed(pane));
        ForgetPane(pane);
      }
      return closed;
    }

    method DeliverNotes(notes: seq<Note>)
      modifies this
      ensures View() == Deliver(old(View()), notes)
    {
      if notes == [] { return; }
      Do(Delivered(notes));
    }

    method DrainOwnedReview(live: seq<SessionId>, a: Answers) returns (notes: seq<Note>, blocked: bool, lost: bool)
      modifies this
      ensures Drained(View(), notes, blocked, lost) == Drain(old(View()), live, a)
    {
      hide Discover;
      if record.None? { return [], false, false; }
      var pane := record.value.pane;
      var registered := Registered(record.value, live);
      if !registered && a.gone {
        Do(FoundGone(pane));
        ForgetPane(pane);
        return [], false, true;
      }
      if record.value.session.None? && record.value.before.Some? {
        var d := Discover(live, record.value.before.value);
        if d.Found? { AttachSession(d.session); }
      }
      if !Registered(record.value, live) { return [], true, false; }
      if a.oldNotes.None? { return [], true, false; }
      Do(NotesRead(pane, a.oldNotes.value));
      var ok := ClosePane(pane, a.oldClosed);
      return a.oldNotes.value, !ok, false;
    }

    method RunReview(pane: PaneId, live: seq<SessionId>, a: Answers)
      modifies this
      ensures View() == Review(old(View()), pane, live, a)
    {
      hide Await;
      Do(Opened(pane));
      record := Some(Owned(pane, None, Some(live)));
      Do(Remembered(pane));
      if !a.launched {
        Do(StartFailed(pane));
        var ok := ClosePane(pane, a.failedClosed);
        return;
      }
      var discovery := AwaitLaunchedSession(a.polls, live);
      if !discovery.Found? { return; }
      AttachSession(discovery.session);
      if a.notes.None? { return; }
      Do(NotesRead(pane, a.notes.value));
      var ok := ClosePane(pane, a.closed);
      DeliverNotes(a.notes.value);
      Do(Consumed);
    }

    method RunDiff(a: Answers)
      modifies this
      ensures View() == OwnedReview.Command(old(View()), a)
    {
      hide Drain, Review;
      if !a.available || a.live.None? || !a.resolved { return; }
      var live := a.live.value;
      var notes, blocked, lost := DrainOwnedReview(live, a);
      if blocked {
        DeliverNotes(notes);
        return;
      }
      if |notes| > 0 {
        DeliverNotes(notes);
        return;
      }
      if a.split.None? { return; }
      RunReview(a.split.value, live, a);
    }
  }
}
