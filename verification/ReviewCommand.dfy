/** The `/diff` command as it runs, one method for each stretch of code between two awaits. Every method
    is proved to take exactly the step the transaction prescribes. */
module ReviewCommand {
  import opened Prelude
  import V = DiffValidation
  import J = Journal
  import opened ReviewTransaction

  class DiffCommand {
    var host: Host
    var phase: Phase
    var saved: map<string, Review>

    constructor (host: Host)
      ensures View() == World(host, Idle, map[])
    {
      this.host, phase, saved := host, Idle, map[];
    }

    ghost function View(): World
      reads this
    {
      World(host, phase, saved)
    }

    method Begin()
      requires Enabled(View(), Event.Begin)
      modifies this`phase
      ensures View() == Step(old(View()), Event.Begin)
    {
      phase := Loading(host.current);
    }

    /** The diff has been loaded and Hunk found; the journal is read and frozen. */
    method ReadJournal(snapshot: V.Snapshot)
      requires Enabled(View(), Loaded(snapshot))
      modifies this`phase
      ensures View() == Step(old(View()), Loaded(snapshot))
    {
      if host.current != phase.origin {
        phase := Ended;
        return;
      }
      var branch := ActiveBranch(host);
      var journaled := J.ActiveAnnotations(branch);
      var current, stale := V.RevalidateAnnotations(snapshot, journaled);
      phase := Reviewing(Review(host.current, host.sessions[host.current].leaf, branch, current, stale));
    }

    method CheckOrigin(r: Review) returns (owned: bool)
      requires Usable(host)
      ensures owned == OwnsOrigin(host, r)
    {
      if host.current != r.origin { return false; }
      var cutoff := CutoffOf(r.captured);
      if cutoff.None? { return true; }
      return J.HasId(ActiveBranch(host), cutoff.value);
    }

    /** The user's notes have been read; what is about to be saved must still belong here. */
    method TakeNotes()
      requires Enabled(View(), NotesRead)
      modifies this`phase
      ensures View() == Step(old(View()), NotesRead)
    {
      var owned := CheckOrigin(phase.review);
      phase := if owned then Saving(phase.review) else Ended;
    }

    method ReviewSaved(reviewRef: string)
      requires Enabled(View(), Saved(reviewRef))
      modifies this`phase, this`saved
      ensures View() == Step(old(View()), Saved(reviewRef))
    {
      var r := phase.review;
      saved := saved[reviewRef := r];
      var owned := CheckOrigin(r);
      phase := if owned then Closing(r, reviewRef) else Ended;
    }

    /** The pane is closed, or could not be; the completion is recorded without another await. */
    method Deliver(entryId: J.EntryId)
      requires Enabled(View(), PaneClosed(entryId))
      modifies this
      ensures View() == Step(old(View()), PaneClosed(entryId))
    {
      var r, reviewRef := phase.review, phase.reviewRef;
      var owned := CheckOrigin(r);
      phase := Ended;
      if owned { host := AppendTo(host, Completion(entryId, reviewRef, r)); }
    }
  }
}
