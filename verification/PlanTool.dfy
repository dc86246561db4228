/** The plan tool as it runs: the pending draft in a closure variable, the task runtime behind it. */
module PlanTool {
  import opened Prelude
  import opened TaskModel
  import opened TaskRuntime
  import PD = PlanDraft

  function RefOf(d: PD.Draft): PlanRef {
    PlanRef(d.context.content, d.design.content, d.success.content, d.boundaries.content)
  }

  function ModeOf(c: PD.Call): string {
    if c.analysis then "analysis" else "work"
  }

  /** What starting the cycle of an approved draft does to the task runtime. */
  function CycleOf(d: PD.Draft, c: PD.Call, now: string): Op {
    StartCycle(d.goal.content, PendingTasks(d.tasks), Some(RefOf(d)), Some(ModeOf(c)), now)
  }

  /** The live cycle is the approved plan: each section under its own name, the tasks pending in their order, and
      the mode the call was made in. */
  ghost predicate RunsPlan(r: State, d: PD.Draft, c: PD.Call) {
    && |r.cycles| > 0
    && var cycle := r.cycles[|r.cycles| - 1];
       && cycle.active && cycle.goal == d.goal.content && r.goal == Some(d.goal.content)
       && cycle.planRef.Some?
       && cycle.planRef.value.context == d.context.content && cycle.planRef.value.design == d.design.content
       && cycle.planRef.value.success == d.success.content && cycle.planRef.value.boundaries == d.boundaries.content
       && cycle.agentMode == Some(if c.analysis then "analysis" else "work")
       && cycle.tasks == r.tasks && |r.tasks| == |d.tasks|
       && forall i :: 0 <= i < |d.tasks| ==>
            r.tasks[i] == TaskValue(d.tasks[i].name, d.tasks[i].description, d.tasks[i].criteria, Pending)
  }

  lemma CycleRunsPlan(s: State, d: PD.Draft, c: PD.Call, now: string)
    requires OneActiveCycle(s.cycles)
    ensures RunsPlan(Apply(s, CycleOf(d, c, now)), d, c)
  {
    StartCycleIs(s, CycleOf(d, c, now));
    hide Apply;
  }

  class Tool {
    const runtime: Runtime
    var draft: Option<PD.Draft>
    var log: seq<PD.Entry>

    constructor (runtime: Runtime)
      ensures this.runtime == runtime && View() == PD.START
    {
      this.runtime, draft, log := runtime, None, [];
    }

    ghost function View(): PD.Plan
      reads this
    {
      PD.Plan(draft, log)
    }

    method SubmitDraft(c: PD.Call)
      modifies this
      ensures View() == PD.Submit(old(View()), c)
    {
      var params := PD.WithSlug(c.params, draft);
      draft := Some(PD.BuildDraft(params, c.tasks, draft));
      log := log + [PD.Submission(c.params, c.tasks)];
    }

    method Review(verdict: PD.Verdict)
      requires draft.Some?
      modifies this
      ensures View() == PD.Judge(old(View()), verdict)
    {
      match verdict
      case NoReviewer =>
      case Declined =>
        draft := None;
        log := log + [PD.Dropped];
      case Submitted(marks) =>
        var marked := PD.Marked(draft.value, marks);
        draft := Some(marked);
        log := log + [PD.Reviewed(marked)];
    }

    /** An approved plan starts its goal cycle, unless no worktree could be had for it. */
    method Approve(c: PD.Call, now: string)
      requires draft.Some? && runtime.Valid()
      modifies this, runtime, ActiveOf(runtime.cycles)
      ensures runtime.Valid()
      ensures View() == PD.Conclude(old(View()), c)
      ensures runtime.View() == (if PD.AllApproved(old(draft).value) && (c.analysis || c.handoff.Selected?)
                                 then Apply(old(runtime.View()), CycleOf(old(draft).value, c, now))
                                 else old(runtime.View()))
    {
      hide Apply, PD.AllApproved;
      label start:
      var d := draft.value;
      var approved := PD.IsAllApproved(d);
      RuntimeStays@start(runtime);
      if !approved { return; }
      if !c.analysis && !c.handoff.Selected? { return; }
      StartCycleOf(d, c, now);
      label started:
      draft := None;
      log := log + [PD.CycleStarted(d)];
      RuntimeStays@started(runtime);
    }

    method StartCycleOf(d: PD.Draft, c: PD.Call, now: string)
      requires runtime.Valid()
      modifies runtime, ActiveOf(runtime.cycles)
      ensures runtime.Valid()
      ensures runtime.View() == Apply(old(runtime.View()), CycleOf(d, c, now))
    {
      hide Apply;
      label start:
      var tasks := runtime.NewTasks(d.tasks);
      ViewsStay@start(runtime.cycles);
      runtime.StartGoalCycle(d.goal.content, tasks, Some(RefOf(d)), Some(ModeOf(c)), now);
    }
  
    /** One interactive call, from the parameters to the goal cycle. */
    method Execute(c: PD.Call, now: string) returns (started: Option<PD.Draft>)
      requires runtime.Valid()
      modifies this, runtime, ActiveOf(runtime.cycles)
      ensures runtime.Valid()
      ensures View() == PD.Execute(old(View()), c)
      ensures started.Some? ==> |log| > 0 && log[|log| - 1] == PD.CycleStarted(started.value)
      ensures runtime.View() == (if started.Some? then Apply(old(runtime.View()), CycleOf(started.value, c, now))
                                 else old(runtime.View()))
      ensures started.Some? ==> RunsPlan(runtime.View(), started.value, c)
    {
      hide Apply, PD.BuildDraft, PD.Marked, PD.AllApproved;
      label start:
      ghost var before := runtime.View();
      OneCycleBefore();
      SubmitDraft(c);
      Review(c.verdict);
      RuntimeStays@start(runtime);
      if draft.None? { return None; }
      var d := draft.value;
      Approve(c, now);
      started := if draft.None? then Some(d) else None;
      CycleRunsPlan(before, d, c, now);
    }

    lemma OneCycleBefore()
      requires runtime.Valid()
      ensures OneActiveCycle(runtime.View().cycles)
    {
      runtime.FlagsAre();
      runtime.ValidHasOne();
    }
  }
}
