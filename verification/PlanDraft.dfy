/** Plan drafts: how approvals are carried from one submission to the next, and when a plan starts its
    goal cycle. The review overlay is an arbitrary setting of marks on the displayed draft. */
module PlanDraft {
  import opened Prelude
  import opened TaskModel

  datatype Review = Review(approved: Option<bool>, feedback: Option<string>)

  datatype Section = Section(content: string, review: Review)

  datatype Draft = Draft(
    goal: Section,
    context: Section,
    design: Section,
    success: Section,
    boundaries: Section,
    worktreeSlug: Option<string>,
    tasks: seq<TaskInput>,
    tasksReview: Review)

  datatype Params = Params(
    goal: string,
    context: string,
    design: string,
    success: string,
    boundaries: string,
    worktreeSlug: Option<string>)

  const FRESH := Review(None, None)
  const APPROVED := Review(Some(true), None)

  predicate Approved(r: Review) {
    r.approved == Some(true)
  }

  // ----- Building a draft -----

  function GoalContextReview(goal: string, context: string, previous: Option<Draft>): Review {
    if previous.Some?
       && previous.value.goal.content == goal && previous.value.context.content == context
       && Approved(previous.value.goal.review) && Approved(previous.value.context.review)
    then APPROVED
    else FRESH
  }

  function SectionReview(content: string, previous: Option<Section>): Review {
    if previous.Some? && previous.value.content == content && Approved(previous.value.review) then APPROVED else FRESH
  }

  function TasksReview(tasks: seq<TaskInput>, previous: Option<Draft>): Review {
    if previous.Some? && tasks == previous.value.tasks && Approved(previous.value.tasksReview) then APPROVED else FRESH
  }

  datatype Part = Goal | Context | Design | Success | Boundaries

  function SectionOf(d: Draft, part: Part): Section {
    match part
    case Goal => d.goal
    case Context => d.context
    case Design => d.design
    case Success => d.success
    case Boundaries => d.boundaries
  }

  function Previous(d: Option<Draft>, part: Part): Option<Section> {
    if d.Some? then Some(SectionOf(d.value, part)) else None
  }

  function BuildDraft(p: Params, tasks: seq<TaskInput>, previous: Option<Draft>): Draft {
    var shared := GoalContextReview(p.goal, p.context, previous);
    Draft(Section(p.goal, shared),
          Section(p.context, shared),
          Section(p.design, SectionReview(p.design, Previous(previous, Design))),
          Section(p.success, SectionReview(p.success, Previous(previous, Success))),
          Section(p.boundaries, SectionReview(p.boundaries, Previous(previous, Boundaries))),
          p.worktreeSlug,
          tasks,
          TasksReview(tasks, previous))
  }

  function ApproveDraft(d: Draft): Draft {
    Draft(d.goal.(review := APPROVED), d.context.(review := APPROVED), d.design.(review := APPROVED),
          d.success.(review := APPROVED), d.boundaries.(review := APPROVED), d.worktreeSlug, d.tasks, APPROVED)
  }

  const PARTS := [Goal, Context, Design, Success, Boundaries]

  predicate AllApproved(d: Draft) {
    (forall part :: Approved(SectionOf(d, part).review)) && Approved(d.tasksReview)
  }

  /** Two task lists match when they agree entry by entry in name, description and criteria. */
  method TasksMatch(tasks: seq<TaskInput>, previous: seq<TaskInput>) returns (same: bool)
    ensures same == (tasks == previous)
  {
    if |tasks| != |previous| { return false; }
    for i := 0 to |tasks|
      invariant tasks[..i] == previous[..i]
    {
      var current, before := tasks[i], previous[i];
      if current.name != before.name || current.description != before.description || current.criteria != before.criteria {
        return false;
      }
    }
    assert tasks[..|tasks|] == tasks && previous[..|tasks|] == previous;
    return true;
  }

  method IsAllApproved(d: Draft) returns (all: bool)
    ensures all == AllApproved(d)
  {
    for i := 0 to |PARTS|
      invariant forall j :: 0 <= j < i ==> Approved(SectionOf(d, PARTS[j]).review)
    {
      if !Approved(SectionOf(d, PARTS[i]).review) { return false; }
    }
    assert Approved(SectionOf(d, PARTS[0]).review) && Approved(SectionOf(d, PARTS[1]).review)
           && Approved(SectionOf(d, PARTS[2]).review) && Approved(SectionOf(d, PARTS[3]).review)
           && Approved(SectionOf(d, PARTS[4]).review);
    forall part
      ensures Approved(SectionOf(d, part).review)
    {
      match part {
        case Goal =>
        case Context =>
        case Design =>
        case Success =>
        case Boundaries =>
      }
    }
    return Approved(d.tasksReview);
  }

  // ----- The plan tool -----

  /** The marks a reviewer leaves, section by section. */
  datatype Marks = Marks(goal: Review, context: Review, design: Review, success: Review, boundaries: Review, tasks: Review)

  function Marked(d: Draft, m: Marks): Draft {
    Draft(d.goal.(review := m.goal), d.context.(review := m.context), d.design.(review := m.design),
          d.success.(review := m.success), d.boundaries.(review := m.boundaries), d.worktreeSlug, d.tasks, m.tasks)
  }

  datatype Verdict = NoReviewer | Declined | Submitted(marks: Marks)

  datatype Handoff = Cancelled | ActivationFailed | Selected

  /** One call of the tool: its parameters and what the reviewer, the mode and the handoff answer. */
  datatype Call = Call(params: Params, tasks: seq<TaskInput>, verdict: Verdict, analysis: bool, handoff: Handoff)

  datatype Entry =
    | Submission(params: Params, tasks: seq<TaskInput>)
    | Reviewed(draft: Draft)
    | Dropped
    | CycleStarted(draft: Draft)

  /** The pending draft, and everything that happened to it. */
  datatype Plan = Plan(draft: Option<Draft>, log: seq<Entry>)

  function WithSlug(p: Params, previous: Option<Draft>): Params {
    if p.worktreeSlug.None? && previous.Some? then p.(worktreeSlug := previous.value.worktreeSlug) else p
  }

  function Submit(s: Plan, c: Call): Plan {
    Plan(Some(BuildDraft(WithSlug(c.params, s.draft), c.tasks, s.draft)), s.log + [Submission(c.params, c.tasks)])
  }

  function Judge(s: Plan, verdict: Verdict): Plan
    requires s.draft.Some?
  {
    match verdict
    case NoReviewer => s
    case Declined => Plan(None, s.log + [Dropped])
    case Submitted(marks) =>
      var marked := Marked(s.draft.value, marks);
      Plan(Some(marked), s.log + [Reviewed(marked)])
  }

  function Conclude(s: Plan, c: Call): Plan
    requires s.draft.Some?
  {
    if !AllApproved(s.draft.value) then s
    else if c.analysis || c.handoff.Selected? then Plan(None, s.log + [CycleStarted(s.draft.value)])
    else s
  }

  /** An interactive call. */
  function Execute(s: Plan, c: Call): Plan {
    var judged := Judge(Submit(s, c), c.verdict);
    if judged.draft.None? then judged else Conclude(judged, c)
  }

  /** A call in a dispatched run, which has no reviewer: the plan is approved as it stands and starts. */
  function ExecuteDispatched(s: Plan, c: Call): Plan {
    var submitted := Submit(s, c);
    Conclude(submitted.(draft := Some(ApproveDraft(submitted.draft.value))), c.(handoff := Selected))
  }

  const START := Plan(None, [])

  function After(calls: seq<Call>): Plan {
    if |calls| == 0 then START else Execute(After(calls[..|calls| - 1]), calls[|calls| - 1])
  }

  // ----- Approvals are vouched for by a review of the same content -----

  /** A part of the plan whose approval is carried on its own; goal and context go together. */
  datatype Item = OfSection(part: Part) | Tasks

  predicate ApprovedIn(d: Draft, item: Item) {
    match item
    case OfSection(part) => Approved(SectionOf(d, part).review)
    case Tasks => Approved(d.tasksReview)
  }

  /** Nothing in the second draft differs from the first that would drop the item's approval. */
  predicate SameItem(a: Draft, b: Draft, item: Item) {
    match item
    case OfSection(part) =>
      && SectionOf(a, part).content == SectionOf(b, part).content
      && (part.Goal? || part.Context? ==> a.goal.content == b.goal.content && a.context.content == b.context.content)
    case Tasks => a.tasks == b.tasks
  }

  predicate SubmittedSame(e: Entry, d: Draft, item: Item) {
    match e
    case Submission(params, tasks) => SameItem(BuildDraft(params, tasks, None), d, item)
    case _ => true
  }

  predicate Ends(e: Entry) {
    e.Dropped? || e.CycleStarted?
  }

  /** At `i` a reviewer approved the item with exactly this content, and since then the plan was neither
      dropped nor started and no submission changed the item. */
  ghost predicate VouchedAt(log: seq<Entry>, d: Draft, item: Item, i: nat) {
    && i < |log|
    && log[i].Reviewed? && ApprovedIn(log[i].draft, item) && SameItem(log[i].draft, d, item)
    && forall j :: i < j < |log| ==> !Ends(log[j]) && SubmittedSame(log[j], d, item)
  }

  ghost predicate Vouched(log: seq<Entry>, d: Draft, item: Item) {
    exists i :: VouchedAt(log, d, item, i)
  }

  ghost predicate Invariant(s: Plan) {
    s.draft.Some? ==> forall item :: ApprovedIn(s.draft.value, item) ==> Vouched(s.log, s.draft.value, item)
  }

  lemma VouchedLonger(log: seq<Entry>, d: Draft, r: Draft, item: Item, e: Entry)
    requires Vouched(log, d, item) && SameItem(d, r, item) && !Ends(e) && SubmittedSame(e, r, item)
    ensures Vouched(log + [e], r, item)
  {
    var i: nat :| VouchedAt(log, d, item, i);
    var more := log + [e];
    forall j: nat | i < j < |more|
      ensures !Ends(more[j]) && SubmittedSame(more[j], r, item)
    {
      assert j < |log| ==> more[j] == log[j];
    }
    assert VouchedAt(more, r, item, i);
  }

  /** A carried approval means that the previous draft had it for the same content. */
  lemma CarriedFrom(c: Call, previous: Option<Draft>, item: Item)
    requires ApprovedIn(BuildDraft(WithSlug(c.params, previous), c.tasks, previous), item)
    ensures previous.Some? && ApprovedIn(previous.value, item)
    ensures SameItem(previous.value, BuildDraft(WithSlug(c.params, previous), c.tasks, previous), item)
  {
  }

  lemma SubmitKeeps(s: Plan, c: Call)
    requires Invariant(s)
    ensures Invariant(Submit(s, c))
  {
    var d := Submit(s, c).draft.value;
    var e := Submission(c.params, c.tasks);
    forall item | ApprovedIn(d, item)
      ensures Vouched(s.log + [e], d, item)
    {
      CarriedFrom(c, s.draft, item);
      VouchedLonger(s.log, s.draft.value, d, item, e);
    }
  }

  lemma JudgeKeeps(s: Plan, verdict: Verdict)
    requires Invariant(s) && s.draft.Some?
    ensures Invariant(Judge(s, verdict))
  {
    if verdict.Submitted? {
      var d := Marked(s.draft.value, verdict.marks);
      var log := s.log + [Reviewed(d)];
      forall item | ApprovedIn(d, item)
        ensures Vouched(log, d, item)
      {
        assert VouchedAt(log, d, item, |s.log|);
      }
    }
  }

  lemma ExecuteKeeps(s: Plan, c: Call)
    requires Invariant(s)
    ensures Invariant(Execute(s, c))
  {
    hide Invariant, Judge;
    SubmitKeeps(s, c);
    JudgeKeeps(Submit(s, c), c.verdict);
    NoDraftIsFine(Judge(Submit(s, c), c.verdict));
  }

  lemma NoDraftIsFine(s: Plan)
    ensures forall log :: Invariant(Plan(None, log))
  {
  }

  lemma {:induction false} EveryRunKeepsInvariant(calls: seq<Call>)
    ensures Invariant(After(calls))
  {
    if |calls| > 0 {
      hide Invariant, Execute;
      EveryRunKeepsInvariant(calls[..|calls| - 1]);
      ExecuteKeeps(After(calls[..|calls| - 1]), calls[|calls| - 1]);
    } else {
      assert Invariant(START);
    }
  }

  /** Whenever an interactive run of submissions and reviews starts a goal cycle, every section and the
      task list was approved in a review of identical content and has not changed in any submission
      since. */
  lemma StartedMeansReviewed(calls: seq<Call>, c: Call, item: Item)
    requires var s := Execute(After(calls), c); |s.log| > 0 && s.log[|s.log| - 1].CycleStarted?
    ensures var s := Execute(After(calls), c);
            Vouched(s.log[..|s.log| - 1], s.log[|s.log| - 1].draft, item)
  {
    var before := After(calls);
    EveryRunKeepsInvariant(calls);
    SubmitKeeps(before, c);
    JudgeKeeps(Submit(before, c), c.verdict);
    var judged := Judge(Submit(before, c), c.verdict);
    assert judged.draft.Some? && AllApproved(judged.draft.value);
    assert (judged.log + [CycleStarted(judged.draft.value)])[..|judged.log|] == judged.log;
    assert ApprovedIn(judged.draft.value, item);
  }

  /** A dispatched run always starts its cycle, with exactly the submitted content, and keeps no draft. */
  lemma DispatchedStartsAtOnce(s: Plan, c: Call)
    ensures var r := ExecuteDispatched(s, c);
            && r.draft.None?
            && r.log == s.log + [Submission(c.params, c.tasks), CycleStarted(ApproveDraft(Submit(s, c).draft.value))]
            && forall part :: SectionOf(ApproveDraft(Submit(s, c).draft.value), part).content ==
                              SectionOf(BuildDraft(c.params, c.tasks, None), part).content
  {
    assert AllApproved(ApproveDraft(Submit(s, c).draft.value));
  }

  /** Changing the goal or the context drops the approval of both; changing any other section, or the
      task list, drops its own. */
  lemma ChangesDropApproval(p: Params, tasks: seq<TaskInput>, previous: Draft)
    ensures var d := BuildDraft(p, tasks, Some(previous));
            && (p.goal != previous.goal.content || p.context != previous.context.content ==>
                  d.goal.review == FRESH && d.context.review == FRESH)
            && (p.design != previous.design.content ==> d.design.review == FRESH)
            && (p.success != previous.success.content ==> d.success.review == FRESH)
            && (p.boundaries != previous.boundaries.content ==> d.boundaries.review == FRESH)
            && (tasks != previous.tasks ==> d.tasksReview == FRESH)
  {
  }

  /** Resubmitting an approved plan unchanged keeps it approved, without the reviewer's notes. */
  lemma ResubmissionKeepsApproval(d: Draft)
    ensures var p := Params(d.goal.content, d.context.content, d.design.content, d.success.content, d.boundaries.content,
                            d.worktreeSlug);
            AllApproved(d) ==> BuildDraft(p, d.tasks, Some(d)) == ApproveDraft(d)
  {
    if AllApproved(d) {
      assert Approved(SectionOf(d, Goal).review) && Approved(SectionOf(d, Context).review)
             && Approved(SectionOf(d, Design).review) && Approved(SectionOf(d, Success).review)
             && Approved(SectionOf(d, Boundaries).review);
    }
  }

  // ----- What one call comes to -----

  /** A submitted draft has exactly the submitted contents under their own names. */
  predicate HasContents(d: Draft, p: Params, tasks: seq<TaskInput>) {
    && d.goal.content == p.goal && d.context.content == p.context && d.design.content == p.design
    && d.success.content == p.success && d.boundaries.content == p.boundaries && d.tasks == tasks
  }

  function ReviewIn(d: Draft, item: Item): Review {
    match item
    case OfSection(part) => SectionOf(d, part).review
    case Tasks => d.tasksReview
  }

  /** Goal and context are approved together only. */
  predicate WasApproved(d: Draft, item: Item) {
    if item == OfSection(Goal) || item == OfSection(Context) then Approved(d.goal.review) && Approved(d.context.review)
    else ApprovedIn(d, item)
  }

  /** An item of a new draft is approved exactly when the previous draft had it approved with the same content;
      otherwise it is unreviewed, and no note of the reviewer is carried over. */
  lemma CarriedExactly(s: Plan, c: Call, item: Item)
    ensures var d := Submit(s, c).draft.value;
            && HasContents(d, c.params, c.tasks)
            && d.worktreeSlug == (if c.params.worktreeSlug.Some? || s.draft.None? then c.params.worktreeSlug
                                  else s.draft.value.worktreeSlug)
            && ReviewIn(d, item) == (if s.draft.Some? && WasApproved(s.draft.value, item) && SameItem(s.draft.value, d, item)
                                     then Review(Some(true), None) else Review(None, None))
  {
  }

  function MarkFor(m: Marks, item: Item): Review {
    match item
    case OfSection(Goal) => m.goal
    case OfSection(Context) => m.context
    case OfSection(Design) => m.design
    case OfSection(Success) => m.success
    case OfSection(Boundaries) => m.boundaries
    case Tasks => m.tasks
  }

  /** An interactive call by what the reviewer and the handoff answer: declining drops the plan; marks are taken over
      item by item and change nothing else; a cycle is started exactly when every item is approved then, and the
      mode is analysis or a worktree was selected; in every other case the draft stays pending. */
  lemma ExecuteIs(s: Plan, c: Call)
    ensures var d, r := Submit(s, c).draft.value, Execute(s, c);
            && (c.verdict.Declined? ==> r.draft.None? && r.log == s.log + [Submission(c.params, c.tasks), Dropped])
            && (!c.verdict.Declined? ==>
                  var marked := if c.verdict.Submitted? then Marked(d, c.verdict.marks) else d;
                  var starts := (forall item :: ApprovedIn(marked, item)) && (c.analysis || c.handoff.Selected?);
                  && HasContents(marked, c.params, c.tasks) && marked.worktreeSlug == d.worktreeSlug
                  && (forall item :: ReviewIn(marked, item) ==
                        if c.verdict.Submitted? then MarkFor(c.verdict.marks, item) else ReviewIn(d, item))
                  && r.draft == (if starts then None else Some(marked))
                  && r.log == s.log + [Submission(c.params, c.tasks)]
                              + (if c.verdict.Submitted? then [Reviewed(marked)] else [])
                              + (if starts then [CycleStarted(marked)] else []))
  {
    var d := Submit(s, c).draft.value;
    CarriedExactly(s, c, Tasks);
    var marked := if c.verdict.Submitted? then Marked(d, c.verdict.marks) else d;
    assert AllApproved(marked) <==> forall item :: ApprovedIn(marked, item) by { AllItems(marked); }
    hide BuildDraft, AllApproved;
  }

  lemma AllItems(d: Draft)
    ensures AllApproved(d) <==> forall item :: ApprovedIn(d, item)
  {
    if forall item :: ApprovedIn(d, item) {
      forall part
        ensures Approved(SectionOf(d, part).review)
      {
        assert ApprovedIn(d, OfSection(part));
      }
      assert ApprovedIn(d, Tasks);
    }
  }
}
