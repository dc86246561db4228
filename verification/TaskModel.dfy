/** Goals and tasks as values: what every operation does to the live goal, the live task list, the
    cycles and the saved file, and what holds over all runs of them. */
module TaskModel {
  import opened Prelude

  datatype Status = Pending | Active | Completed | Deleted

  datatype TaskValue = TaskValue(name: string, description: string, criteria: string, status: Status)

  datatype PlanRef = PlanRef(context: string, design: string, success: string, boundaries: string)

  datatype CycleValue = CycleValue(
    goal: string,
    tasks: seq<TaskValue>,
    planRef: Option<PlanRef>,
    agentMode: Option<string>,
    active: bool,
    archivedAt: Option<string>)

  /** The live state, the cycles in memory, and the cycles in the session's file. */
  datatype State = State(goal: Option<string>, tasks: seq<TaskValue>, cycles: seq<CycleValue>, saved: seq<CycleValue>)

  const START := State(None, [], [], [])

  datatype TaskInput = TaskInput(name: string, description: string, criteria: string)

  datatype Op =
    | StartCycle(newGoal: string, newTasks: seq<TaskValue>, planRef: Option<PlanRef>, agentMode: Option<string>, now: string)
    | CreateTasks(inputs: seq<TaskInput>)
    | StartTask(index: int)
    | CompleteTask(index: int)
    | DeleteTask(index: int)
    | Reload

  // ----- The operations -----

  /** The first active cycle; the number of cycles when there is none. */
  function FindActive(cycles: seq<CycleValue>): (k: nat)
    ensures k <= |cycles|
    ensures k < |cycles| ==> cycles[k].active
    ensures forall i :: 0 <= i < k ==> !cycles[i].active
  {
    if |cycles| == 0 || cycles[0].active then 0 else 1 + FindActive(cycles[1..])
  }

  function Archived(c: CycleValue, tasks: seq<TaskValue>, now: string): CycleValue {
    c.(tasks := tasks, active := false, archivedAt := Some(now))
  }

  function ArchiveActive(cycles: seq<CycleValue>, tasks: seq<TaskValue>, now: string): seq<CycleValue> {
    var k := FindActive(cycles);
    if k == |cycles| then cycles else cycles[k := Archived(cycles[k], tasks, now)]
  }

  /** Persisting copies the live tasks into the active cycle and saves all cycles. */
  function Persisted(s: State): State {
    var k := FindActive(s.cycles);
    var cycles := if k == |s.cycles| then s.cycles else s.cycles[k := s.cycles[k].(tasks := s.tasks)];
    s.(cycles := cycles, saved := cycles)
  }

  function PendingTask(input: TaskInput): TaskValue {
    TaskValue(input.name, input.description, input.criteria, Pending)
  }

  function PendingTasks(inputs: seq<TaskInput>): (tasks: seq<TaskValue>)
    ensures |tasks| == |inputs| && forall i :: 0 <= i < |inputs| ==> tasks[i] == PendingTask(inputs[i])
  {
    seq(|inputs|, i requires 0 <= i < |inputs| => PendingTask(inputs[i]))
  }

  predicate InRange(s: State, index: int) {
    0 <= index < |s.tasks|
  }

  predicate Open(t: TaskValue) {
    t.status.Pending? || t.status.Active?
  }

  /** Whether the operation goes through; a refused one changes nothing. */
  predicate Accepted(s: State, op: Op) {
    match op
    case StartCycle(_, _, _, _, _) => true
    case CreateTasks(_) => s.goal.Some? && s.goal.value != ""
    case StartTask(index) => InRange(s, index) && Open(s.tasks[index])
    case CompleteTask(index) => InRange(s, index) && Open(s.tasks[index])
    case DeleteTask(index) => InRange(s, index) && !s.tasks[index].status.Deleted?
    case Reload => true
  }

  function Paused(t: TaskValue): TaskValue {
    if t.status.Active? then t.(status := Pending) else t
  }

  /** The task list after starting one task: every active one goes back to pending first. */
  function Started(tasks: seq<TaskValue>, index: nat): (r: seq<TaskValue>)
    requires index < |tasks|
    ensures |r| == |tasks|
    ensures forall i :: 0 <= i < |tasks| ==> r[i] == if i == index then tasks[i].(status := Active) else Paused(tasks[i])
  {
    seq(|tasks|, i requires 0 <= i < |tasks| => if i == index then tasks[i].(status := Active) else Paused(tasks[i]))
  }

  function Apply(s: State, op: Op): State {
    if !Accepted(s, op) then s
    else match op
      case StartCycle(goal, tasks, planRef, agentMode, now) =>
        Persisted(s.(cycles := ArchiveActive(s.cycles, s.tasks, now) + [CycleValue(goal, tasks, planRef, agentMode, true, None)],
                     goal := Some(goal), tasks := tasks))
      case CreateTasks(inputs) => Persisted(s.(tasks := PendingTasks(inputs)))
      case StartTask(index) => Persisted(s.(tasks := Started(s.tasks, index)))
      case CompleteTask(index) => Persisted(s.(tasks := s.tasks[index := s.tasks[index].(status := Completed)]))
      case DeleteTask(index) => Persisted(s.(tasks := s.tasks[index := s.tasks[index].(status := Deleted)]))
      case Reload =>
        var k := FindActive(s.saved);
        if k == |s.saved| then State(None, [], s.saved, s.saved)
        else State(Some(s.saved[k].goal), s.saved[k].tasks, s.saved, s.saved)
  }

  function After(s: State, ops: seq<Op>): State {
    if |ops| == 0 then s else Apply(After(s, ops[..|ops| - 1]), ops[|ops| - 1])
  }

  /** Callers start a cycle with tasks none of which is active yet: an empty list, or a plan's. */
  predicate FreshStart(op: Op) {
    op.StartCycle? ==> forall t :: t in op.newTasks ==> t.status.Pending?
  }

  // ----- What every run keeps -----

  ghost predicate OneActiveCycle(cycles: seq<CycleValue>) {
    forall i, j :: 0 <= i < j < |cycles| ==> !(cycles[i].active && cycles[j].active)
  }

  ghost predicate OneActiveTask(tasks: seq<TaskValue>) {
    forall i, j :: 0 <= i < j < |tasks| ==> !(tasks[i].status.Active? && tasks[j].status.Active?)
  }

  /** The active cycle holds the live goal and tasks; without one there are none. */
  ghost predicate Mirrors(s: State) {
    var k := FindActive(s.cycles);
    if k == |s.cycles| then s.goal.None? && s.tasks == []
    else s.goal == Some(s.cycles[k].goal) && s.tasks == s.cycles[k].tasks
  }

  ghost predicate Invariant(s: State) {
    OneActiveCycle(s.cycles) && Mirrors(s) && OneActiveTask(s.tasks) && s.saved == s.cycles
  }

  lemma ActiveIs(cycles: seq<CycleValue>, k: nat)
    requires OneActiveCycle(cycles) && k < |cycles| && cycles[k].active
    ensures FindActive(cycles) == k
  {
  }

  lemma PersistedKeeps(s: State)
    requires OneActiveCycle(s.cycles) && OneActiveTask(s.tasks)
    requires var k := FindActive(s.cycles);
             if k == |s.cycles| then s.goal.None? && s.tasks == [] else s.goal == Some(s.cycles[k].goal)
    ensures Invariant(Persisted(s))
  {
    var k := FindActive(s.cycles);
    if k < |s.cycles| {
      ActiveIs(Persisted(s).cycles, k);
    }
    hide FindActive;
  }

  lemma StartCycleKeeps(s: State, op: Op)
    requires Invariant(s) && op.StartCycle? && FreshStart(op)
    ensures Invariant(Apply(s, op))
  {
    var cycles := ArchiveActive(s.cycles, s.tasks, op.now);
    var k := FindActive(s.cycles);
    assert forall i :: 0 <= i < |cycles| ==> !cycles[i].active;
    var begun := s.(cycles := cycles + [CycleValue(op.newGoal, op.newTasks, op.planRef, op.agentMode, true, None)],
                    goal := Some(op.newGoal), tasks := op.newTasks);
    ActiveIs(begun.cycles, |cycles|);
    hide FindActive, ArchiveActive;
    PersistedKeeps(begun);
  }

  lemma TasksKeep(s: State, tasks: seq<TaskValue>)
    requires Invariant(s) && FindActive(s.cycles) < |s.cycles| && OneActiveTask(tasks)
    ensures Invariant(Persisted(s.(tasks := tasks)))
  {
    PersistedKeeps(s.(tasks := tasks));
  }

  lemma ApplyKeeps(s: State, op: Op)
    requires Invariant(s) && FreshStart(op)
    ensures Invariant(Apply(s, op))
  {
    hide Invariant, Persisted, FindActive;
    if !Accepted(s, op) { return; }
    if op.StartCycle? {
      StartCycleKeeps(s, op);
    } else if op.Reload? {
      ReloadKeeps(s);
    } else {
      HasActive(s);
      match op
      case CreateTasks(inputs) => TasksKeep(s, PendingTasks(inputs));
      case StartTask(index) => TasksKeep(s, Started(s.tasks, index));
      case CompleteTask(index) => TasksKeep(s, s.tasks[index := s.tasks[index].(status := Completed)]);
      case DeleteTask(index) => TasksKeep(s, s.tasks[index := s.tasks[index].(status := Deleted)]);
    }
  }

  lemma HasActive(s: State)
    requires Invariant(s)
    ensures s.goal.Some? || s.tasks != [] ==> FindActive(s.cycles) < |s.cycles|
    ensures OneActiveTask(s.tasks)
  {
  }

  /** Reloading the session's file restores exactly the state that was saved. */
  lemma ReloadKeeps(s: State)
    requires Invariant(s)
    ensures Apply(s, Reload) == s && Invariant(Apply(s, Reload))
  {
  }

  /** Over every run, reloads included, at most one cycle is active, it mirrors the live goal and
      tasks, at most one task is active, and the file holds what is in memory. */
  lemma {:induction false} EveryRunKeepsInvariant(ops: seq<Op>)
    requires forall op :: op in ops ==> FreshStart(op)
    ensures Invariant(After(START, ops))
  {
    if |ops| > 0 {
      hide Invariant, Apply;
      EveryRunKeepsInvariant(ops[..|ops| - 1]);
      ApplyKeeps(After(START, ops[..|ops| - 1]), ops[|ops| - 1]);
    } else {
      assert Invariant(START);
    }
  }

  /** A run without its reloads. */
  function WithoutReloads(ops: seq<Op>): seq<Op> {
    if |ops| == 0 then []
    else
      var init, last := ops[..|ops| - 1], ops[|ops| - 1];
      if last.Reload? then WithoutReloads(init) else WithoutReloads(init) + [last]
  }

  /** Restarting the session changes nothing, however often and wherever in a run: the live state, the
      cycles and the file are those of the same operations in one uninterrupted session. */
  lemma {:induction false} ReloadsChangeNothing(ops: seq<Op>)
    requires forall op :: op in ops ==> FreshStart(op)
    ensures After(START, ops) == After(START, WithoutReloads(ops))
  {
    if |ops| > 0 {
      var init, last := ops[..|ops| - 1], ops[|ops| - 1];
      ReloadsChangeNothing(init);
      EveryRunKeepsInvariant(init);
      hide Invariant;
      if last.Reload? {
        ReloadKeeps(After(START, init));
      } else {
        var rest := WithoutReloads(init);
        assert (rest + [last])[..|rest|] == rest;
      }
    }
  }

  // ----- Archived cycles are frozen -----

  ghost predicate Frozen(before: State, after: State) {
    && |before.cycles| <= |after.cycles|
    && forall i :: 0 <= i < |before.cycles| && !before.cycles[i].active ==> after.cycles[i] == before.cycles[i]
  }

  lemma ApplyFreezes(s: State, op: Op)
    requires Invariant(s)
    ensures Frozen(s, Apply(s, op))
  {
    hide OneActiveCycle, OneActiveTask, Started, PendingTasks;
    if op.Reload? { ReloadKeeps(s); }
  }

  /** Once archived, a cycle and its tasks never change again, whatever follows. */
  lemma {:induction false} ArchivedNeverChanges(ops: seq<Op>, more: seq<Op>)
    requires forall op :: op in ops + more ==> FreshStart(op)
    ensures Frozen(After(START, ops), After(START, ops + more))
  {
    if |more| == 0 {
      assert ops + more == ops;
    } else {
      var init, last := more[..|more| - 1], more[|more| - 1];
      assert (ops + more)[..|ops + more| - 1] == ops + init;
      assert forall op :: op in ops + init ==> op in ops + more;
      ArchivedNeverChanges(ops, init);
      EveryRunKeepsInvariant(ops + init);
      hide Apply, Invariant;
      ApplyFreezes(After(START, ops + init), last);
    }
  }

  // ----- Indices are stable -----

  /** The same tasks at the same places; only the status may differ, and nothing comes back from deleted,
      or from completed other than to deleted. */
  ghost predicate SameTasks(before: seq<TaskValue>, after: seq<TaskValue>) {
    && |before| == |after|
    && forall i :: 0 <= i < |before| ==>
        && after[i] == before[i].(status := after[i].status)
        && (before[i].status.Deleted? ==> after[i].status.Deleted?)
        && (before[i].status.Completed? ==> after[i].status.Completed? || after[i].status.Deleted?)
  }

  predicate OnTasks(op: Op) {
    op.StartTask? || op.CompleteTask? || op.DeleteTask? || op.Reload?
  }

  lemma ApplyKeepsTasks(s: State, op: Op)
    requires Invariant(s) && OnTasks(op)
    ensures SameTasks(s.tasks, Apply(s, op).tasks)
  {
    if op.Reload? { ReloadKeeps(s); }
    hide OneActiveCycle, OneActiveTask, Mirrors, FindActive;
  }

  /** Starting, completing and deleting keep every index. */
  lemma {:induction false} IndicesAreStable(s: State, ops: seq<Op>)
    requires Invariant(s) && forall op :: op in ops ==> OnTasks(op)
    ensures Invariant(After(s, ops)) && SameTasks(s.tasks, After(s, ops).tasks)
  {
    if |ops| > 0 {
      var init, last := ops[..|ops| - 1], ops[|ops| - 1];
      assert OnTasks(last);
      hide Apply, Invariant;
      IndicesAreStable(s, init);
      ApplyKeeps(After(s, init), last);
      ApplyKeepsTasks(After(s, init), last);
      Transitive(s.tasks, After(s, init).tasks, After(s, ops).tasks);
    }
  }

  lemma Transitive(a: seq<TaskValue>, b: seq<TaskValue>, c: seq<TaskValue>)
    requires SameTasks(a, b) && SameTasks(b, c)
    ensures SameTasks(a, c)
  {
  }

  // ----- What each operation comes to -----

  /** The live list becomes `tasks`, in the active cycle and in the file as well; goal and all other cycles stay. */
  ghost predicate TasksBecome(s: State, r: State, tasks: seq<TaskValue>) {
    && r.goal == s.goal && r.tasks == tasks && r.saved == r.cycles && |r.cycles| == |s.cycles|
    && (forall i :: 0 <= i < |s.cycles| ==>
          r.cycles[i] == if s.cycles[i].active then s.cycles[i].(tasks := tasks) else s.cycles[i])
    && (exists i :: 0 <= i < |s.cycles| && s.cycles[i].active)
  }

  lemma PersistedBecomes(s: State, tasks: seq<TaskValue>)
    requires Invariant(s) && (s.goal.Some? || s.tasks != [])
    ensures TasksBecome(s, Persisted(s.(tasks := tasks)), tasks)
  {
    HasActive(s);
    var k := FindActive(s.cycles);
    assert forall i :: 0 <= i < |s.cycles| && s.cycles[i].active ==> i == k;
    hide FindActive, Mirrors, OneActiveTask;
  }

  /** Completing is accepted for an existing task that is neither completed nor deleted, which then is completed. */
  lemma CompleteTaskIs(s: State, index: int)
    requires Invariant(s)
    ensures var ok := 0 <= index < |s.tasks| && (s.tasks[index].status == Pending || s.tasks[index].status == Active);
            && Accepted(s, CompleteTask(index)) == ok
            && (if ok then TasksBecome(s, Apply(s, CompleteTask(index)), s.tasks[index := s.tasks[index].(status := Completed)])
                else Apply(s, CompleteTask(index)) == s)
  {
    hide Invariant, Persisted, TasksBecome;
    if Accepted(s, CompleteTask(index)) { PersistedBecomes(s, s.tasks[index := s.tasks[index].(status := Completed)]); }
  }

  /** Deleting is accepted for an existing task that is not deleted yet, which then is deleted. */
  lemma DeleteTaskIs(s: State, index: int)
    requires Invariant(s)
    ensures var ok := 0 <= index < |s.tasks| && s.tasks[index].status != Deleted;
            && Accepted(s, DeleteTask(index)) == ok
            && (if ok then TasksBecome(s, Apply(s, DeleteTask(index)), s.tasks[index := s.tasks[index].(status := Deleted)])
                else Apply(s, DeleteTask(index)) == s)
  {
    hide Invariant, Persisted, TasksBecome;
    if Accepted(s, DeleteTask(index)) { PersistedBecomes(s, s.tasks[index := s.tasks[index].(status := Deleted)]); }
  }

  /** Starting is accepted like completing; the task is active then, a task active before is pending again, and
      every other one is as it was. */
  lemma StartTaskIs(s: State, index: int)
    requires Invariant(s)
    ensures var ok, r := 0 <= index < |s.tasks| && (s.tasks[index].status == Pending || s.tasks[index].status == Active),
                         Apply(s, StartTask(index));
            && Accepted(s, StartTask(index)) == ok
            && (if ok then TasksBecome(s, r, r.tasks) && |r.tasks| == |s.tasks| else r == s)
            && (ok ==> forall i :: 0 <= i < |s.tasks| ==>
                  r.tasks[i] == if i == index then s.tasks[i].(status := Active)
                                else if s.tasks[i].status == Active then s.tasks[i].(status := Pending)
                                else s.tasks[i])
  {
    hide Invariant, Persisted, TasksBecome;
    if Accepted(s, StartTask(index)) {
      PersistedBecomes(s, Started(s.tasks, index));
      PersistedTasks(s.(tasks := Started(s.tasks, index)));
    }
  }

  lemma PersistedTasks(s: State)
    ensures Persisted(s).tasks == s.tasks
  {
  }

  /** Creating is accepted with a goal, and replaces the list by the given tasks, all pending. */
  lemma CreateTasksIs(s: State, inputs: seq<TaskInput>)
    requires Invariant(s)
    ensures var ok, r := s.goal.Some? && s.goal.value != "", Apply(s, CreateTasks(inputs));
            && Accepted(s, CreateTasks(inputs)) == ok
            && (if ok then TasksBecome(s, r, r.tasks) && |r.tasks| == |inputs| else r == s)
            && (ok ==> forall i :: 0 <= i < |inputs| ==>
                  r.tasks[i] == TaskValue(inputs[i].name, inputs[i].description, inputs[i].criteria, Pending))
  {
    hide Invariant, Persisted, TasksBecome;
    if Accepted(s, CreateTasks(inputs)) {
      PersistedBecomes(s, PendingTasks(inputs));
      PersistedTasks(s.(tasks := PendingTasks(inputs)));
    }
  }

  /** After a cycle is started the live state is its goal and its tasks, it stands last and active, the cycle active
      before is archived with the tasks that were live, and the file holds all of them. */
  ghost predicate CycleBegun(s: State, r: State, cycle: CycleValue, now: string) {
    && r.goal == Some(cycle.goal) && r.tasks == cycle.tasks && r.saved == r.cycles
    && |r.cycles| == |s.cycles| + 1 && r.cycles[|s.cycles|] == cycle && cycle.active && cycle.archivedAt == None
    && (forall i :: 0 <= i < |s.cycles| ==>
          r.cycles[i] == if s.cycles[i].active then s.cycles[i].(tasks := s.tasks, active := false, archivedAt := Some(now))
                         else s.cycles[i])
  }

  lemma StartCycleIs(s: State, op: Op)
    requires OneActiveCycle(s.cycles) && op.StartCycle?
    ensures CycleBegun(s, Apply(s, op), CycleValue(op.newGoal, op.newTasks, op.planRef, op.agentMode, true, None), op.now)
  {
    var cycle := CycleValue(op.newGoal, op.newTasks, op.planRef, op.agentMode, true, None);
    var archived := ArchiveActive(s.cycles, s.tasks, op.now);
    var k := FindActive(s.cycles);
    assert forall i :: 0 <= i < |s.cycles| && s.cycles[i].active ==> i == k;
    assert forall i :: 0 <= i < |archived| ==> !archived[i].active;
    ActiveIs(archived + [cycle], |archived|);
    hide FindActive;
  }
}
