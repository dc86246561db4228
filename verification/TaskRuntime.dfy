/** The live task runtime: cycle and task objects that the operations mutate in place. The live list and
    the active cycle share one array and its task objects; archived cycles share nothing with anyone. */
module TaskRuntime {
  import opened Prelude
  import opened TaskModel

  class Task {
    const name: string
    const description: string
    const criteria: string
    var status: Status

    constructor (value: TaskValue)
      ensures View() == value
    {
      name, description, criteria, status := value.name, value.description, value.criteria, value.status;
    }

    function View(): TaskValue
      reads this
    {
      TaskValue(name, description, criteria, status)
    }
  }

  function TaskViews(tasks: seq<Task>): seq<TaskValue>
    reads tasks
  {
    if |tasks| == 0 then [] else TaskViews(tasks[..|tasks| - 1]) + [tasks[|tasks| - 1].View()]
  }

  lemma {:induction false} TaskViewsAre(tasks: seq<Task>)
    ensures |TaskViews(tasks)| == |tasks| && forall i :: 0 <= i < |tasks| ==> TaskViews(tasks)[i] == tasks[i].View()
  {
    if |tasks| > 0 { TaskViewsAre(tasks[..|tasks| - 1]); }
  }

  class Cycle {
    const goal: string
    const planRef: Option<PlanRef>
    const agentMode: Option<string>
    var tasks: seq<Task>
    var active: bool
    var archivedAt: Option<string>

    constructor (goal: string, tasks: seq<Task>, planRef: Option<PlanRef>, agentMode: Option<string>, active: bool,
                 archivedAt: Option<string>)
      ensures this.goal == goal && this.tasks == tasks && this.planRef == planRef && this.agentMode == agentMode
      ensures this.active == active && this.archivedAt == archivedAt
    {
      this.goal, this.tasks, this.planRef, this.agentMode := goal, tasks, planRef, agentMode;
      this.active, this.archivedAt := active, archivedAt;
    }

    function View(): CycleValue
      reads this, tasks
    {
      CycleValue(goal, TaskViews(tasks), planRef, agentMode, active, archivedAt)
    }
  }

  ghost function TasksOf(cycles: seq<Cycle>): set<Task>
    reads cycles
  {
    set c, t | c in cycles && t in c.tasks :: t
  }

  function CycleViews(cycles: seq<Cycle>): seq<CycleValue>
    reads cycles, TasksOf(cycles)
  {
    if |cycles| == 0 then []
    else
      var init, last := cycles[..|cycles| - 1], cycles[|cycles| - 1];
      assert forall t :: t in last.tasks ==> t in TasksOf(cycles);
      CycleViews(init) + [last.View()]
  }

  lemma {:induction false} CycleViewsAre(cycles: seq<Cycle>)
    ensures |CycleViews(cycles)| == |cycles| && forall i :: 0 <= i < |cycles| ==> CycleViews(cycles)[i] == cycles[i].View()
  {
    if |cycles| > 0 { CycleViewsAre(cycles[..|cycles| - 1]); }
  }

  /** Views depend on nothing but the cycles and their tasks. */
  twostate lemma {:induction false} ViewsStay(cycles: seq<Cycle>)
    requires forall i :: 0 <= i < |cycles| ==> unchanged(cycles[i])
    requires forall t :: t in TasksOf(cycles) ==> unchanged(t)
    ensures CycleViews(cycles) == old(CycleViews(cycles))
  {
    if |cycles| > 0 {
      var init, last := cycles[..|cycles| - 1], cycles[|cycles| - 1];
      assert forall t :: t in last.tasks ==> t in TasksOf(cycles);
      assert forall t :: t in TasksOf(init) ==> t in TasksOf(cycles);
      assert forall i :: 0 <= i < |init| ==> init[i] == cycles[i];
      ViewsStay(init);
      assert forall i :: 0 <= i < |last.tasks| ==> last.tasks[i] in last.tasks;
      TaskViewsStay(last.tasks);
      hide TaskViews;
      assert last.View() == old(last.View());
    }
  }

  /** All cycle objects differ, and no task object occurs twice, in one cycle or in two. */
  ghost predicate Apart(cycles: seq<Cycle>)
    reads cycles
  {
    && (forall i, j :: 0 <= i < j < |cycles| ==> cycles[i] != cycles[j])
    && (forall i, j, t :: 0 <= i < j < |cycles| && t in cycles[i].tasks ==> t !in cycles[j].tasks)
    && (forall c :: c in cycles ==> NoRepeats(c.tasks))
  }

  predicate NoRepeats(tasks: seq<Task>) {
    forall i, j :: 0 <= i < j < |tasks| ==> tasks[i] != tasks[j]
  }

  lemma FindActiveIs(cycles: seq<CycleValue>, k: nat)
    requires k <= |cycles| && (forall i :: 0 <= i < k ==> !cycles[i].active) && (k < |cycles| ==> cycles[k].active)
    ensures FindActive(cycles) == k
  {
  }

  ghost predicate AtMostOneActive(cycles: seq<Cycle>)
    reads cycles
  {
    forall i, j :: 0 <= i < j < |cycles| ==> !(cycles[i].active && cycles[j].active)
  }

  /** The live tasks are nobody's, or the active cycle's. */
  ghost predicate LiveApart(cycles: seq<Cycle>, tasks: seq<Task>)
    reads cycles
  {
    forall c, t :: c in cycles && !c.active && t in c.tasks ==> t !in tasks
  }

  ghost function ActiveOf(cycles: seq<Cycle>): set<Cycle>
    reads cycles
  {
    set c | c in cycles && c.active
  }

  /** The live goal is the active cycle's goal. */
  ghost predicate GoalFits(cycles: seq<Cycle>, goal: Option<string>)
    reads cycles
  {
    (forall c :: c in cycles && c.active ==> goal == Some(c.goal)) && (ActiveOf(cycles) == {} ==> goal.None?)
  }

  /** The first cycle whose flag is set; the number of cycles when there is none. */
  function ActiveIndex(cycles: seq<Cycle>): (k: nat)
    reads cycles
    ensures k <= |cycles|
    ensures k < |cycles| ==> cycles[k].active
    ensures forall i :: 0 <= i < k ==> !cycles[i].active
  {
    if |cycles| == 0 || cycles[0].active then 0 else 1 + ActiveIndex(cycles[1..])
  }

  lemma ActiveIndexIs(cycles: seq<Cycle>)
    ensures ActiveIndex(cycles) == FindActive(CycleViews(cycles)) && |CycleViews(cycles)| == |cycles|
  {
    CycleViewsAre(cycles);
    FindActiveIs(CycleViews(cycles), ActiveIndex(cycles));
  }

  lemma AppendedTasks(cycles: seq<Cycle>, c: Cycle)
    ensures TasksOf(cycles + [c]) == TasksOf(cycles) + set t | t in c.tasks
  {
    assert forall x :: x in cycles + [c] <==> x in cycles || x == c;
  }

  twostate lemma ApartStays(cycles: seq<Cycle>)
    requires old(Apart(cycles)) && forall i :: 0 <= i < |cycles| ==> unchanged(cycles[i])
    ensures Apart(cycles)
  {
  }

  lemma AppendedViews(cycles: seq<Cycle>, c: Cycle)
    ensures CycleViews(cycles + [c]) == CycleViews(cycles) + [c.View()]
  {
    assert (cycles + [c])[..|cycles|] == cycles;
  }

  lemma PushedIsApart(cycles: seq<Cycle>, c: Cycle)
    requires Apart(cycles) && c !in cycles && NoRepeats(c.tasks)
    requires forall t :: t in c.tasks ==> t !in TasksOf(cycles)
    ensures Apart(cycles + [c])
  {
    hide NoRepeats;
    assert forall i, t :: 0 <= i < |cycles| && t in cycles[i].tasks ==> t in TasksOf(cycles);
  }

  class Runtime {
    var goal: Option<string>
    var tasks: seq<Task>
    var cycles: seq<Cycle>
    var guardBlockCount: nat
    var saved: seq<CycleValue>

    constructor ()
      ensures Valid() && cycles == [] && tasks == []
      ensures View() == START
    {
      goal, tasks, cycles, guardBlockCount, saved := None, [], [], 0, [];
    }

    /** What holds even between replacing the live list and persisting it. */
    ghost predicate Sound()
      reads this, cycles
    {
      Apart(cycles) && NoRepeats(tasks) && AtMostOneActive(cycles) && LiveApart(cycles, tasks) && GoalFits(cycles, goal)
    }

    /** The live list is the active cycle's own list; without an active cycle it is empty. */
    ghost predicate Valid()
      reads this, cycles
    {
      && Sound()
      && (forall c :: c in cycles && c.active ==> c.tasks == tasks)
      && (ActiveOf(cycles) == {} ==> tasks == [])
    }

    ghost function View(): State
      reads this, cycles, TasksOf(cycles), tasks
    {
      State(goal, TaskViews(tasks), CycleViews(cycles), saved)
    }

    /** The live list becomes the list of the active cycle. */
    method SyncCycle(k: nat)
      requires k < |cycles| && cycles[k].active && Sound()
      modifies cycles[k]
      ensures cycles[k].tasks == tasks && cycles[k].active
      ensures k < |old(CycleViews(cycles))| && TaskViews(tasks) == old(TaskViews(tasks))
      ensures CycleViews(cycles) == old(CycleViews(cycles))[k := old(CycleViews(cycles))[k].(tasks := TaskViews(tasks))]
    {
      hide CycleViews, TaskViews, AtMostOneActive, LiveApart, NoRepeats, GoalFits;
      CycleViewsAre(cycles);
      cycles[k].tasks := tasks;
      CycleViewsAre(cycles);
    }

    /** Sharing the live list keeps every other cycle apart from it. */
    method ShareWithActive(k: nat)
      requires k < |cycles| && cycles[k].active && Sound()
      modifies cycles[k]
      ensures Valid() && cycles[k].tasks == tasks && cycles[k].active
      ensures k < |old(CycleViews(cycles))| && TaskViews(tasks) == old(TaskViews(tasks))
      ensures CycleViews(cycles) == old(CycleViews(cycles))[k := old(CycleViews(cycles))[k].(tasks := TaskViews(tasks))]
    {
      hide CycleViews, TaskViews;
      SyncCycle(k);
      assert cycles[k] in ActiveOf(cycles);
      assert forall c :: c in cycles && c.active ==> c == cycles[k];
    }
  
    method PersistState()
      requires Sound() && (ActiveOf(cycles) == {} ==> tasks == [])
      modifies this`saved, ActiveOf(cycles)
      ensures Valid() && View() == Persisted(old(View()))
    {
      hide CycleViews, TaskViews, FindActive, ActiveIndex, Apart, NoRepeats, AtMostOneActive, LiveApart;
      ghost var before := View();
      var k := ActiveIndex(cycles);
      ActiveIndexIs(cycles);
      if k < |cycles| {
        assert cycles[k] in ActiveOf(cycles);
        hide Valid;
        ShareWithActive(k);
        assert TaskViews(tasks) == before.tasks;
        assert CycleViews(cycles) == before.cycles[k := before.cycles[k].(tasks := before.tasks)];
      } else {
        assert ActiveOf(cycles) == {};
      }
      assert TaskViews(tasks) == before.tasks;
      var values := CycleViews(cycles);
      assert values == Persisted(before).cycles;
      label ready:
      saved := values;
      ViewsStay@ready(cycles);
    }

    /** Persisting after the statuses of live tasks have been changed in place. */
    method PersistStatuses(ghost before: State, ghost tasksNow: seq<TaskValue>)
      requires Valid()
      requires Persisted(View()) == Persisted(before.(tasks := tasksNow))
      modifies this`saved, ActiveOf(cycles)
      ensures Valid() && View() == Persisted(before.(tasks := tasksNow))
    {
      hide Persisted, Valid, Sound;
      assert Sound() && (ActiveOf(cycles) == {} ==> tasks == []) by { ValidIsSound(); }
      PersistState();
    }

    lemma ValidIsSound()
      requires Valid()
      ensures Sound() && (ActiveOf(cycles) == {} ==> tasks == [])
    {
    }

    /** The active cycle, if there is one, keeps the live tasks and is active no longer. */
    method ArchiveActiveCycle(now: string)
      requires Valid()
      modifies ActiveOf(cycles)
      ensures ActiveOf(cycles) == {} && Apart(cycles)
      ensures forall c :: c in cycles ==> c.tasks == old(c.tasks)
      ensures TaskViews(tasks) == old(TaskViews(tasks))
      ensures CycleViews(cycles) == ArchiveActive(old(CycleViews(cycles)), TaskViews(tasks), now)
    {
      hide CycleViews, TaskViews, FindActive, LiveApart, GoalFits, NoRepeats;
      var k := ActiveIndex(cycles);
      ActiveIndexIs(cycles);
      if k == |cycles| { return; }
      CycleViewsAre(cycles);
      assert cycles[k] in ActiveOf(cycles);
      var active := cycles[k];
      active.tasks := tasks;
      active.active := false;
      active.archivedAt := Some(now);
      CycleViewsAre(cycles);
    }

    /** A new active cycle is pushed and becomes the live state. */
    method PushCycle(newGoal: string, newTasks: seq<Task>, planRef: Option<PlanRef>, agentMode: Option<string>)
      requires ActiveOf(cycles) == {} && Apart(cycles) && NoRepeats(newTasks)
      requires forall t :: t in newTasks ==> t !in TasksOf(cycles)
      modifies this
      ensures Sound() && ActiveOf(cycles) != {} && fresh(ActiveOf(cycles))
      ensures View() == old(View()).(goal := Some(newGoal), tasks := old(TaskViews(newTasks)),
                                     cycles := old(CycleViews(cycles))
                                               + [CycleValue(newGoal, old(TaskViews(newTasks)), planRef, agentMode, true, None)])
    {
      hide CycleViews, TaskViews;
      label start:
      ghost var views := CycleViews(cycles);
      var cycle := new Cycle(newGoal, newTasks, planRef, agentMode, true, None);
      ViewsStay@start(cycles);
      TaskViewsStay@start(newTasks);
      ghost var before := cycles;
      cycles := cycles + [cycle];
      goal := Some(newGoal);
      tasks := newTasks;
      guardBlockCount := 0;
      AppendedViews(before, cycle);
      PushedIsSound(before, cycle);
    }

    lemma PushedIsSound(before: seq<Cycle>, cycle: Cycle)
      requires cycles == before + [cycle] && cycle !in before && cycle.active && cycle.tasks == tasks
      requires goal == Some(cycle.goal)
      requires ActiveOf(before) == {} && Apart(before) && NoRepeats(tasks)
      requires forall t :: t in tasks ==> t !in TasksOf(before)
      ensures Sound() && ActiveOf(cycles) == {cycle}
    {
      PushedIsApart(before, cycle);
      hide Apart, NoRepeats;
      forall c | c in before
        ensures !c.active
      {
        assert c !in ActiveOf(before);
      }
      assert cycle in cycles && cycle in ActiveOf(cycles);
      assert forall c :: c in cycles ==> c in before || c == cycle;
      assert LiveApart(cycles, tasks) by {
        assert forall c, t :: c in before && t in c.tasks ==> t in TasksOf(before);
      }
      assert AtMostOneActive(cycles) by {
        assert forall i :: 0 <= i < |before| ==> cycles[i] in before;
      }
    }

    /** A new goal: whatever cycle was active is archived first, and the new one shares the live list. */
    method StartGoalCycle(newGoal: string, newTasks: seq<Task>, planRef: Option<PlanRef>, agentMode: Option<string>,
                          now: string)
      requires Valid() && NoRepeats(newTasks)
      requires forall t :: t in newTasks ==> t !in TasksOf(cycles)
      modifies this, ActiveOf(cycles)
      ensures Valid()
      ensures View() == Apply(old(View()), StartCycle(newGoal, old(TaskViews(newTasks)), planRef, agentMode, now))
    {
      hide CycleViews, TaskViews, Persisted, ArchiveActive, Apart, NoRepeats;
      label start:
      ghost var before := View();
      ArchiveActiveCycle(now);
      TaskViewsStay@start(newTasks);
      assert forall t :: t in newTasks ==> t !in TasksOf(cycles);
      assert View() == before.(cycles := ArchiveActive(before.cycles, before.tasks, now));
      PushCycle(newGoal, newTasks, planRef, agentMode);
      PersistState();
    }

    static method LoadTasks(values: seq<TaskValue>) returns (loaded: seq<Task>)
      ensures fresh(loaded) && NoRepeats(loaded) && TaskViews(loaded) == values
    {
      loaded := [];
      for i := 0 to |values|
        invariant fresh(loaded) && NoRepeats(loaded) && |loaded| == i
        invariant forall j :: 0 <= j < i ==> loaded[j].View() == values[j]
      {
        var t := new Task(values[i]);
        loaded := loaded + [t];
      }
      TaskViewsAre(loaded);
    }

    static method LoadCycle(v: CycleValue) returns (c: Cycle)
      ensures fresh(c) && fresh(c.tasks) && NoRepeats(c.tasks) && c.View() == v
    {
      var tasks := LoadTasks(v.tasks);
      hide TaskViews;
      c := new Cycle(v.goal, tasks, v.planRef, v.agentMode, v.active, v.archivedAt);
    }

    /** Parsing the file gives objects of their own for every cycle and every task. */
    static method LoadCycles(values: seq<CycleValue>) returns (loaded: seq<Cycle>)
      ensures fresh(loaded) && fresh(TasksOf(loaded)) && Apart(loaded) && CycleViews(loaded) == values
    {
      hide TaskViews, NoRepeats;
      if |values| == 0 { return []; }
      var init := LoadCycles(values[..|values| - 1]);
      loaded := AddLoaded(init, values[|values| - 1]);
      assert values[..|values| - 1] + [values[|values| - 1]] == values;
      assert loaded == init + [loaded[|init|]];
      AppendedTasks(init, loaded[|init|]);
    }

    /** One more cycle after those already loaded. */
    static method AddLoaded(init: seq<Cycle>, value: CycleValue) returns (loaded: seq<Cycle>)
      requires Apart(init)
      ensures |loaded| == |init| + 1 && loaded[..|init|] == init && fresh(loaded[|init|]) && fresh(loaded[|init|].tasks)
      ensures Apart(loaded) && CycleViews(loaded) == old(CycleViews(init)) + [value]
    {
      hide TaskViews, NoRepeats, CycleViews, Apart;
      label next:
      var c := LoadCycle(value);
      ViewsStay@next(init);
      ApartStays@next(init);
      AppendedViews(init, c);
      PushedIsApart(init, c);
      loaded := init + [c];
    }

    /** A session start reads the file and adopts its first active cycle, if there is one. */
    method SessionStart()
      modifies this
      ensures View() == Apply(old(View()), Op.Reload)
      ensures Valid() <==> OneActiveCycle(old(saved))
    {
      hide CycleViews, TaskViews, FindActive, Valid, Apart, OneActiveCycle, Apply;
      ghost var before := View();
      var loaded := LoadCycles(saved);
      label read:
      goal, tasks, cycles := None, [], loaded;
      ApartStays@read(cycles);
      ViewsStay@read(cycles);
      AdoptActive(before);
    }

    method AdoptActive(ghost before: State)
      requires goal.None? && tasks == [] && Apart(cycles) && CycleViews(cycles) == saved == before.saved
      modifies this`goal, this`tasks
      ensures View() == Apply(before, Op.Reload)
      ensures Valid() <==> OneActiveCycle(before.saved)
    {
      hide CycleViews, TaskViews, FindActive, Valid, Apart, OneActiveCycle;
      ActiveIndexIs(cycles);
      EmptyViews();
      var k := ActiveIndex(cycles);
      FoundIs(k);
      label found:
      if k < |cycles| {
        goal := Some(cycles[k].goal);
        tasks := cycles[k].tasks;
      }
      ViewsStay@found(cycles);
      FlagsAre();
      ValidHasOne();
      if OneActiveCycle(saved) {
        LoadedIsValid(k);
      }
    }

    lemma FoundIs(k: nat)
      requires k == ActiveIndex(cycles)
      ensures |CycleViews(cycles)| == |cycles|
      ensures k < |cycles| ==> CycleViews(cycles)[k] == cycles[k].View()
    {
      CycleViewsAre(cycles);
    }

    lemma FlagsAre()
      ensures OneActiveCycle(CycleViews(cycles)) <==> AtMostOneActive(cycles)
    {
      CycleViewsAre(cycles);
    }

    lemma ValidHasOne()
      ensures Valid() ==> AtMostOneActive(cycles)
    {
    }

    lemma EmptyViews()
      ensures TaskViews([]) == []
    {
    }

    lemma LoadedIsValid(k: nat)
      requires Apart(cycles) && k == ActiveIndex(cycles) && AtMostOneActive(cycles)
      requires k == |cycles| ==> goal.None? && tasks == []
      requires k < |cycles| ==> goal == Some(cycles[k].goal) && tasks == cycles[k].tasks
      ensures Valid()
    {
      hide ActiveIndex;
      if k < |cycles| {
        assert cycles[k] in cycles && cycles[k] in ActiveOf(cycles);
        assert forall c :: c in cycles && c.active ==> c == cycles[k];
        LiveIsApart(k);
      }
    }

    lemma LiveIsApart(k: nat)
      requires Apart(cycles) && k < |cycles| && cycles[k].active
      ensures LiveApart(cycles, cycles[k].tasks) && NoRepeats(cycles[k].tasks)
    {
      hide NoRepeats;
      assert cycles[k] in cycles;
      forall c, t | c in cycles && !c.active && t in c.tasks
        ensures t !in cycles[k].tasks
      {
        var i :| 0 <= i < |cycles| && cycles[i] == c;
      }
    }

    method NewTasks(inputs: seq<TaskInput>) returns (created: seq<Task>)
      ensures fresh(created) && NoRepeats(created) && TaskViews(created) == PendingTasks(inputs)
    {
      created := [];
      for i := 0 to |inputs|
        invariant fresh(created) && NoRepeats(created) && |created| == i
        invariant forall j :: 0 <= j < i ==> created[j].View() == PendingTask(inputs[j])
      {
        var t := new Task(PendingTask(inputs[i]));
        created := created + [t];
      }
      TaskViewsAre(created);
    }

    method ReplaceTasks(inputs: seq<TaskInput>)
      requires Valid() && goal.Some?
      modifies this, ActiveOf(cycles)
      ensures Valid() && View() == Persisted(old(View()).(tasks := PendingTasks(inputs)))
    {
      hide CycleViews, TaskViews, Persisted, Apart, AtMostOneActive;
      ghost var before := View();
      label start:
      var created := NewTasks(inputs);
      tasks := created;
      guardBlockCount := 0;
      ViewsStay@start(cycles);
      assert View() == before.(tasks := PendingTasks(inputs));
      PersistState();
    }

    method CreateTasks(inputs: seq<TaskInput>) returns (accepted: bool)
      requires Valid()
      modifies this, ActiveOf(cycles)
      ensures Valid() && accepted == Accepted(old(View()), Op.CreateTasks(inputs))
      ensures View() == Apply(old(View()), Op.CreateTasks(inputs))
    {
      if goal.None? || goal.value == "" { return false; }
      ReplaceTasks(inputs);
      return true;
    }

    /** No archived cycle holds a live task. */
    lemma LiveTaskIsOnlyLive(index: nat)
      requires Valid() && index < |tasks|
      ensures forall i, j :: 0 <= i < |cycles| && !cycles[i].active && 0 <= j < |cycles[i].tasks| ==>
                cycles[i].tasks[j] != tasks[index]
    {
      assert tasks[index] in tasks;
      forall i, j | 0 <= i < |cycles| && !cycles[i].active && 0 <= j < |cycles[i].tasks|
        ensures cycles[i].tasks[j] != tasks[index]
      {
        assert cycles[i] in cycles && cycles[i].tasks[j] in cycles[i].tasks;
      }
    }

    method CompleteTask(index: int) returns (accepted: bool)
      requires Valid()
      modifies this`saved, ActiveOf(cycles), tasks
      ensures Valid() && accepted == Accepted(old(View()), Op.CompleteTask(index))
      ensures View() == Apply(old(View()), Op.CompleteTask(index))
    {
      hide CycleViews, TaskViews, Persisted, Valid;
      TaskViewsAre(tasks);
      if index < 0 || index >= |tasks| { return false; }
      var target := tasks[index];
      if target.status.Completed? || target.status.Deleted? { return false; }
      SetStatus(index, Completed);
      return true;
    }

    method DeleteTask(index: int) returns (accepted: bool)
      requires Valid()
      modifies this`saved, ActiveOf(cycles), tasks
      ensures Valid() && accepted == Accepted(old(View()), Op.DeleteTask(index))
      ensures View() == Apply(old(View()), Op.DeleteTask(index))
    {
      hide CycleViews, TaskViews, Persisted, Valid;
      TaskViewsAre(tasks);
      if index < 0 || index >= |tasks| { return false; }
      if tasks[index].status.Deleted? { return false; }
      SetStatus(index, Deleted);
      return true;
    }

    lemma LiveTasksAreOnlyLive()
      requires Valid()
      ensures forall i, j, k :: 0 <= i < |cycles| && !cycles[i].active && 0 <= j < |cycles[i].tasks| && 0 <= k < |tasks| ==>
                cycles[i].tasks[j] != tasks[k]
    {
      forall k | 0 <= k < |tasks|
        ensures forall i, j :: 0 <= i < |cycles| && !cycles[i].active && 0 <= j < |cycles[i].tasks| ==>
                  cycles[i].tasks[j] != tasks[k]
      {
        LiveTaskIsOnlyLive(k);
      }
    }

    /** Clear any previously active task back to pending, then mark this one. */
    method MarkActive(index: nat)
      requires NoRepeats(tasks) && index < |tasks| == |TaskViews(tasks)|
      modifies tasks
      ensures TaskViews(tasks) == Started(old(TaskViews(tasks)), index)
    {
      hide TaskViews;
      ghost var was := TaskViews(tasks);
      TaskViewsAre(tasks);
      for i := 0 to |tasks|
        invariant forall j :: 0 <= j < i ==> tasks[j].View() == Paused(was[j])
        invariant forall j :: i <= j < |tasks| ==> tasks[j].View() == was[j]
      {
        if tasks[i].status.Active? { tasks[i].status := Pending; }
      }
      tasks[index].status := Active;
      TaskViewsAre(tasks);
    }

    method StartTask(index: int) returns (accepted: bool)
      requires Valid()
      modifies this`saved, ActiveOf(cycles), tasks
      ensures Valid() && accepted == Accepted(old(View()), Op.StartTask(index))
      ensures View() == Apply(old(View()), Op.StartTask(index))
    {
      hide CycleViews, TaskViews, Persisted, Valid;
      TaskViewsAre(tasks);
      if index < 0 || index >= |tasks| { return false; }
      var target := tasks[index];
      if target.status.Completed? || target.status.Deleted? { return false; }
      BeginTask(index);
      return true;
    }

    method BeginTask(index: nat)
      requires Valid() && index < |tasks| == |TaskViews(tasks)|
      modifies this`saved, ActiveOf(cycles), tasks
      ensures Valid()
      ensures View() == Persisted(old(View()).(tasks := Started(old(TaskViews(tasks)), index)))
    {
      hide CycleViews, TaskViews, Persisted, AtMostOneActive, Started;
      ghost var before := View();
      LiveTasksAreOnlyLive();
      MarkActive(index);
      TouchedIsReplaced(this);
      PersistStatuses(before, TaskViews(tasks));
    }

    method SetStatus(index: nat, status: Status)
      requires Valid() && index < |tasks| == |TaskViews(tasks)|
      modifies this`saved, ActiveOf(cycles), tasks[index]
      ensures Valid()
      ensures View() == Persisted(old(View()).(tasks := old(TaskViews(tasks))[index := old(TaskViews(tasks))[index].(status := status)]))
    {
      hide CycleViews, TaskViews, Persisted, AtMostOneActive;
      ghost var before, was := View(), TaskViews(tasks);
      TaskViewsAre(tasks);
      LiveTaskIsOnlyLive(index);
      tasks[index].status := status;
      TaskViewsAre(tasks);
      assert TaskViews(tasks) == was[index := was[index].(status := status)];
      TouchedIsReplaced(this);
      PersistStatuses(before, TaskViews(tasks));
    }
  }

  twostate lemma {:induction false} OldCycleViewsAre(cycles: seq<Cycle>)
    ensures |old(CycleViews(cycles))| == |cycles|
    ensures forall i :: 0 <= i < |cycles| ==> old(CycleViews(cycles))[i] == old(cycles[i].View())
  {
    if |cycles| > 0 { OldCycleViewsAre(cycles[..|cycles| - 1]); }
  }

  /** With the cycle objects as they were, views differ at most in the tasks, and only where those were
      touched. */
  twostate lemma CycleStays(c: Cycle)
    requires unchanged(c)
    ensures c.View() == old(c.View()).(tasks := TaskViews(c.tasks))
    ensures (forall i :: 0 <= i < |c.tasks| ==> unchanged(c.tasks[i])) ==> c.View() == old(c.View())
  {
    if forall i :: 0 <= i < |c.tasks| ==> unchanged(c.tasks[i]) { TaskViewsStay(c.tasks); }
  }

  twostate lemma {:induction false} TaskViewsStay(tasks: seq<Task>)
    requires forall i :: 0 <= i < |tasks| ==> unchanged(tasks[i])
    ensures TaskViews(tasks) == old(TaskViews(tasks))
  {
    if |tasks| > 0 { TaskViewsStay(tasks[..|tasks| - 1]); }
  }

  /** Replacing the tasks of the active cycle is all that persisting does to the cycles. */
  lemma PersistedAlike(s: State, r: State, k: nat)
    requires k == FindActive(s.cycles) && |r.cycles| == |s.cycles| && s.tasks == r.tasks && s.goal == r.goal
    requires forall i :: 0 <= i < |s.cycles| ==>
               r.cycles[i] == (if i == k then s.cycles[i].(tasks := r.cycles[i].tasks) else s.cycles[i])
    ensures Persisted(s) == Persisted(r)
  {
    FindActiveIs(r.cycles, k);
    hide FindActive;
  }

  /** Statuses of live tasks have changed; persisting comes to the same as if the live list had been
      replaced by one with the new statuses. */
  twostate lemma TouchedIsReplaced(rt: Runtime)
    requires unchanged(rt) && forall i :: 0 <= i < |rt.cycles| ==> unchanged(rt.cycles[i])
    requires forall i, j :: 0 <= i < |rt.cycles| && !rt.cycles[i].active && 0 <= j < |rt.cycles[i].tasks| ==>
               unchanged(rt.cycles[i].tasks[j])
    requires AtMostOneActive(rt.cycles)
    ensures Persisted(rt.View()) == Persisted(old(rt.View()).(tasks := TaskViews(rt.tasks)))
  {
    var cycles := rt.cycles;
    CycleViewsAre(cycles);
    OldCycleViewsAre(cycles);
    var k := ActiveIndex(cycles);
    FindActiveIs(old(CycleViews(cycles)), k);
    hide CycleViews, TaskViews, FindActive;
    forall i | 0 <= i < |cycles|
      ensures CycleViews(cycles)[i] == (if i == k then old(CycleViews(cycles))[i].(tasks := CycleViews(cycles)[i].tasks)
                                        else old(CycleViews(cycles))[i])
    {
      CycleStays(cycles[i]);
    }
    PersistedAlike(old(rt.View()).(tasks := TaskViews(rt.tasks)), rt.View(), k);
  }

  twostate lemma RuntimeStays(rt: Runtime)
    requires unchanged(rt) && forall i :: 0 <= i < |rt.cycles| ==> unchanged(rt.cycles[i])
    requires forall t :: t in TasksOf(rt.cycles) ==> unchanged(t)
    requires forall i :: 0 <= i < |rt.tasks| ==> unchanged(rt.tasks[i])
    ensures rt.View() == old(rt.View())
  {
    ViewsStay(rt.cycles);
    TaskViewsStay(rt.tasks);
  }
}
