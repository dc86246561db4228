/** The repository status tracker: an asynchronous cache of one pull-request lookup that has to agree
    with the current directory and branch, whatever order targets, HEAD files, timers and answers
    arrive in. */
module StatusTracker {
  import opened Prelude

  datatype PullRequest = PullRequest(number: int, url: string, state: string, isDraft: bool)

  // ----- Branch names and keys -----

  predicate IsControl(c: char) {
    c as int < 0x20 || c as int == 0x7f
  }

  /** A branch name fit for display; anything with a control character is dropped. */
  function SafeBranchName(branch: Option<string>): (safe: Option<string>)
    ensures safe.Some? ==> safe.value != "" && forall c :: c in safe.value ==> !IsControl(c)
  {
    if branch.None? || branch.value == "" || exists c :: c in branch.value && IsControl(c) then None else branch
  }

  const HEAD_REF := "ref: refs/heads/"

  /** The branch a HEAD file names; `content` is its trimmed text, None when it cannot be read. */
  function BranchFromHead(content: Option<string>): Option<string> {
    if content.None? then None
    else if HEAD_REF <= content.value then SafeBranchName(Some(content.value[|HEAD_REF|..]))
    else Some("detached")
  }

  function OrElse(a: Option<string>, b: Option<string>): Option<string> {
    if a.Some? then a else b
  }

  function JoinKey(directory: string, branch: string): string {
    directory + "\0" + branch
  }

  function KeyOf(target: Option<string>, branch: Option<string>): Option<string> {
    if target.Some? && target.value != "" && branch.Some? && branch.value != "detached"
    then Some(JoinKey(target.value, branch.value))
    else None
  }

  // ----- The machine -----

  datatype Flight = Flight(directory: string, key: string, aborted: bool)

  datatype Tracker = Tracker(
    target: Option<string>,
    fallback: Option<string>,
    branchCache: Option<string>,
    pullRequest: Option<PullRequest>,
    key: Option<string>,
    active: Option<nat>,
    generation: nat,
    pending: bool,
    disposed: bool,
    flights: map<nat, Flight>,     // every lookup not answered yet, by generation
    source: Option<Flight>)        // the lookup the shown pull request came from

  const START := Tracker(None, None, None, None, None, None, 0, false, false, map[], None)

  datatype Event =
    | SyncTarget(directory: string, fallback: Option<string>, head: Option<string>)
    | HeadChanged(directory: string, head: Option<string>)
    | Refresh
    | Answered(generation: nat, result: Option<PullRequest>)
    | Dispose

  function BranchOf(s: Tracker): Option<string> {
    SafeBranchName(OrElse(s.branchCache, s.fallback))
  }

  function Refreshed(s: Tracker): Tracker {
    if s.disposed || s.target.None? || s.target.value == "" || s.key.None? then s
    else if s.active.Some? then s.(pending := true)
    else
      var g := s.generation + 1;
      s.(generation := g, active := Some(g), flights := s.flights[g := Flight(s.target.value, s.key.value, false)])
  }

  function Abort(flights: map<nat, Flight>, active: Option<nat>): map<nat, Flight> {
    if active.Some? && active.value in flights
    then flights[active.value := flights[active.value].(aborted := true)]
    else flights
  }

  function Cancelled(s: Tracker): Tracker {
    s.(generation := s.generation + 1, flights := Abort(s.flights, s.active), active := None, pending := false)
  }

  function Retargeted(s: Tracker): Tracker {
    var next := KeyOf(s.target, BranchOf(s));
    if next == s.key then s
    else Refreshed(Cancelled(s).(key := next, pullRequest := None, source := None))
  }

  function Landed(s: Tracker, generation: nat): Tracker {
    s.(flights := s.flights - {generation})
  }

  function Shown(s: Tracker, flight: Flight, generation: nat, result: Option<PullRequest>): Tracker {
    if result.Some? && !s.disposed && generation == s.generation && s.key == Some(flight.key)
    then s.(pullRequest := result, source := Some(flight))
    else s
  }

  /** The lookup slot is free again; one refresh requested meanwhile is carried out. */
  function Finished(s: Tracker, generation: nat): Tracker {
    if s.active != Some(generation) then s
    else if s.pending then Refreshed(s.(active := None, pending := false))
    else s.(active := None)
  }

  predicate Enabled(s: Tracker, e: Event) {
    match e
    case Answered(generation, _) => generation in s.flights
    case SyncTarget(directory, _, _) => directory != ""
    case _ => true
  }

  function Step(s: Tracker, e: Event): Tracker
    requires Enabled(s, e)
  {
    match e
    case SyncTarget(directory, fallback, head) =>
      if s.disposed then s
      else if Some(directory) != s.target then
        Retargeted(s.(fallback := fallback, target := Some(directory), branchCache := BranchFromHead(head)))
      else Retargeted(s.(fallback := fallback))
    case HeadChanged(directory, head) =>
      if s.target != Some(directory) then s else Retargeted(s.(branchCache := BranchFromHead(head)))
    case Refresh => Refreshed(s)
    case Answered(generation, result) =>
      Finished(Shown(Landed(s, generation), s.flights[generation], generation, result), generation)
    case Dispose =>
      if s.disposed then s
      else Cancelled(s).(disposed := true, target := None, fallback := None, branchCache := None,
                         pullRequest := None, key := None, source := None)
  }

  predicate Run(events: seq<Event>)
    decreases |events|, 0
  {
    |events| == 0 || (Run(Front(events)) && Enabled(After(Front(events)), events[|events| - 1]))
  }

  function After(events: seq<Event>): Tracker
    requires Run(events)
    decreases |events|, 1
  {
    if |events| == 0 then START else Step(After(Front(events)), events[|events| - 1])
  }

  // ----- What every run keeps -----

  /** Only the active lookup is not aborted, and it carries the latest generation and the current key. */
  ghost predicate OneLookup(s: Tracker) {
    && (forall g :: g in s.flights && s.active != Some(g) ==> s.flights[g].aborted && g < s.generation)
    && (s.active.Some? ==>
          && s.active.value in s.flights
          && s.active.value == s.generation
          && s.key.Some? && s.target.Some?
          && s.flights[s.active.value] == Flight(s.target.value, s.key.value, false))
  }

  predicate KeyAgrees(s: Tracker) {
    && s.key == KeyOf(s.target, BranchOf(s))
    && s.target != Some("")
    && (s.disposed ==> s.target.None? && s.active.None?)
  }

  predicate ShownFromKey(s: Tracker) {
    s.pullRequest.Some? ==> s.source.Some? && s.key == Some(s.source.value.key)
  }

  ghost predicate Invariant(s: Tracker) {
    OneLookup(s) && KeyAgrees(s) && ShownFromKey(s) && (s.pending ==> s.active.Some?)
  }

  lemma RefreshedKeeps(s: Tracker)
    requires Invariant(s)
    ensures Invariant(Refreshed(s))
  {
    hide KeyOf, BranchOf;
    assert BranchOf(Refreshed(s)) == BranchOf(s) by { SameBranch(s, Refreshed(s)); }
  }

  lemma SameBranch(s: Tracker, t: Tracker)
    requires s.branchCache == t.branchCache && s.fallback == t.fallback
    ensures BranchOf(s) == BranchOf(t)
  {
  }

  /** Everything but the agreement of the key, which a change of target may have broken. */
  ghost predicate Consistent(s: Tracker) {
    && (forall g :: g in s.flights ==> g <= s.generation)
    && (forall g :: g in s.flights && !s.flights[g].aborted ==> s.active == Some(g))
    && !s.disposed
  }

  lemma RetargetedKeeps(s: Tracker)
    requires Consistent(s) && s.target != Some("") && (s.key == KeyOf(s.target, BranchOf(s)) ==> Invariant(s))
    ensures Invariant(Retargeted(s))
  {
    var next := KeyOf(s.target, BranchOf(s));
    if next != s.key {
      var t := Cancelled(s).(key := next, pullRequest := None, source := None);
      SameBranch(s, t);
      hide KeyOf, BranchOf;
      RefreshedKeeps(t);
    }
  }

  /** The key tells directories apart: a lookup for the old directory never fits the new one. */
  lemma ActiveFitsTarget(s: Tracker, t: Tracker)
    requires Invariant(s) && !s.disposed
    requires t == s.(target := t.target, fallback := t.fallback, branchCache := t.branchCache) && t.target != Some("")
    requires t.key == KeyOf(t.target, BranchOf(t))
    ensures Invariant(t)
  {
    if s.key.Some? { KeysAreFaithful(s.target.value, BranchOf(s).value, t.target.value, BranchOf(t).value); }
    hide BranchOf;
  }

  /** A key determines the directory and the branch it was made of. */
  lemma KeysAreFaithful(d: string, b: string, e: string, c: string)
    requires '\0' !in b && '\0' !in c
    ensures JoinKey(d, b) == JoinKey(e, c) <==> d == e && b == c
  {
    if JoinKey(d, b) == JoinKey(e, c) {
      var k := JoinKey(d, b);
      assert k[|d|] == '\0' && k[|e|] == '\0';
      assert forall i :: |d| < i < |k| ==> k[i] == b[i - |d| - 1];
      assert forall i :: |e| < i < |k| ==> k[i] == c[i - |e| - 1];
      assert k[..|d|] == d && k[..|e|] == e;
      assert k[|d| + 1..] == b && k[|e| + 1..] == c;
    }
  }

  lemma TargetChangeKeeps(s: Tracker, t: Tracker)
    requires Invariant(s) && !s.disposed
    requires t == s.(target := t.target, fallback := t.fallback, branchCache := t.branchCache) && t.target != Some("")
    ensures Invariant(Retargeted(t))
  {
    if t.key == KeyOf(t.target, BranchOf(t)) { ActiveFitsTarget(s, t); }
    hide KeyOf, BranchOf, Retargeted;
    RetargetedKeeps(t);
  }

  lemma AnsweredKeeps(s: Tracker, generation: nat, result: Option<PullRequest>)
    requires Invariant(s) && generation in s.flights
    ensures Invariant(Step(s, Answered(generation, result)))
  {
    hide KeyOf, BranchOf;
    var shown := Shown(Landed(s, generation), s.flights[generation], generation, result);
    SameBranch(s, shown);
    if s.active == Some(generation) {
      var free := shown.(active := None, pending := false);
      SameBranch(s, free);
      RefreshedKeeps(free);
    }
  }

  lemma DisposeKeeps(s: Tracker)
    requires Invariant(s)
    ensures Invariant(Step(s, Dispose))
  {
  }

  lemma StepKeeps(s: Tracker, e: Event)
    requires Invariant(s) && Enabled(s, e)
    ensures Invariant(Step(s, e))
  {
    hide Retargeted, Refreshed, Finished, Shown, Cancelled;
    match e
    case SyncTarget(directory, fallback, head) =>
      if !s.disposed {
        if Some(directory) != s.target {
          TargetChangeKeeps(s, s.(fallback := fallback, target := Some(directory), branchCache := BranchFromHead(head)));
        } else {
          TargetChangeKeeps(s, s.(fallback := fallback));
        }
      }
    case HeadChanged(directory, head) =>
      if s.target == Some(directory) { TargetChangeKeeps(s, s.(branchCache := BranchFromHead(head))); }
    case Refresh =>
      RefreshedKeeps(s);
    case Answered(generation, result) =>
      AnsweredKeeps(s, generation, result);
    case Dispose =>
      DisposeKeeps(s);
  }

  /** In every reachable state at most one lookup is not aborted and it carries the latest generation
      and the current key; a pending refresh goes with an active lookup; the key is the one recomputed
      from directory and branch; and a shown pull request came from a lookup for that key. */
  lemma {:induction false} EveryRunKeepsInvariant(events: seq<Event>)
    requires Run(events)
    ensures OneLookup(After(events)) && KeyAgrees(After(events)) && ShownFromKey(After(events))
    ensures After(events).pending ==> After(events).active.Some?
    decreases |events|
  {
    if |events| > 0 {
      EveryRunKeepsInvariant(Front(events));
      StepKeeps(After(Front(events)), events[|events| - 1]);
    }
  }

  // ----- What single events do -----

  /** Refreshes requested while a lookup is under way start nothing of their own. */
  lemma RefreshesCoalesce(s: Tracker)
    requires Invariant(s) && s.active.Some?
    ensures Step(s, Refresh).flights == s.flights && Step(Step(s, Refresh), Refresh) == Step(s, Refresh)
    ensures Step(s, Refresh).pending
  {
  }

  /** Once the active lookup is answered, a pending refresh becomes exactly one new lookup, for the
      current directory and key; without one the slot stays free. */
  lemma OneFollowUp(s: Tracker, result: Option<PullRequest>)
    requires Invariant(s) && s.active.Some?
    ensures var g := s.active.value;
            var t := Step(s, Answered(g, result));
            && !t.pending
            && t.flights == (s.flights - {g}) + (if s.pending then map[g + 1 := Flight(s.target.value, s.key.value, false)] else map[])
            && t.active == (if s.pending then Some(g + 1) else None)
  {
    hide KeyOf, BranchOf;
    var g := s.active.value;
    var t := Step(s, Answered(g, result));
    if s.pending {
      assert t.flights == (s.flights - {g})[g + 1 := Flight(s.target.value, s.key.value, false)];
    }
  }

  /** Answers to lookups other than the active one change nothing but the list of lookups under way. */
  lemma StaleAnswersAreIgnored(s: Tracker, generation: nat, result: Option<PullRequest>)
    requires Invariant(s) && generation in s.flights && s.active != Some(generation)
    ensures Step(s, Answered(generation, result)) == Landed(s, generation)
  {
  }

  // ----- What is shown -----

  /** The answer to the active lookup is shown: a pull request as it was found, none as what was shown before. */
  lemma ActiveAnswerIsShown(s: Tracker, result: Option<PullRequest>)
    requires Invariant(s) && s.active.Some?
    ensures var g := s.active.value;
            var t := Step(s, Answered(g, result));
            && t.pullRequest == (if result.Some? then result else s.pullRequest)
            && t.source == (if result.Some? then Some(s.flights[g]) else s.source)
            && t.key == s.key && t.target == s.target && BranchOf(t) == BranchOf(s)
  {
    hide KeyOf;
  }

  /** A branch fit for display is one that is not empty and has no control character. */
  predicate FitForDisplay(branch: string) {
    branch != "" && forall c :: c in branch ==> !(c < ' ') && c as int != 0x7f
  }

  lemma SafeBranchIs(branch: Option<string>)
    ensures SafeBranchName(branch) == if branch.Some? && FitForDisplay(branch.value) then branch else None
  {
  }

  /** What a HEAD file shows: the branch it names, `detached` for any other text, and the fallback branch when it
      cannot be read or names none that is fit for display. */
  function Displayed(head: Option<string>, fallback: Option<string>): Option<string> {
    var other := if fallback.Some? && FitForDisplay(fallback.value) then fallback else None;
    if head.None? then other
    else if !(HEAD_REF <= head.value) then Some("detached")
    else if FitForDisplay(head.value[|HEAD_REF|..]) then Some(head.value[|HEAD_REF|..])
    else other
  }

  lemma DetachedIsFit()
    ensures FitForDisplay("detached")
  {
  }

  lemma ShownFromHead(s: Tracker, head: Option<string>)
    requires s.branchCache == BranchFromHead(head)
    ensures BranchOf(s) == Displayed(head, s.fallback)
  {
    DetachedIsFit();
    SafeBranchIs(s.fallback);
    SafeBranchIs(s.branchCache);
    if head.Some? && HEAD_REF <= head.value { SafeBranchIs(Some(head.value[|HEAD_REF|..])); }
    hide SafeBranchName, FitForDisplay;
  }

  /** On a new directory the shown branch is the one its HEAD names, and a lookup for exactly that directory and
      branch is under way, unless there is no branch to look up. */
  lemma NewTargetIsLookedUp(s: Tracker, directory: string, fallback: Option<string>, head: Option<string>)
    requires Invariant(s) && !s.disposed && directory != "" && s.target != Some(directory)
    ensures var t, branch := Step(s, SyncTarget(directory, fallback, head)), Displayed(head, fallback);
            && t.target == Some(directory) && BranchOf(t) == branch
            && (if branch.Some? && branch.value != "detached" then LooksUp(t, directory, branch.value)
                else t.key.None? && t.active.None? && t.pullRequest.None?)
  {
    var u := s.(fallback := fallback, target := Some(directory), branchCache := BranchFromHead(head));
    ShownFromHead(u, head);
    SameBranch(u, Retargeted(u));
    if s.key.Some? && s.key == KeyOf(u.target, BranchOf(u)) {
      KeysAreFaithful(s.target.value, BranchOf(s).value, directory, BranchOf(u).value);
    }
    hide BranchOf, Displayed, BranchFromHead;
  }

  /** The lookup under way is for this directory and branch, and nothing is shown until it is answered. */
  ghost predicate LooksUp(t: Tracker, directory: string, branch: string) {
    && t.key == Some(directory + "\0" + branch)
    && t.active.Some? && t.active.value in t.flights
    && t.flights[t.active.value] == Flight(directory, directory + "\0" + branch, false)
    && t.pullRequest.None?
  }

  /** A change of HEAD in the directory watched: another branch is looked up at once, the same one keeps what is
      shown and whatever is under way. */
  lemma NewHeadIsLookedUp(s: Tracker, directory: string, head: Option<string>)
    requires Invariant(s) && !s.disposed && s.target == Some(directory)
    ensures var t, branch := Step(s, HeadChanged(directory, head)), Displayed(head, s.fallback);
            && t.target == s.target && BranchOf(t) == branch
            && (if branch == BranchOf(s) then t == s.(branchCache := t.branchCache)
                else if branch.Some? && branch.value != "detached" then LooksUp(t, directory, branch.value)
                else t.key.None? && t.active.None? && t.pullRequest.None?)
  {
    var u := s.(branchCache := BranchFromHead(head));
    ShownFromHead(u, head);
    SameBranch(u, Retargeted(u));
    if s.key.Some? && s.key == KeyOf(u.target, BranchOf(u)) {
      KeysAreFaithful(directory, BranchOf(s).value, directory, BranchOf(u).value);
    }
    hide BranchOf, Displayed, BranchFromHead;
  }

  /** Told about the directory watched already, the tracker only takes over the fallback, which is the branch as long
      as HEAD named none. */
  lemma SameTargetFollowsFallback(s: Tracker, directory: string, fallback: Option<string>, head: Option<string>)
    requires Invariant(s) && !s.disposed && directory != "" && s.target == Some(directory)
    ensures var t := Step(s, SyncTarget(directory, fallback, head));
            var branch := if s.branchCache.Some? then BranchOf(s) else Displayed(None, fallback);
            && t.target == s.target && t.branchCache == s.branchCache && BranchOf(t) == branch
            && (if branch == BranchOf(s) then t == s.(fallback := fallback)
                else if branch.Some? && branch.value != "detached" then LooksUp(t, directory, branch.value)
                else t.key.None? && t.active.None? && t.pullRequest.None?)
  {
    var u := s.(fallback := fallback);
    SameBranch(u, Retargeted(u));
    if s.branchCache.None? { ShownFromHead(u, None); }
    if s.key.Some? && s.key == KeyOf(u.target, BranchOf(u)) {
      KeysAreFaithful(directory, BranchOf(s).value, directory, BranchOf(u).value);
    }
    hide Displayed, BranchFromHead, SafeBranchName;
  }

  /** A refresh without a lookup under way starts one for the current directory and branch. */
  lemma RefreshLooksUp(s: Tracker)
    requires Invariant(s) && s.key.Some? && s.active.None?
    ensures var t := Step(s, Refresh);
            && t.active == Some(s.generation + 1) && !t.pending && t.pullRequest == s.pullRequest && t.key == s.key
            && t.flights == s.flights[s.generation + 1 := Flight(s.target.value, s.key.value, false)]
  {
    hide BranchOf;
  }

  /** Once closed the tracker shows nothing, looks nothing up and has given up every lookup still under way; and no
      event changes that. */
  lemma ClosedStaysQuiet(s: Tracker, e: Event)
    requires Invariant(s) && Enabled(s, e) && (s.disposed || e.Dispose?)
    ensures var t := Step(s, e);
            && t.disposed && t.target.None? && t.pullRequest.None? && t.active.None? && !t.pending
            && (forall g :: g in t.flights ==> t.flights[g].aborted) && t.flights.Keys <= s.flights.Keys
  {
    StepKeeps(s, e);
    var t := Step(s, e);
    assert t.disposed;
    hide BranchOf, Retargeted;
  }
}
