/** Connection takeover in the hub: every websocket handler as a sequence of atomic segments.

    A segment is what a handler runs between two suspension points. `Step` says what each segment
    does to the registry and to its handler; a run is any interleaving of the segments of any
    number of handlers, with pongs, store outcomes, timeouts and reaper completions chosen freely. */
module HubProtocol {
  import opened Prelude
  import opened HubRegistry

  datatype Phase =
    | Received                                // a register frame was parsed, nothing looked up yet
    | Probing(observed: nat, nonce: Nonce)    // awaiting the incumbent's pong
    | Closing(observed: nat)                  // probe failed, closing the incumbent
    | Upserting                               // claim landed, awaiting the store
    | Replying                                // sending the `registered` frame
    | Serving                                 // reply sent, predecessor's reaper cancelled
    | Leaving(served: bool)                   // body left, cancelling reply tasks before the cleanup
    | Touching                                // own entry removed, awaiting the recency write
    | Finished

  datatype Handler = Handler(node: NodeId, generation: Option<nat>, phase: Phase)

  datatype Hub = Hub(
    tables: Tables,
    handlers: map<SocketId, Handler>,
    nonces: map<Nonce, SocketId>,     // every nonce drawn so far, with the handler that drew it
    tasks: map<ReaperId, NodeId>)     // every reaper scheduled so far, with its node

  datatype Event =
    | Connect(h: SocketId, node: NodeId)
    | Refuse(h: SocketId)                     // the first frame was no acceptable register frame
    | Register(h: SocketId, nonce: Nonce)
    | ProbeAnswered(h: SocketId)
    | ProbeFailed(h: SocketId)                // send failure or timeout
    | Cancelled(h: SocketId)                  // cancelled while probing or closing the incumbent
    | Claim(h: SocketId)
    | Upserted(h: SocketId)
    | DuplicateHandle(h: SocketId)
    | UpsertFailed(h: SocketId)
    | Replied(h: SocketId)
    | ReplyFailed(h: SocketId)
    | Pong(h: SocketId, nonce: Nonce)
    | Leave(h: SocketId)
    | CleanUp(h: SocketId)
    | Touched(h: SocketId, task: ReaperId)    // the recency write ended, well or badly
    | ReaperEnds(task: ReaperId)
    | ReaperCallback(task: ReaperId)

  const START := Hub(EMPTY, map[], map[], map[])

  function PhaseOf(s: Hub, h: SocketId): Phase {
    if h in s.handlers then s.handlers[h].phase else Finished
  }

  function Move(s: Hub, h: SocketId, phase: Phase): Hub
    requires h in s.handlers
  {
    s.(handlers := s.handlers[h := s.handlers[h].(phase := phase)])
  }

  /** The compare-and-set of `claim_connection` and the branch on its result. */
  function TryClaim(s: Hub, h: SocketId, replacing: Option<nat>): Hub
    requires h in s.handlers
  {
    var handler := s.handlers[h];
    if s.tables.GenerationOf(handler.node) == replacing then
      var tables := s.tables.SetConnection(handler.node, h);
      s.(tables := tables,
         handlers := s.handlers[h := Handler(handler.node, Some(tables.nextGeneration), Upserting)])
    else
      Move(s, h, Finished)
  }

  /** The guarded `remove_connection` of handler `h`'s own generation. */
  function DropOwn(s: Hub, h: SocketId): Hub
    requires h in s.handlers && s.handlers[h].generation.Some?
  {
    s.(tables := s.tables.RemoveConnection(s.handlers[h].node, s.handlers[h].generation.value))
  }

  predicate HoldsOwn(s: Hub, h: SocketId)
    requires h in s.handlers
  {
    s.handlers[h].generation.Some? && s.tables.GenerationOf(s.handlers[h].node) == s.handlers[h].generation
  }

  predicate Enabled(s: Hub, e: Event) {
    match e
    case Connect(h, _) => h !in s.handlers
    case Refuse(h) => PhaseOf(s, h) == Received
    case Register(h, nonce) => PhaseOf(s, h) == Received && nonce !in s.nonces
    case ProbeAnswered(h) =>
      && PhaseOf(s, h).Probing?
      && Lookup(s.tables.probes, (s.handlers[h].node, PhaseOf(s, h).nonce)) == Some(Answered)
    case ProbeFailed(h) => PhaseOf(s, h).Probing?
    case Cancelled(h) => PhaseOf(s, h).Probing? || PhaseOf(s, h).Closing?
    case Claim(h) => PhaseOf(s, h).Closing?
    case Upserted(h) => PhaseOf(s, h) == Upserting
    case DuplicateHandle(h) => PhaseOf(s, h) == Upserting && s.handlers[h].generation.Some?
    case UpsertFailed(h) => PhaseOf(s, h) == Upserting
    case Replied(h) => PhaseOf(s, h) == Replying
    case ReplyFailed(h) => PhaseOf(s, h) == Replying
    case Pong(h, _) => PhaseOf(s, h) == Serving
    case Leave(h) => PhaseOf(s, h) == Serving
    case CleanUp(h) => PhaseOf(s, h).Leaving? && s.handlers[h].generation.Some?
    case Touched(h, task) => PhaseOf(s, h) == Touching && task !in s.tasks
    case ReaperEnds(task) => task in s.tables.live
    case ReaperCallback(task) => task in s.tasks && task !in s.tables.live
  }

  function Step(s: Hub, e: Event): Hub
    requires Enabled(s, e)
  {
    match e
    case Connect(h, node) => s.(handlers := s.handlers[h := Handler(node, None, Received)])
    case Refuse(h) => Move(s, h, Finished)
    case Register(h, nonce) =>
      var node := s.handlers[h].node;
      var incumbent := s.tables.GenerationOf(node);
      if incumbent.None? then TryClaim(s, h, None)
      else Move(s, h, Probing(incumbent.value, nonce)).(tables := s.tables.OpenProbe(node, nonce),
                                                        nonces := s.nonces[nonce := h])
    case ProbeAnswered(h) =>
      Move(s, h, Finished).(tables := s.tables.CloseProbe(s.handlers[h].node, PhaseOf(s, h).nonce))
    case ProbeFailed(h) =>
      Move(s, h, Closing(PhaseOf(s, h).observed)).(tables := s.tables.CloseProbe(s.handlers[h].node, PhaseOf(s, h).nonce))
    case Cancelled(h) =>
      if PhaseOf(s, h).Probing? then
        Move(s, h, Finished).(tables := s.tables.CloseProbe(s.handlers[h].node, PhaseOf(s, h).nonce))
      else
        Move(s, h, Finished)
    case Claim(h) => TryClaim(s, h, Some(PhaseOf(s, h).observed))
    case Upserted(h) => Move(s, h, Replying)
    case DuplicateHandle(h) => Move(DropOwn(s, h), h, Leaving(false))
    case UpsertFailed(h) => Move(s, h, Leaving(false))
    case Replied(h) => Move(s, h, Serving).(tables := s.tables.CancelReaper(s.handlers[h].node))
    case ReplyFailed(h) => Move(s, h, Leaving(false))
    case Pong(h, nonce) => s.(tables := s.tables.ResolveProbe(s.handlers[h].node, nonce))
    case Leave(h) => Move(s, h, Leaving(true))
    case CleanUp(h) => if HoldsOwn(s, h) then Move(DropOwn(s, h), h, Touching) else Move(s, h, Finished)
    case Touched(h, task) =>
      var node := s.handlers[h].node;
      if node in s.tables.connections then Move(s, h, Finished)
      else Move(s, h, Finished).(tables := s.tables.SetReaper(node, task), tasks := s.tasks[task := node])
    case ReaperEnds(task) => s.(tables := s.tables.(live := s.tables.live - {task}))
    case ReaperCallback(task) => s.(tables := s.tables.DiscardReaper(s.tasks[task], task))
  }

  /** A run is a list of events, each enabled where it happens. */
  predicate Run(events: seq<Event>)
    decreases |events|, 0
  {
    |events| == 0 || (Run(Front(events)) && Enabled(After(Front(events)), events[|events| - 1]))
  }

  function After(events: seq<Event>): Hub
    requires Run(events)
    decreases |events|, 1
  {
    if |events| == 0 then START else Step(After(Front(events)), events[|events| - 1])
  }

  // ----- What every interleaving keeps -----

  /** Phases in which a handler may still be the registered owner of its node. */
  predicate Owning(phase: Phase) {
    phase.Upserting? || phase.Replying? || phase.Serving? || phase.Leaving?
  }

  predicate Unclaimed(phase: Phase) {
    phase.Received? || phase.Probing? || phase.Closing?
  }

  type Handlers = map<SocketId, Handler>
  type Connections = map<NodeId, Connection>

  ghost predicate EntriesHaveOwners(connections: Connections, handlers: Handlers) {
    forall node :: node in connections ==>
      && connections[node].socket in handlers
      && handlers[connections[node].socket].node == node
      && handlers[connections[node].socket].generation == Some(connections[node].generation)
      && Owning(handlers[connections[node].socket].phase)
  }

  ghost predicate GenerationsIssuedOnce(nextGeneration: nat, handlers: Handlers) {
    && (forall h :: h in handlers && handlers[h].generation.Some? ==>
          1 <= handlers[h].generation.value <= nextGeneration)
    && (forall h, k :: h in handlers && k in handlers && h != k && handlers[h].generation.Some? ==>
          handlers[h].generation != handlers[k].generation)
  }

  ghost predicate PhasesFit(nextGeneration: nat, connections: Connections, handlers: Handlers) {
    forall h :: h in handlers ==>
      && (Unclaimed(handlers[h].phase) ==> handlers[h].generation.None?)
      && (Owning(handlers[h].phase) ==> handlers[h].generation.Some?)
      && (handlers[h].phase.Probing? ==> 1 <= handlers[h].phase.observed <= nextGeneration)
      && (handlers[h].phase.Closing? ==> 1 <= handlers[h].phase.observed <= nextGeneration)
  }

  ghost predicate ProbesBelongToProbers(
    probes: map<(NodeId, Nonce), Probe>, nonces: map<Nonce, SocketId>, handlers: Handlers)
  {
    && (forall key :: key in probes ==>
          && key.1 in nonces
          && nonces[key.1] in handlers
          && handlers[nonces[key.1]].node == key.0
          && handlers[nonces[key.1]].phase.Probing?
          && handlers[nonces[key.1]].phase.nonce == key.1)
    && (forall h :: h in handlers && handlers[h].phase.Probing? ==>
          && handlers[h].phase.nonce in nonces
          && nonces[handlers[h].phase.nonce] == h
          && (handlers[h].node, handlers[h].phase.nonce) in probes)
  }

  ghost predicate ReapersKnown(reapers: map<NodeId, ReaperId>, live: set<ReaperId>, tasks: map<ReaperId, NodeId>) {
    && (forall task :: task in live ==>
          task in tasks && tasks[task] in reapers && reapers[tasks[task]] == task)
    && (forall node :: node in reapers ==> reapers[node] in tasks && tasks[reapers[node]] == node)
  }

  ghost predicate ServedNodesSpared(connections: Connections, handlers: Handlers, reapers: map<NodeId, ReaperId>) {
    forall node :: node in connections && connections[node].socket in handlers
                   && PastReply(handlers[connections[node].socket].phase) ==>
      node !in reapers
  }

  predicate PastReply(phase: Phase) {
    phase.Serving? || (phase.Leaving? && phase.served)
  }

  ghost predicate Invariant(s: Hub) {
    && EntriesHaveOwners(s.tables.connections, s.handlers)
    && GenerationsIssuedOnce(s.tables.nextGeneration, s.handlers)
    && PhasesFit(s.tables.nextGeneration, s.tables.connections, s.handlers)
    && ProbesBelongToProbers(s.tables.probes, s.nonces, s.handlers)
    && ReapersKnown(s.tables.reapers, s.tables.live, s.tasks)
    && ServedNodesSpared(s.tables.connections, s.handlers, s.tables.reapers)
  }

  // One lemma for each kind of segment and each part of the invariant it can disturb.

  lemma ConnectKeeps(s: Hub, h: SocketId, node: NodeId)
    requires Invariant(s) && Enabled(s, Connect(h, node))
    ensures Invariant(Step(s, Connect(h, node)))
  {
  }

  /** A move between phases that neither probes nor gives up an entry still held. */
  lemma MoveKeeps(s: Hub, h: SocketId, phase: Phase)
    requires Invariant(s) && h in s.handlers
    requires !s.handlers[h].phase.Probing? && !Unclaimed(phase)
    requires Owning(phase) ==> s.handlers[h].generation.Some?
    requires HoldsOwn(s, h) ==> Owning(phase)
    requires PastReply(phase) ==> PastReply(s.handlers[h].phase)
    ensures Invariant(Move(s, h, phase))
  {
    ProbesIgnoreOwners(s, h, phase, Move(s, h, phase));
    MoveKeepsOwners(s, h, phase);
    hide EntriesHaveOwners, ServedNodesSpared, ProbesBelongToProbers, ReapersKnown;
  }

  lemma MoveKeepsOwners(s: Hub, h: SocketId, phase: Phase)
    requires Invariant(s) && h in s.handlers && (HoldsOwn(s, h) ==> Owning(phase))
    requires PastReply(phase) ==> PastReply(s.handlers[h].phase)
    ensures EntriesHaveOwners(s.tables.connections, Move(s, h, phase).handlers)
    ensures ServedNodesSpared(s.tables.connections, Move(s, h, phase).handlers, s.tables.reapers)
  {
    hide GenerationsIssuedOnce, PhasesFit, ProbesBelongToProbers, ReapersKnown;
  }

  lemma LandedClaimOwns(s: Hub, h: SocketId, t: Hub)
    requires Invariant(s) && h in s.handlers
    requires s.handlers[h].phase.Received? || s.handlers[h].phase.Closing?
    requires t == TryClaim(s, h, s.tables.GenerationOf(s.handlers[h].node))
    ensures EntriesHaveOwners(t.tables.connections, t.handlers)
    ensures GenerationsIssuedOnce(t.tables.nextGeneration, t.handlers)
  {
  }

  lemma LandedClaimFits(s: Hub, h: SocketId, t: Hub)
    requires Invariant(s) && h in s.handlers
    requires s.handlers[h].phase.Received? || s.handlers[h].phase.Closing?
    requires t == TryClaim(s, h, s.tables.GenerationOf(s.handlers[h].node))
    ensures PhasesFit(t.tables.nextGeneration, t.tables.connections, t.handlers)
    ensures ProbesBelongToProbers(t.tables.probes, t.nonces, t.handlers)
    ensures ServedNodesSpared(t.tables.connections, t.handlers, t.tables.reapers)
  {
  }

  lemma ClaimKeeps(s: Hub, h: SocketId, replacing: Option<nat>)
    requires Invariant(s) && h in s.handlers
    requires s.handlers[h].phase.Received? || s.handlers[h].phase.Closing?
    ensures Invariant(TryClaim(s, h, replacing))
  {
    if s.tables.GenerationOf(s.handlers[h].node) == replacing {
      LandedClaimOwns(s, h, TryClaim(s, h, replacing));
      LandedClaimFits(s, h, TryClaim(s, h, replacing));
    } else {
      MoveKeeps(s, h, Finished);
    }
  }

  lemma OpenProbeIsOwn(s: Hub, h: SocketId, nonce: Nonce, t: Hub)
    requires Invariant(s) && Enabled(s, Register(h, nonce)) && s.handlers[h].node in s.tables.connections
    requires t == Step(s, Register(h, nonce))
    ensures ProbesBelongToProbers(t.tables.probes, t.nonces, t.handlers)
  {
    hide EntriesHaveOwners, GenerationsIssuedOnce, PhasesFit, ReapersKnown, ServedNodesSpared;
  }

  lemma OpenProbeKeeps(s: Hub, h: SocketId, nonce: Nonce)
    requires Invariant(s) && Enabled(s, Register(h, nonce)) && s.handlers[h].node in s.tables.connections
    ensures Invariant(Step(s, Register(h, nonce)))
  {
    var t := Step(s, Register(h, nonce));
    OpenProbeIsOwn(s, h, nonce, t);
    ObservedIsIssued(s, s.handlers[h].node);
    OwnersStay(s, h, t.handlers[h].phase, t);
    NumbersStay(s, h, t.handlers[h].phase, t);
    hide EntriesHaveOwners, ServedNodesSpared, GenerationsIssuedOnce, PhasesFit, ProbesBelongToProbers, ReapersKnown;
  }

  /** The handler `h` moves on, and neither entries nor reapers change. */
  predicate OnlyMoves(s: Hub, h: SocketId, phase: Phase, t: Hub) {
    && h in s.handlers
    && t.handlers == Move(s, h, phase).handlers
    && t.tables.connections == s.tables.connections && t.tables.nextGeneration == s.tables.nextGeneration
    && t.tables.reapers == s.tables.reapers && t.tables.live == s.tables.live && t.tasks == s.tasks
  }

  lemma OwnersStay(s: Hub, h: SocketId, phase: Phase, t: Hub)
    requires Invariant(s) && OnlyMoves(s, h, phase, t) && !Owning(s.handlers[h].phase)
    ensures EntriesHaveOwners(t.tables.connections, t.handlers)
    ensures ServedNodesSpared(t.tables.connections, t.handlers, t.tables.reapers)
  {
    hide GenerationsIssuedOnce, PhasesFit, ProbesBelongToProbers, ReapersKnown;
  }

  lemma NumbersStay(s: Hub, h: SocketId, phase: Phase, t: Hub)
    requires Invariant(s) && OnlyMoves(s, h, phase, t) && Unclaimed(s.handlers[h].phase) && !Owning(phase)
    requires phase.Probing? || phase.Closing? ==> 1 <= phase.observed <= s.tables.nextGeneration
    ensures GenerationsIssuedOnce(t.tables.nextGeneration, t.handlers)
    ensures PhasesFit(t.tables.nextGeneration, t.tables.connections, t.handlers)
  {
    hide EntriesHaveOwners, ServedNodesSpared, ProbesBelongToProbers, ReapersKnown;
  }

  lemma ObservedIsIssued(s: Hub, node: NodeId)
    requires Invariant(s) && node in s.tables.connections
    ensures 1 <= s.tables.connections[node].generation <= s.tables.nextGeneration
  {
  }

  lemma CloseProbeIsOwn(s: Hub, h: SocketId, phase: Phase, t: Hub)
    requires Invariant(s) && h in s.handlers && s.handlers[h].phase.Probing? && !phase.Probing?
    requires t.tables.probes == s.tables.CloseProbe(s.handlers[h].node, s.handlers[h].phase.nonce).probes
    requires t.handlers == Move(s, h, phase).handlers && t.nonces == s.nonces
    ensures ProbesBelongToProbers(t.tables.probes, t.nonces, t.handlers)
  {
    hide EntriesHaveOwners, GenerationsIssuedOnce, PhasesFit, ReapersKnown, ServedNodesSpared;
  }

  lemma CloseProbeKeeps(s: Hub, h: SocketId, phase: Phase)
    requires Invariant(s) && h in s.handlers && s.handlers[h].phase.Probing?
    requires phase == Finished || phase == Closing(s.handlers[h].phase.observed)
    ensures Invariant(Move(s, h, phase).(tables := s.tables.CloseProbe(s.handlers[h].node, s.handlers[h].phase.nonce)))
  {
    var t := Move(s, h, phase).(tables := s.tables.CloseProbe(s.handlers[h].node, s.handlers[h].phase.nonce));
    assert 1 <= s.handlers[h].phase.observed <= s.tables.nextGeneration;
    hide EntriesHaveOwners, ServedNodesSpared, GenerationsIssuedOnce, PhasesFit, ProbesBelongToProbers, ReapersKnown;
    CloseProbeIsOwn(s, h, phase, t);
    OwnersStay(s, h, phase, t);
    NumbersStay(s, h, phase, t);
  }

  lemma ProbesIgnoreOwners(s: Hub, h: SocketId, phase: Phase, t: Hub)
    requires Invariant(s) && h in s.handlers && !s.handlers[h].phase.Probing? && !phase.Probing?
    requires t.tables.probes == s.tables.probes && t.nonces == s.nonces && t.handlers == Move(s, h, phase).handlers
    ensures ProbesBelongToProbers(t.tables.probes, t.nonces, t.handlers)
  {
    hide EntriesHaveOwners, GenerationsIssuedOnce, PhasesFit, ReapersKnown, ServedNodesSpared;
  }

  lemma DroppedOwners(s: Hub, h: SocketId, phase: Phase, t: Hub)
    requires Invariant(s) && h in s.handlers && s.handlers[h].generation.Some? && !PastReply(phase)
    requires t == Move(DropOwn(s, h), h, phase)
    ensures EntriesHaveOwners(t.tables.connections, t.handlers)
    ensures ServedNodesSpared(t.tables.connections, t.handlers, t.tables.reapers)
  {
    hide GenerationsIssuedOnce, PhasesFit, ProbesBelongToProbers, ReapersKnown;
  }

  lemma DroppedNumbers(s: Hub, h: SocketId, phase: Phase, t: Hub)
    requires Invariant(s) && h in s.handlers && s.handlers[h].generation.Some?
    requires phase == Leaving(false) || phase == Touching
    requires t == Move(DropOwn(s, h), h, phase)
    ensures GenerationsIssuedOnce(t.tables.nextGeneration, t.handlers)
    ensures PhasesFit(t.tables.nextGeneration, t.tables.connections, t.handlers)
  {
    hide EntriesHaveOwners, ServedNodesSpared, ProbesBelongToProbers, ReapersKnown;
  }

  lemma DropKeeps(s: Hub, h: SocketId, phase: Phase)
    requires Invariant(s) && h in s.handlers && s.handlers[h].generation.Some? && Owning(s.handlers[h].phase)
    requires phase == Leaving(false) || phase == Touching
    ensures Invariant(Move(DropOwn(s, h), h, phase))
  {
    var t := Move(DropOwn(s, h), h, phase);
    hide EntriesHaveOwners, ServedNodesSpared, GenerationsIssuedOnce, PhasesFit, ProbesBelongToProbers, ReapersKnown;
    DroppedOwners(s, h, phase, t);
    DroppedNumbers(s, h, phase, t);
    ProbesIgnoreOwners(s, h, phase, t);
  }

  lemma CancelledKeeps(s: Hub, h: SocketId)
    requires Invariant(s) && Enabled(s, Cancelled(h))
    ensures Invariant(Step(s, Cancelled(h)))
  {
    hide Invariant;
    if s.handlers[h].phase.Probing? { CloseProbeKeeps(s, h, Finished); } else { ClosingGivenUp(s, h); }
  }

  lemma ClosingGivenUp(s: Hub, h: SocketId)
    requires Invariant(s) && h in s.handlers && s.handlers[h].phase.Closing?
    ensures Invariant(Move(s, h, Finished))
  {
    MoveKeeps(s, h, Finished);
  }

  lemma RepliedKeeps(s: Hub, h: SocketId)
    requires Invariant(s) && Enabled(s, Replied(h))
    ensures Invariant(Step(s, Replied(h)))
  {
    var t := Step(s, Replied(h));
    ProbesIgnoreOwners(s, h, Serving, t);
    RepliedNumbers(s, h, t);
    RepliedOwners(s, h, t);
    RepliedReapers(s, h, t);
    hide EntriesHaveOwners, ServedNodesSpared, ProbesBelongToProbers, GenerationsIssuedOnce, PhasesFit, ReapersKnown;
  }

  lemma RepliedOwners(s: Hub, h: SocketId, t: Hub)
    requires Invariant(s) && Enabled(s, Replied(h)) && t == Step(s, Replied(h))
    ensures EntriesHaveOwners(t.tables.connections, t.handlers)
    ensures ServedNodesSpared(t.tables.connections, t.handlers, t.tables.reapers)
  {
    hide GenerationsIssuedOnce, PhasesFit, ProbesBelongToProbers, ReapersKnown;
  }

  lemma RepliedReapers(s: Hub, h: SocketId, t: Hub)
    requires Invariant(s) && Enabled(s, Replied(h)) && t == Step(s, Replied(h))
    ensures ReapersKnown(t.tables.reapers, t.tables.live, t.tasks)
  {
    hide EntriesHaveOwners, ServedNodesSpared, GenerationsIssuedOnce, PhasesFit, ProbesBelongToProbers;
  }

  lemma RepliedNumbers(s: Hub, h: SocketId, t: Hub)
    requires Invariant(s) && Enabled(s, Replied(h)) && t == Step(s, Replied(h))
    ensures GenerationsIssuedOnce(t.tables.nextGeneration, t.handlers)
    ensures PhasesFit(t.tables.nextGeneration, t.tables.connections, t.handlers)
  {
    hide EntriesHaveOwners, ServedNodesSpared, ProbesBelongToProbers, ReapersKnown;
  }

  lemma PongKeeps(s: Hub, h: SocketId, nonce: Nonce)
    requires Invariant(s) && Enabled(s, Pong(h, nonce))
    ensures Invariant(Step(s, Pong(h, nonce)))
  {
  }

  lemma ArmKeeps(s: Hub, node: NodeId, task: ReaperId)
    requires Invariant(s) && task !in s.tasks && node !in s.tables.connections
    ensures Invariant(s.(tables := s.tables.SetReaper(node, task), tasks := s.tasks[task := node]))
  {
    ArmedIsKnown(s, node, task);
    hide EntriesHaveOwners, GenerationsIssuedOnce, PhasesFit, ProbesBelongToProbers, ReapersKnown;
  }

  lemma ArmedIsKnown(s: Hub, node: NodeId, task: ReaperId)
    requires Invariant(s) && task !in s.tasks
    ensures var t := s.tables.SetReaper(node, task); ReapersKnown(t.reapers, t.live, s.tasks[task := node])
  {
    hide EntriesHaveOwners, GenerationsIssuedOnce, PhasesFit, ProbesBelongToProbers, ServedNodesSpared;
  }

  lemma TouchedKeeps(s: Hub, h: SocketId, task: ReaperId)
    requires Invariant(s) && Enabled(s, Touched(h, task))
    ensures Invariant(Step(s, Touched(h, task)))
  {
    MoveKeeps(s, h, Finished);
    if s.handlers[h].node !in s.tables.connections {
      ArmKeeps(Move(s, h, Finished), s.handlers[h].node, task);
    }
  }

  lemma ReaperEventKeeps(s: Hub, e: Event)
    requires Invariant(s) && Enabled(s, e) && (e.ReaperEnds? || e.ReaperCallback?)
    ensures Invariant(Step(s, e))
  {
  }

  /** Up to the claim. */
  predicate Entering(e: Event) {
    e.Connect? || e.Refuse? || e.Register? || e.ProbeAnswered? || e.ProbeFailed? || e.Cancelled? || e.Claim?
  }

  lemma EnteringKeeps(s: Hub, e: Event)
    requires Invariant(s) && Enabled(s, e) && Entering(e)
    ensures Invariant(Step(s, e))
  {
    hide EntriesHaveOwners, ServedNodesSpared, GenerationsIssuedOnce, PhasesFit, ProbesBelongToProbers, ReapersKnown;
    match e
    case Connect(h, node) => ConnectKeeps(s, h, node);
    case Refuse(h) => ReceivedHoldsNothing(s, h); MoveKeeps(s, h, Finished);
    case Register(h, nonce) =>
      if s.handlers[h].node in s.tables.connections { OpenProbeKeeps(s, h, nonce); } else { ClaimKeeps(s, h, None); }
    case ProbeAnswered(h) => CloseProbeKeeps(s, h, Finished);
    case ProbeFailed(h) => CloseProbeKeeps(s, h, Closing(s.handlers[h].phase.observed));
    case Cancelled(h) => CancelledKeeps(s, h);
    case Claim(h) => ClaimKeeps(s, h, Some(s.handlers[h].phase.observed));
  }

  lemma ReceivedHoldsNothing(s: Hub, h: SocketId)
    requires Invariant(s) && h in s.handlers
    ensures Unclaimed(s.handlers[h].phase) ==> !HoldsOwn(s, h)
    ensures Owning(s.handlers[h].phase) ==> s.handlers[h].generation.Some?
  {
    hide EntriesHaveOwners, ServedNodesSpared, GenerationsIssuedOnce, ProbesBelongToProbers, ReapersKnown;
  }

  lemma LeavingKeeps(s: Hub, e: Event)
    requires Invariant(s) && Enabled(s, e) && !Entering(e)
    ensures Invariant(Step(s, e))
  {
    hide EntriesHaveOwners, ServedNodesSpared, GenerationsIssuedOnce, PhasesFit, ProbesBelongToProbers, ReapersKnown;
    if ActorOf(e).Some? { ReceivedHoldsNothing(s, e.h); }
    match e
    case Upserted(h) => MoveKeeps(s, h, Replying);
    case DuplicateHandle(h) => DropKeeps(s, h, Leaving(false));
    case UpsertFailed(h) => MoveKeeps(s, h, Leaving(false));
    case Replied(h) => RepliedKeeps(s, h);
    case ReplyFailed(h) => MoveKeeps(s, h, Leaving(false));
    case Pong(h, nonce) => PongKeeps(s, h, nonce);
    case Leave(h) => MoveKeeps(s, h, Leaving(true));
    case CleanUp(h) => if HoldsOwn(s, h) { DropKeeps(s, h, Touching); } else { MoveKeeps(s, h, Finished); }
    case Touched(h, task) => TouchedKeeps(s, h, task);
    case ReaperEnds(_) => ReaperEventKeeps(s, e);
    case ReaperCallback(_) => ReaperEventKeeps(s, e);
  }

  lemma StepKeeps(s: Hub, e: Event)
    requires Invariant(s) && Enabled(s, e)
    ensures Invariant(Step(s, e))
  {
    hide Invariant, Step, Enabled;
    if Entering(e) { EnteringKeeps(s, e); } else { LeavingKeeps(s, e); }
  }

  lemma {:induction false} EveryRunKeepsInvariant(events: seq<Event>)
    requires Run(events)
    ensures Invariant(After(events))
    decreases |events|
  {
    if |events| > 0 {
      EveryRunKeepsInvariant(Front(events));
      StepKeeps(After(Front(events)), events[|events| - 1]);
    }
  }

  // ----- What one event can change -----

  /** The handler whose segment an event is; reapers run on their own. */
  function ActorOf(e: Event): Option<SocketId> {
    if e.ReaperEnds? || e.ReaperCallback? then None else Some(e.h)
  }

  /** The event is a claim that lands. */
  predicate Claims(s: Hub, e: Event)
    requires Enabled(s, e)
  {
    || (e.Register? && s.tables.GenerationOf(s.handlers[e.h].node).None?)
    || (e.Claim? && s.tables.GenerationOf(s.handlers[e.h].node) == Some(PhaseOf(s, e.h).observed))
  }

  /** The event is a removal that hits. */
  predicate Drops(s: Hub, e: Event)
    requires Enabled(s, e)
  {
    (e.DuplicateHandle? || e.CleanUp?) && HoldsOwn(s, e.h)
  }

  /** Entries are changed by landed claims and by removals that hit, each at the node of its handler. */
  lemma EntriesMove(s: Hub, e: Event)
    requires Enabled(s, e)
    ensures Claims(s, e) ==> Step(s, e).tables.connections
                             == s.tables.connections[s.handlers[e.h].node := Connection(e.h, s.tables.nextGeneration + 1)]
    ensures Drops(s, e) ==> Step(s, e).tables.connections == s.tables.connections - {s.handlers[e.h].node}
    ensures !Claims(s, e) && !Drops(s, e) ==> Step(s, e).tables.connections == s.tables.connections
  {
    if !(e.Register? || e.Claim? || e.DuplicateHandle? || e.CleanUp?) {
      EntriesStay(s, e);
      hide Step;
    }
  }

  lemma EntriesStay(s: Hub, e: Event)
    requires Enabled(s, e) && !(e.Register? || e.Claim? || e.DuplicateHandle? || e.CleanUp?)
    ensures Step(s, e).tables.connections == s.tables.connections
  {
  }

  /** No other handler is moved. */
  lemma OthersStay(s: Hub, e: Event, k: SocketId)
    requires Enabled(s, e) && ActorOf(e) != Some(k)
    ensures k in Step(s, e).handlers <==> k in s.handlers
    ensures k in s.handlers ==> Step(s, e).handlers[k] == s.handlers[k]
  {
  }

  /** Generations are given by landed claims. */
  lemma GenerationsMove(s: Hub, e: Event)
    requires Enabled(s, e) && ActorOf(e).Some? && e.h in s.handlers
    ensures e.h in Step(s, e).handlers
    ensures Step(s, e).handlers[e.h].generation
            == if Claims(s, e) then Some(s.tables.nextGeneration + 1) else s.handlers[e.h].generation
  {
  }

  // ----- What follows for every run -----

  /** At most one handler owns a node's registered entry, it holds that entry's generation, and it
      has not finished. */
  lemma OneOwnerPerNode(events: seq<Event>, h: SocketId, k: SocketId)
    requires Run(events)
    requires h in After(events).handlers && k in After(events).handlers
    requires HoldsOwn(After(events), h) && HoldsOwn(After(events), k)
    requires After(events).handlers[h].node == After(events).handlers[k].node
    ensures h == k
    ensures After(events).tables.connections[After(events).handlers[h].node].socket == h
    ensures Owning(After(events).handlers[h].phase)
  {
    EveryRunKeepsInvariant(events);
  }

  /** A node's entry changes hands only when a handler's claim lands on exactly the generation that
      handler observed, and only upwards. */
  lemma EntryReplacedOnlyByItsClaimant(events: seq<Event>, e: Event, node: NodeId)
    requires Run(events + [e])
    requires Run(events)
    requires node in After(events).tables.connections && node in After(events + [e]).tables.connections
    requires After(events).tables.connections[node] != After(events + [e]).tables.connections[node]
    ensures e.Claim?
    ensures PhaseOf(After(events), e.h) == Closing(After(events).tables.connections[node].generation)
    ensures After(events).handlers[e.h].node == node
    ensures After(events + [e]).tables.connections[node].socket == e.h
    ensures After(events).tables.connections[node].generation <= After(events).tables.nextGeneration
    ensures After(events + [e]).tables.connections[node].generation == After(events).tables.nextGeneration + 1
  {
    assert Front(events + [e]) == events;
    EveryRunKeepsInvariant(events);
    var s := After(events);
    ClaimerWasUnregistered(s, e, node);
    hide Step, Invariant;
    EntriesMove(s, e);
  }

  /** A claim or removal of its own node's entry, by a handler whose observation fits. */
  lemma ClaimerWasUnregistered(s: Hub, e: Event, node: NodeId)
    requires Invariant(s) && Enabled(s, e) && node in s.tables.connections
    ensures e.Register? && Claims(s, e) ==> s.handlers[e.h].node != node
    ensures e.Claim? && Claims(s, e) && s.handlers[e.h].node == node
            ==> PhaseOf(s, e.h) == Closing(s.tables.connections[node].generation)
    ensures s.tables.connections[node].generation <= s.tables.nextGeneration
    ensures Drops(s, e) && s.handlers[e.h].node == node ==> e.h == s.tables.connections[node].socket
  {
    hide PhasesFit, ProbesBelongToProbers, ReapersKnown, ServedNodesSpared, Step;
  }

  /** A handler closing the incumbent of generation `g` looked `g` up at `i` and saw its own probe
      of it fail at `j`. */
  ghost predicate ProbedAndFailed(events: seq<Event>, h: SocketId, g: nat, i: nat, j: nat)
    requires Run(events)
  {
    && i < j < |events|
    && events[i].Register? && events[i].h == h
    && events[j] == ProbeFailed(h)
    && Run(events[..i])
    && h in After(events[..i]).handlers
    && After(events[..i]).tables.GenerationOf(After(events[..i]).handlers[h].node) == Some(g)
  }

  /** A handler probing generation `g` looked it up at `i` under the nonce it still waits on. */
  ghost predicate LookedUp(events: seq<Event>, h: SocketId, g: nat, nonce: Nonce, i: nat)
    requires Run(events)
  {
    && i < |events|
    && events[i] == Register(h, nonce)
    && Run(events[..i])
    && h in After(events[..i]).handlers
    && After(events[..i]).tables.GenerationOf(After(events[..i]).handlers[h].node) == Some(g)
  }

  lemma RunPrefix(events: seq<Event>, n: nat)
    requires Run(events) && n <= |events|
    ensures Run(events[..n])
    decreases |events|
  {
    if n < |events| {
      RunPrefix(Front(events), n);
      assert Front(events)[..n] == events[..n];
    } else {
      assert events[..n] == events;
    }
  }

  /** A handler starts probing only by looking its node up. */
  lemma ProbingBegins(s: Hub, e: Event, h: SocketId)
    requires Enabled(s, e) && PhaseOf(Step(s, e), h).Probing?
    ensures PhaseOf(s, h) == PhaseOf(Step(s, e), h) ||
            (&& e == Register(h, PhaseOf(Step(s, e), h).nonce)
             && h in s.handlers
             && s.tables.GenerationOf(s.handlers[h].node) == Some(PhaseOf(Step(s, e), h).observed))
  {
    if ActorOf(e) != Some(h) {
      OthersStay(s, e, h);
      hide Step;
    }
  }

  /** A handler starts closing the incumbent only when its own probe of that incumbent failed. */
  lemma ClosingBegins(s: Hub, e: Event, h: SocketId)
    requires Enabled(s, e) && PhaseOf(Step(s, e), h).Closing?
    ensures PhaseOf(s, h) == PhaseOf(Step(s, e), h) ||
            (&& e == ProbeFailed(h)
             && PhaseOf(s, h).Probing?
             && PhaseOf(s, h).observed == PhaseOf(Step(s, e), h).observed)
  {
    if ActorOf(e) != Some(h) {
      OthersStay(s, e, h);
      hide Step;
    }
  }

  lemma {:induction false} ProberLookedUp(events: seq<Event>, h: SocketId) returns (i: nat)
    requires Run(events) && PhaseOf(After(events), h).Probing?
    ensures LookedUp(events, h, PhaseOf(After(events), h).observed, PhaseOf(After(events), h).nonce, i)
    decreases |events|
  {
    var earlier := Front(events);
    ProbingBegins(After(earlier), events[|earlier|], h);
    if PhaseOf(After(earlier), h) == PhaseOf(After(events), h) {
      i := ProberLookedUp(earlier, h);
      assert earlier[..i] == events[..i];
    } else {
      i := |earlier|;
    }
  }

  lemma {:induction false} CloserProbedAndFailed(events: seq<Event>, h: SocketId) returns (i: nat, j: nat)
    requires Run(events) && PhaseOf(After(events), h).Closing?
    ensures ProbedAndFailed(events, h, PhaseOf(After(events), h).observed, i, j)
    decreases |events|
  {
    var earlier := Front(events);
    ClosingBegins(After(earlier), events[|earlier|], h);
    if PhaseOf(After(earlier), h) == PhaseOf(After(events), h) {
      i, j := CloserProbedAndFailed(earlier, h);
    } else {
      i := ProberLookedUp(earlier, h);
      j := |earlier|;
    }
    assert earlier[..i] == events[..i];
  }

  /** Takeover safety over whole runs: whenever a registered entry gives way to another, the new
      owner had looked that very entry up and its own probe of it had failed in between. */
  lemma TakeoverNeedsFailedProbe(events: seq<Event>, e: Event, node: NodeId) returns (i: nat, j: nat)
    requires Run(events) && Run(events + [e])
    requires node in After(events).tables.connections && node in After(events + [e]).tables.connections
    requires After(events).tables.connections[node] != After(events + [e]).tables.connections[node]
    ensures ProbedAndFailed(events, After(events + [e]).tables.connections[node].socket,
                            After(events).tables.connections[node].generation, i, j)
  {
    EntryReplacedOnlyByItsClaimant(events, e, node);
    i, j := CloserProbedAndFailed(events, e.h);
  }

  /** Removal is the owner's alone: an event that drops a node's entry is the guarded removal of the
      handler registered in it, so a stale handler's cleanup never clears its successor. */
  lemma EntryRemovedOnlyByItsOwner(events: seq<Event>, e: Event, node: NodeId)
    requires Run(events) && Run(events + [e])
    requires node in After(events).tables.connections && node !in After(events + [e]).tables.connections
    ensures e.CleanUp? || e.DuplicateHandle?
    ensures e.h == After(events).tables.connections[node].socket
    ensures forall other :: other in After(events).tables.connections && other != node ==>
              && other in After(events + [e]).tables.connections
              && After(events + [e]).tables.connections[other] == After(events).tables.connections[other]
  {
    assert Front(events + [e]) == events;
    EveryRunKeepsInvariant(events);
    var s := After(events);
    ClaimerWasUnregistered(s, e, node);
    hide Step, Invariant;
    EntriesMove(s, e);
  }

  /** No handler that finished, or that already removed its entry, leaves its generation registered. */
  lemma FinishedHandlersAreUnregistered(events: seq<Event>, h: SocketId, node: NodeId)
    requires Run(events) && h in After(events).handlers
    requires After(events).handlers[h].phase.Finished? || After(events).handlers[h].phase.Touching?
    requires node in After(events).tables.connections
    ensures After(events).tables.connections[node].socket != h
    ensures After(events).handlers[h].generation != Some(After(events).tables.connections[node].generation)
  {
    EveryRunKeepsInvariant(events);
  }

  /** Generations are issued in increasing order and to one handler each. */
  lemma GenerationsIncrease(events: seq<Event>, e: Event, h: SocketId, k: SocketId)
    requires Run(events) && Run(events + [e])
    requires h in After(events + [e]).handlers && After(events + [e]).handlers[h].generation.Some?
    requires h in After(events).handlers && After(events).handlers[h].generation.None?
    requires k in After(events).handlers && After(events).handlers[k].generation.Some?
    ensures After(events).handlers[k].generation.value < After(events + [e]).handlers[h].generation.value
    ensures After(events + [e]).handlers[k].generation == After(events).handlers[k].generation
  {
    assert Front(events + [e]) == events;
    EveryRunKeepsInvariant(events);
    var s := After(events);
    IssuedSoFar(s, k);
    hide Step, Invariant;
    if ActorOf(e) == Some(h) { GenerationsMove(s, e); } else { OthersStay(s, e, h); }
    if ActorOf(e) == Some(k) { GenerationsMove(s, e); } else { OthersStay(s, e, k); }
  }

  lemma IssuedSoFar(s: Hub, k: SocketId)
    requires Invariant(s) && k in s.handlers && s.handlers[k].generation.Some?
    ensures s.handlers[k].generation.value <= s.tables.nextGeneration
    ensures !Unclaimed(s.handlers[k].phase)
  {
    hide EntriesHaveOwners, ProbesBelongToProbers, ReapersKnown, ServedNodesSpared;
  }

  /** The probes the handlers now probing are waiting on. */
  ghost function ProberKeys(s: Hub): set<(NodeId, Nonce)> {
    set h | h in s.handlers && s.handlers[h].phase.Probing? :: (s.handlers[h].node, s.handlers[h].phase.nonce)
  }

  /** The open probes are exactly those of the handlers still probing. */
  lemma OpenProbesAreProbers(events: seq<Event>)
    requires Run(events)
    ensures After(events).tables.probes.Keys == ProberKeys(After(events))
  {
    EveryRunKeepsInvariant(events);
    var s := After(events);
    forall key | key in s.tables.probes
      ensures key in ProberKeys(s)
    {
      var h := s.nonces[key.1];
      assert key == (s.handlers[h].node, s.handlers[h].phase.nonce);
    }
  }

  function ProbeKey(s: Hub, h: SocketId): (NodeId, Nonce)
    requires PhaseOf(s, h).Probing?
  {
    (s.handlers[h].node, s.handlers[h].phase.nonce)
  }

  predicate IsPongFor(s: Hub, e: Event, key: (NodeId, Nonce)) {
    e.Pong? && PhaseOf(s, e.h).Serving? && s.handlers[e.h].node == key.0 && e.nonce == key.1
  }

  /** The handler itself stops probing. */
  predicate EndsProbe(e: Event, h: SocketId) {
    e == ProbeAnswered(h) || e == ProbeFailed(h) || e == Cancelled(h)
  }

  lemma OthersMove(s: Hub, e: Event, h: SocketId)
    requires Enabled(s, e) && PhaseOf(s, h).Probing? && !EndsProbe(e, h)
    ensures h in Step(s, e).handlers && Step(s, e).handlers[h] == s.handlers[h]
  {
    if ActorOf(e) != Some(h) {
      OthersStay(s, e, h);
      hide Step;
    }
  }

  lemma NewProbeIsAnother(s: Hub, e: Event, h: SocketId)
    requires ProbesBelongToProbers(s.tables.probes, s.nonces, s.handlers)
    requires Enabled(s, e) && PhaseOf(s, h).Probing? && !EndsProbe(e, h)
    requires e.Register?
    ensures ProbeKey(s, h) in s.tables.probes && ProbeKey(s, h) in Step(s, e).tables.probes
    ensures Step(s, e).tables.probes[ProbeKey(s, h)]
            == if IsPongFor(s, e, ProbeKey(s, h)) then Answered else s.tables.probes[ProbeKey(s, h)]
  {
  }

  lemma ClosedProbeIsAnother(s: Hub, e: Event, h: SocketId)
    requires ProbesBelongToProbers(s.tables.probes, s.nonces, s.handlers)
    requires Enabled(s, e) && PhaseOf(s, h).Probing? && !EndsProbe(e, h)
    requires e.ProbeAnswered? || e.ProbeFailed? || e.Cancelled?
    ensures ProbeKey(s, h) in s.tables.probes && ProbeKey(s, h) in Step(s, e).tables.probes
    ensures Step(s, e).tables.probes[ProbeKey(s, h)]
            == if IsPongFor(s, e, ProbeKey(s, h)) then Answered else s.tables.probes[ProbeKey(s, h)]
  {
  }

  lemma ProbesMove(s: Hub, e: Event)
    requires Enabled(s, e) && !e.Register? && !e.ProbeAnswered? && !e.ProbeFailed? && !e.Cancelled?
    ensures Step(s, e).tables.probes
            == if e.Pong? then s.tables.ResolveProbe(s.handlers[e.h].node, e.nonce).probes else s.tables.probes
  {
  }

  lemma ProbeStays(s: Hub, e: Event, h: SocketId)
    requires ProbesBelongToProbers(s.tables.probes, s.nonces, s.handlers)
    requires Enabled(s, e) && PhaseOf(s, h).Probing? && !EndsProbe(e, h)
    requires !e.Register? && !e.ProbeAnswered? && !e.ProbeFailed? && !e.Cancelled?
    ensures ProbeKey(s, h) in s.tables.probes && ProbeKey(s, h) in Step(s, e).tables.probes
    ensures Step(s, e).tables.probes[ProbeKey(s, h)]
            == if IsPongFor(s, e, ProbeKey(s, h)) then Answered else s.tables.probes[ProbeKey(s, h)]
  {
    ProbesMove(s, e);
    hide Step;
  }

  lemma OthersProbe(s: Hub, e: Event, h: SocketId)
    requires ProbesBelongToProbers(s.tables.probes, s.nonces, s.handlers)
    requires Enabled(s, e) && PhaseOf(s, h).Probing? && !EndsProbe(e, h)
    ensures ProbeKey(s, h) in s.tables.probes && ProbeKey(s, h) in Step(s, e).tables.probes
    ensures Step(s, e).tables.probes[ProbeKey(s, h)]
            == if IsPongFor(s, e, ProbeKey(s, h)) then Answered else s.tables.probes[ProbeKey(s, h)]
  {
    if e.Register? {
      NewProbeIsAnother(s, e, h);
    } else if e.ProbeAnswered? || e.ProbeFailed? || e.Cancelled? {
      ClosedProbeIsAnother(s, e, h);
    } else {
      ProbeStays(s, e, h);
    }
  }

  /** While `h` goes on probing, no event of another handler closes or cancels its probe, and only a
      pong carrying its nonce on its node answers it. */
  lemma ProbeUndisturbed(events: seq<Event>, e: Event, h: SocketId)
    requires Run(events) && Run(events + [e])
    requires PhaseOf(After(events), h).Probing?
    requires !EndsProbe(e, h)
    ensures PhaseOf(After(events + [e]), h) == PhaseOf(After(events), h)
    ensures var key := ProbeKey(After(events), h);
            && key in After(events).tables.probes && key in After(events + [e]).tables.probes
            && After(events + [e]).tables.probes[key]
               == if IsPongFor(After(events), e, key) then Answered else After(events).tables.probes[key]
  {
    assert Front(events + [e]) == events;
    EveryRunKeepsInvariant(events);
    OthersMove(After(events), e, h);
    OthersProbe(After(events), e, h);
  }

  /** The handler's own step does not leave it with an answered probe. */
  lemma OwnStepLeavesNoAnswer(s: Hub, e: Event, h: SocketId)
    requires Enabled(s, e) && (EndsProbe(e, h) || (e.Register? && e.h == h))
    ensures !Enabled(Step(s, e), ProbeAnswered(h))
  {
  }

  lemma WasProbing(s: Hub, e: Event, h: SocketId)
    requires Enabled(s, e) && Enabled(Step(s, e), ProbeAnswered(h))
    ensures PhaseOf(s, h).Probing? && PhaseOf(s, h) == PhaseOf(Step(s, e), h)
    ensures s.handlers[h] == Step(s, e).handlers[h] && !EndsProbe(e, h)
  {
    if EndsProbe(e, h) || (e.Register? && e.h == h) {
      OwnStepLeavesNoAnswer(s, e, h);
    } else {
      ProbingBegins(s, e, h);
      OthersMove(s, e, h);
      hide Step;
    }
  }

  lemma AnswerBegins(s: Hub, e: Event, h: SocketId)
    requires ProbesBelongToProbers(s.tables.probes, s.nonces, s.handlers)
    requires Enabled(s, e) && Enabled(Step(s, e), ProbeAnswered(h))
    ensures PhaseOf(s, h) == PhaseOf(Step(s, e), h) && s.handlers[h] == Step(s, e).handlers[h]
    ensures Enabled(s, ProbeAnswered(h)) || IsPongFor(s, e, ProbeKey(s, h))
  {
    hide Step, ProbesBelongToProbers, IsPongFor;
    WasProbing(s, e, h);
    OthersProbe(s, e, h);
  }

  /** A handler concludes that the incumbent lives only after a serving handler of the same node
      sent a pong with the nonce of this very probe. */
  lemma {:induction false} LiveVerdictNeedsOwnPong(events: seq<Event>, h: SocketId) returns (j: nat)
    requires Run(events) && Enabled(After(events), ProbeAnswered(h))
    ensures j < |events| && Run(events[..j]) && IsPongFor(After(events[..j]), events[j], ProbeKey(After(events), h))
    decreases |events|
  {
    var earlier := Front(events);
    EveryRunKeepsInvariant(earlier);
    AnswerBegins(After(earlier), events[|earlier|], h);
    if Enabled(After(earlier), ProbeAnswered(h)) {
      j := LiveVerdictNeedsOwnPong(earlier, h);
    } else {
      j := |earlier|;
    }
    assert earlier[..j] == events[..j];
  }

  /** No reaper is armed for a node whose registered handler is past its reply, and no node ever has
      two reapers that are neither cancelled nor finished. */
  lemma ReapersSpareServedNodes(events: seq<Event>, node: NodeId, task: ReaperId, other: ReaperId)
    requires Run(events)
    requires task in After(events).tables.live && other in After(events).tables.live
    requires Lookup(After(events).tasks, task) == Some(node) && Lookup(After(events).tasks, other) == Some(node)
    ensures task == other
    ensures node in After(events).tables.connections ==>
              !PastReply(PhaseOf(After(events), After(events).tables.connections[node].socket))
  {
    EveryRunKeepsInvariant(events);
  }
}
