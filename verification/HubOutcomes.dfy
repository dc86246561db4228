/** What becomes of a registration, over whole runs: a silent incumbent is replaced, a live one stays, a free node
    is taken at once, and a handler that leaves cleans up after itself. Between the segments of one handler any
    segments of others may lie. */
module HubOutcomes {
  import opened Prelude
  import opened HubRegistry
  import opened HubProtocol

  /** None of these segments is the handler's own. */
  predicate Others(events: seq<Event>, h: SocketId) {
    forall e :: e in events ==> ActorOf(e) != Some(h)
  }

  lemma Extended(events: seq<Event>, e: Event)
    requires Run(events + [e])
    ensures Run(events) && Enabled(After(events), e) && After(events + [e]) == Step(After(events), e)
  {
    assert Front(events + [e]) == events;
  }

  /** Whatever others do, a handler stays where it is. */
  lemma {:induction false} HandlerWaits(events: seq<Event>, more: seq<Event>, h: SocketId)
    requires Run(events + more) && Others(more, h)
    ensures Run(events) && PhaseOf(After(events + more), h) == PhaseOf(After(events), h)
    ensures h in After(events).handlers <==> h in After(events + more).handlers
    ensures h in After(events).handlers ==> After(events + more).handlers[h] == After(events).handlers[h]
    decreases |more|
  {
    if |more| == 0 {
      assert events + more == events;
    } else {
      var init, e := Front(more), more[|more| - 1];
      assert events + more == (events + init) + [e] && e in more;
      Extended(events + init, e);
      OthersStay(After(events + init), e, h);
      hide Step, Enabled;
      HandlerWaits(events, init, h);
    }
  }

  function EntryOf(s: Hub, node: NodeId): Option<Connection> {
    Lookup(s.tables.connections, node)
  }

  /** The node's entry is this handler's, under the next number, and the handler goes on to the store. */
  ghost predicate Takes(s: Hub, t: Hub, h: SocketId, node: NodeId) {
    && EntryOf(t, node) == Some(Connection(h, s.tables.nextGeneration + 1))
    && h in t.handlers && t.handlers[h] == Handler(node, Some(s.tables.nextGeneration + 1), Upserting)
    && (forall other :: other != node ==> EntryOf(t, other) == EntryOf(s, other))
  }

  /** A free node is taken by the segment that looks it up. */
  lemma FreeNodeIsTaken(events: seq<Event>, h: SocketId, nonce: Nonce)
    requires Run(events + [Register(h, nonce)])
    requires EntryOf(After(events), After(events).handlers[h].node).None?
    ensures Takes(After(events), After(events + [Register(h, nonce)]), h, After(events).handlers[h].node)
  {
    Extended(events, Register(h, nonce));
  }

  /** Where the node is taken the newcomer probes its entry, under its own nonce, and touches no entry. */
  lemma TakenNodeIsProbed(events: seq<Event>, h: SocketId, nonce: Nonce)
    requires Run(events + [Register(h, nonce)])
    requires EntryOf(After(events), After(events).handlers[h].node).Some?
    ensures var s, t := After(events), After(events + [Register(h, nonce)]);
            var node := s.handlers[h].node;
            && t.handlers[h] == s.handlers[h].(phase := Probing(EntryOf(s, node).value.generation, nonce))
            && t.tables.connections == s.tables.connections
            && Lookup(t.tables.probes, (node, nonce)) == Some(Waiting)
  {
    Extended(events, Register(h, nonce));
  }

  /** A probe that fails makes its handler close the incumbent it looked up, answered or not. */
  lemma FailedProbeCloses(events: seq<Event>, h: SocketId)
    requires Run(events + [ProbeFailed(h)])
    ensures PhaseOf(After(events), h).Probing?
    ensures var s, t := After(events), After(events + [ProbeFailed(h)]);
            && t.handlers[h] == s.handlers[h].(phase := Closing(PhaseOf(s, h).observed))
            && t.tables.connections == s.tables.connections
            && (s.handlers[h].node, PhaseOf(s, h).nonce) !in t.tables.probes
  {
    Extended(events, ProbeFailed(h));
  }

  /** After the incumbent is closed the newcomer takes the node exactly when the entry still carries the generation
      it saw; otherwise it is turned away and no entry changes. */
  lemma ClaimDecides(events: seq<Event>, h: SocketId)
    requires Run(events + [Claim(h)])
    ensures PhaseOf(After(events), h).Closing?
    ensures var s, t := After(events), After(events + [Claim(h)]);
            var node, entry := s.handlers[h].node, EntryOf(s, s.handlers[h].node);
            if entry.Some? && entry.value.generation == PhaseOf(s, h).observed then Takes(s, t, h, node)
            else t.tables.connections == s.tables.connections && t.handlers[h] == s.handlers[h].(phase := Finished)
  {
    Extended(events, Claim(h));
  }

  lemma GenerationNamesEntry(events: seq<Event>, node: NodeId)
    requires Run(events) && EntryOf(After(events), node).Some?
    ensures EntryOf(After(events), node).value.generation <= After(events).tables.nextGeneration
  {
    EveryRunKeepsInvariant(events);
    ObservedIsIssued(After(events), node);
  }

  /** The run of one takeover, whatever other handlers do in between. */
  function Takeover(events: seq<Event>, h: SocketId, nonce: Nonce, a: seq<Event>, b: seq<Event>): seq<Event> {
    events + [Register(h, nonce)] + a + [ProbeFailed(h)] + b
  }

  lemma ReachesProbing(events: seq<Event>, h: SocketId, nonce: Nonce, a: seq<Event>)
    requires Run(events + [Register(h, nonce)] + a) && Others(a, h)
    requires Run(events) && h in After(events).handlers
    requires EntryOf(After(events), After(events).handlers[h].node).Some?
    ensures var node := After(events).handlers[h].node;
            var t := After(events + [Register(h, nonce)] + a);
            h in t.handlers && t.handlers[h].node == node
            && t.handlers[h].phase == Probing(EntryOf(After(events), node).value.generation, nonce)
  {
    var e1 := events + [Register(h, nonce)];
    RunPrefix(e1 + a, |e1|);
    assert (e1 + a)[..|e1|] == e1;
    Extended(events, Register(h, nonce));
    hide Step, Enabled, Run, After;
    TakenNodeIsProbed(events, h, nonce);
    HandlerWaits(e1, a, h);
  }

  lemma ReachesClosing(events: seq<Event>, h: SocketId, nonce: Nonce, a: seq<Event>, b: seq<Event>)
    requires Run(Takeover(events, h, nonce, a, b)) && Others(a, h) && Others(b, h)
    requires Run(events) && h in After(events).handlers
    requires EntryOf(After(events), After(events).handlers[h].node).Some?
    ensures var node := After(events).handlers[h].node;
            var t := After(Takeover(events, h, nonce, a, b));
            h in t.handlers && t.handlers[h].node == node
            && t.handlers[h].phase == Closing(EntryOf(After(events), node).value.generation)
  {
    var e2 := events + [Register(h, nonce)] + a;
    var e3 := e2 + [ProbeFailed(h)];
    RunPrefix(e3 + b, |e3|);
    assert (e3 + b)[..|e3|] == e3;
    Extended(e2, ProbeFailed(h));
    hide Step, Enabled, Run, After;
    ReachesProbing(events, h, nonce, a);
    FailedProbeCloses(e2, h);
    HandlerWaits(e3, b, h);
  }

  /** A registration whose probe of the incumbent fails closes that incumbent, and takes its node if the entry is
      still the one it looked up; if the entry was given to someone else or dropped meanwhile, it is refused. */
  lemma SilentIncumbentIsReplaced(events: seq<Event>, h: SocketId, nonce: Nonce, a: seq<Event>, b: seq<Event>)
    requires Run(Takeover(events, h, nonce, a, b) + [Claim(h)]) && Others(a, h) && Others(b, h)
    requires Run(events) && h in After(events).handlers
    requires EntryOf(After(events), After(events).handlers[h].node).Some?
    ensures Run(Takeover(events, h, nonce, a, b))
    ensures var before := Takeover(events, h, nonce, a, b);
            var s, t, node := After(before), After(before + [Claim(h)]), After(events).handlers[h].node;
            var seen := EntryOf(After(events), node).value.generation;
            && (if EntryOf(s, node).Some? && EntryOf(s, node).value.generation == seen
                then Takes(s, t, h, node) && seen < EntryOf(t, node).value.generation
                else t.tables.connections == s.tables.connections && PhaseOf(t, h) == Finished)
  {
    var before := Takeover(events, h, nonce, a, b);
    Extended(before, Claim(h));
    ReachesClosing(events, h, nonce, a, b);
    ClaimDecides(before, h);
    var node := After(events).handlers[h].node;
    if EntryOf(After(before), node).Some? { GenerationNamesEntry(before, node); }
    hide Step, Enabled, Run, After, Takeover;
  }

  /** A probe that is answered ends the registration and leaves every entry as it was. */
  lemma LiveIncumbentStays(events: seq<Event>, h: SocketId)
    requires Run(events + [ProbeAnswered(h)])
    ensures var s, t := After(events), After(events + [ProbeAnswered(h)]);
            && t.tables.connections == s.tables.connections && t.tables.nextGeneration == s.tables.nextGeneration
            && PhaseOf(t, h) == Finished
  {
    Extended(events, ProbeAnswered(h));
  }

  /** From the claim to service: the store accepts, the reply is sent, and no reaper is left for the node. */
  lemma ClaimantIsServed(events: seq<Event>, h: SocketId, a: seq<Event>)
    requires Run(events + [Upserted(h)] + a + [Replied(h)]) && Others(a, h)
    ensures var t := After(events + [Upserted(h)] + a + [Replied(h)]);
            PhaseOf(t, h) == Serving && t.handlers[h].node !in t.tables.reapers
            && Run(events) && h in After(events).handlers
            && t.handlers[h] == After(events).handlers[h].(phase := Serving)
  {
    var e1 := events + [Upserted(h)];
    var e2 := e1 + a;
    RunPrefix(e2 + [Replied(h)], |e1|);
    assert (e2 + [Replied(h)])[..|e1|] == e1;
    Extended(e2, Replied(h));
    Extended(events, Upserted(h));
    HandlerWaits(e1, a, h);
  }

  /** A refused handle gives up the claim: the node is free again unless another holds it by now. */
  lemma RefusedHandleGivesUp(events: seq<Event>, h: SocketId)
    requires Run(events + [DuplicateHandle(h)])
    ensures var s, t := After(events), After(events + [DuplicateHandle(h)]);
            var node := s.handlers[h].node;
            && EntryOf(t, node) == (if EntryOf(s, node).Some? && EntryOf(s, node).value.socket == h then None else EntryOf(s, node))
            && (forall other :: other != node ==> EntryOf(t, other) == EntryOf(s, other))
  {
    Extended(events, DuplicateHandle(h));
    EveryRunKeepsInvariant(events);
    OwnEntry(After(events), h);
    EntriesMove(After(events), DuplicateHandle(h));
    hide Step, Invariant;
  }

  /** The entry a handler holds is the one that names its socket. */
  lemma OwnEntry(s: Hub, h: SocketId)
    requires Invariant(s) && h in s.handlers && s.handlers[h].generation.Some?
    ensures var entry := EntryOf(s, s.handlers[h].node); HoldsOwn(s, h) <==> entry.Some? && entry.value.socket == h
  {
    hide PhasesFit, ProbesBelongToProbers, ReapersKnown, ServedNodesSpared;
  }

  /** Leaving: the handler drops its own entry and no other, and only then records the disconnect. */
  lemma LeavingCleansUp(events: seq<Event>, h: SocketId)
    requires Run(events + [CleanUp(h)])
    ensures var s, t := After(events), After(events + [CleanUp(h)]);
            var node := s.handlers[h].node;
            var own := EntryOf(s, node).Some? && EntryOf(s, node).value.socket == h;
            && EntryOf(t, node) == (if own then None else EntryOf(s, node))
            && (forall other :: other != node ==> EntryOf(t, other) == EntryOf(s, other))
            && PhaseOf(t, h) == (if own then Touching else Finished)
  {
    Extended(events, CleanUp(h));
    EveryRunKeepsInvariant(events);
    OwnEntry(After(events), h);
    EntriesMove(After(events), CleanUp(h));
    LeftPhase(After(events), h);
    hide Step, Invariant;
  }

  lemma LeftPhase(s: Hub, h: SocketId)
    requires Enabled(s, CleanUp(h))
    ensures PhaseOf(Step(s, CleanUp(h)), h) == if HoldsOwn(s, h) then Touching else Finished
  {
  }

  /** Once the disconnect is recorded: a node nobody reconnected to has exactly one live reaper, the one armed now;
      a node that is taken again gets none. */
  lemma LeftNodeIsReaped(events: seq<Event>, h: SocketId, task: ReaperId)
    requires Run(events + [Touched(h, task)])
    ensures var s, t := After(events), After(events + [Touched(h, task)]);
            var node := s.handlers[h].node;
            && PhaseOf(t, h) == Finished && t.tables.connections == s.tables.connections
            && (if EntryOf(s, node).Some? then t.tables.reapers == s.tables.reapers && t.tables.live == s.tables.live
                else Lookup(t.tables.reapers, node) == Some(task)
                     && forall other :: other in t.tables.live && Lookup(t.tasks, other) == Some(node) <==> other == task)
  {
    var all := events + [Touched(h, task)];
    Extended(events, Touched(h, task));
    var s, t := After(events), After(all);
    var node := s.handlers[h].node;
    if EntryOf(s, node).None? {
      ArmedNow(s, h, task);
      forall other | other in t.tables.live && Lookup(t.tasks, other) == Some(node)
        ensures other == task
      {
        ReapersSpareServedNodes(all, node, task, other);
      }
    }
  }

  lemma ArmedNow(s: Hub, h: SocketId, task: ReaperId)
    requires Enabled(s, Touched(h, task)) && s.handlers[h].node !in s.tables.connections
    ensures var t := Step(s, Touched(h, task));
            && Lookup(t.tables.reapers, s.handlers[h].node) == Some(task)
            && task in t.tables.live && Lookup(t.tasks, task) == Some(s.handlers[h].node)
  {
  }

  /** However the body of a handler that holds a claim ends, the cleanup comes next and no entry has changed yet,
      but for a refused handle. */
  lemma EveryExitCleansUp(events: seq<Event>, e: Event)
    requires Run(events + [e]) && (e.UpsertFailed? || e.ReplyFailed? || e.Leave?)
    ensures var s, t := After(events), After(events + [e]);
            && t.handlers[e.h] == s.handlers[e.h].(phase := Leaving(e.Leave?)) && t.tables == s.tables
            && Run(events + [e]) && Enabled(t, CleanUp(e.h))
  {
    Extended(events, e);
    EveryRunKeepsInvariant(events);
  }
}
