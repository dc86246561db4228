/** The hub's websocket endpoint over one `Registry` object: each method runs one atomic segment of
    a handler and is proved to be that segment's step of the protocol. */
module HubServer {
  import opened Prelude
  import opened HubRegistry
  import opened HubProtocol

  class Endpoint {
    const registry: Registry
    var handlers: map<SocketId, Handler>
    var nonces: map<Nonce, SocketId>
    var tasks: map<ReaperId, NodeId>

    constructor ()
      ensures View() == START && fresh(registry)
    {
      registry := new Registry();
      handlers := map[];
      nonces := map[];
      tasks := map[];
    }

    function View(): Hub
      reads this, registry
    {
      Hub(registry.View(), handlers, nonces, tasks)
    }

    method SetPhase(h: SocketId, phase: Phase)
      requires h in handlers
      modifies this`handlers
      ensures View() == Move(old(View()), h, phase)
    {
      handlers := handlers[h := handlers[h].(phase := phase)];
    }

    method Accept(h: SocketId, node: NodeId)
      requires Enabled(View(), Connect(h, node))
      modifies this`handlers
      ensures View() == Step(old(View()), Connect(h, node))
    {
      handlers := handlers[h := Handler(node, None, Received)];
    }

    /** From the lookup of the incumbent to the first suspension: the probe's ping, or the store. */
    method Begin(h: SocketId, nonce: Nonce)
      requires Enabled(View(), Register(h, nonce))
      modifies this, registry
      ensures View() == Step(old(View()), Register(h, nonce))
    {
      var node := handlers[h].node;
      var incumbent := registry.GetConnectionGeneration(node);
      if incumbent.Some? {
        registry.OpenProbe(node, nonce);
        nonces := nonces[nonce := h];
        SetPhase(h, Probing(incumbent.value, nonce));
      } else {
        ClaimNode(h, None);
      }
    }

    /** The compare-and-set claim and what the handler does with its result. */
    method ClaimNode(h: SocketId, replacing: Option<nat>)
      requires h in handlers
      modifies this`handlers, registry
      ensures View() == TryClaim(old(View()), h, replacing)
    {
      var claimed := registry.ClaimConnection(handlers[h].node, h, replacing);
      if claimed.None? {
        SetPhase(h, Finished);
      } else {
        handlers := handlers[h := Handler(handlers[h].node, claimed, Upserting)];
      }
    }

    /** Resuming from the probe: an answered probe rejects the newcomer, any failure evicts. */
    method ProbeSettles(h: SocketId, live: bool)
      requires Enabled(View(), if live then ProbeAnswered(h) else ProbeFailed(h))
      modifies this`handlers, registry
      ensures View() == Step(old(View()), if live then ProbeAnswered(h) else ProbeFailed(h))
    {
      var probing := handlers[h].phase;
      registry.CloseProbe(handlers[h].node, probing.nonce);
      SetPhase(h, if live then Finished else Closing(probing.observed));
    }

    /** Cancelled in the probe, whose `finally` still closes it, or while closing the incumbent. */
    method Abandoned(h: SocketId)
      requires Enabled(View(), Cancelled(h))
      modifies this`handlers, registry
      ensures View() == Step(old(View()), Cancelled(h))
    {
      var phase := handlers[h].phase;
      if phase.Probing? { registry.CloseProbe(handlers[h].node, phase.nonce); }
      SetPhase(h, Finished);
    }

    method IncumbentClosed(h: SocketId)
      requires Enabled(View(), Claim(h))
      modifies this`handlers, registry
      ensures View() == Step(old(View()), Claim(h))
    {
      ClaimNode(h, Some(handlers[h].phase.observed));
    }

    /** The store refused the agent's handle: the claim is given up before the error is sent. */
    method HandleTaken(h: SocketId)
      requires Enabled(View(), DuplicateHandle(h))
      modifies this`handlers, registry
      ensures View() == Step(old(View()), DuplicateHandle(h))
    {
      var _ := registry.RemoveConnection(handlers[h].node, handlers[h].generation.value);
      SetPhase(h, Leaving(false));
    }

    method RegisteredSent(h: SocketId)
      requires Enabled(View(), Replied(h))
      modifies this`handlers, registry
      ensures View() == Step(old(View()), Replied(h))
    {
      registry.CancelDisconnectReaper(handlers[h].node);
      SetPhase(h, Serving);
    }

    method PongReceived(h: SocketId, nonce: Nonce)
      requires Enabled(View(), Pong(h, nonce))
      modifies registry
      ensures View() == Step(old(View()), Pong(h, nonce))
    {
      registry.ResolveProbe(handlers[h].node, nonce);
    }

    /** The generation-guarded cleanup of the `finally` block, up to the recency write. */
    method FinallyCleanUp(h: SocketId)
      requires Enabled(View(), CleanUp(h))
      modifies this`handlers, registry
      ensures View() == Step(old(View()), CleanUp(h))
    {
      var removed := registry.RemoveConnection(handlers[h].node, handlers[h].generation.value);
      SetPhase(h, if removed then Touching else Finished);
    }

    /** After the recency write: a reaper is armed only if nobody reconnected meanwhile. */
    method FinallyArmReaper(h: SocketId, task: ReaperId)
      requires Enabled(View(), Touched(h, task))
      modifies this`handlers, this`tasks, registry
      ensures View() == Step(old(View()), Touched(h, task))
    {
      var node := handlers[h].node;
      var held := registry.HasConnection(node);
      if !held {
        registry.SetDisconnectReaper(node, task);
        tasks := tasks[task := node];
      }
      SetPhase(h, Finished);
    }

    /** A finished or cancelled reaper's done callback. */
    method ReaperDone(task: ReaperId)
      requires Enabled(View(), ReaperCallback(task))
      modifies registry
      ensures View() == Step(old(View()), ReaperCallback(task))
    {
      registry.DiscardDisconnectReaper(tasks[task], task);
    }
  }
}
