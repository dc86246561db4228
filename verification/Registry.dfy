/** The hub's in-memory registry: node connections, liveness probes and disconnect reapers.

    `Tables` is the value of the registry at one instant. `Registry` is the object whose methods
    update its dictionaries in place; every method is proved against a function of `Tables`. */
module HubRegistry {
  import opened Prelude

  type NodeId = string
  type Nonce = nat

  /** One websocket, which is also the identity of the handler serving it. */
  type SocketId = nat

  /** One reaper task. */
  type ReaperId = nat

  datatype Connection = Connection(socket: SocketId, generation: nat)

  /** The future behind an open probe. */
  datatype Probe = Waiting | Answered

  datatype Tables = Tables(
    connections: map<NodeId, Connection>,
    nextGeneration: nat,
    probes: map<(NodeId, Nonce), Probe>,
    reapers: map<NodeId, ReaperId>,
    live: set<ReaperId>)  // reaper tasks neither cancelled nor finished
  {
    function GenerationOf(node: NodeId): Option<nat> {
      if node in connections then Some(connections[node].generation) else None
    }

    function SetConnection(node: NodeId, socket: SocketId): Tables {
      this.(connections := connections[node := Connection(socket, nextGeneration + 1)],
            nextGeneration := nextGeneration + 1)
    }

    function RemoveConnection(node: NodeId, generation: nat): Tables {
      if GenerationOf(node) == Some(generation) then this.(connections := connections - {node}) else this
    }

    function OpenProbe(node: NodeId, nonce: Nonce): Tables {
      this.(probes := probes[(node, nonce) := Waiting])
    }

    function ResolveProbe(node: NodeId, nonce: Nonce): Tables {
      if (node, nonce) in probes then this.(probes := probes[(node, nonce) := Answered]) else this
    }

    function CloseProbe(node: NodeId, nonce: Nonce): Tables {
      this.(probes := probes - {(node, nonce)})
    }

    function CancelReaper(node: NodeId): Tables {
      if node in reapers then this.(reapers := reapers - {node}, live := live - {reapers[node]}) else this
    }

    /** Scheduling a reaper task and registering it, which cancels any previous one. */
    function SetReaper(node: NodeId, task: ReaperId): Tables {
      var cancelled := CancelReaper(node);
      cancelled.(reapers := cancelled.reapers[node := task], live := cancelled.live + {task})
    }

    function DiscardReaper(node: NodeId, task: ReaperId): Tables {
      if node in reapers && reapers[node] == task then this.(reapers := reapers - {node}) else this
    }
  }

  const EMPTY := Tables(map[], 0, map[], map[], {})

  class Registry {
    var connections: map<NodeId, Connection>
    var nextGeneration: nat
    var pendingProbes: map<(NodeId, Nonce), Probe>
    var disconnectReapers: map<NodeId, ReaperId>
    var liveReapers: set<ReaperId>

    constructor ()
      ensures View() == EMPTY
    {
      connections := map[];
      nextGeneration := 0;
      pendingProbes := map[];
      disconnectReapers := map[];
      liveReapers := {};
    }

    function View(): Tables
      reads this
    {
      Tables(connections, nextGeneration, pendingProbes, disconnectReapers, liveReapers)
    }

    method SetConnection(node: NodeId, socket: SocketId) returns (generation: nat)
      modifies this
      ensures View() == old(View()).SetConnection(node, socket)
      ensures generation == nextGeneration && old(nextGeneration) < generation
      ensures connections[node] == Connection(socket, generation)
    {
      nextGeneration := nextGeneration + 1;
      connections := connections[node := Connection(socket, nextGeneration)];
      generation := nextGeneration;
    }

    /** The claim lands exactly when the entry is still the one observed before the probe. */
    method ClaimConnection(node: NodeId, socket: SocketId, replacing: Option<nat>) returns (claimed: Option<nat>)
      modifies this
      ensures claimed.Some? <==> old(View()).GenerationOf(node) == replacing
      ensures claimed.None? ==> View() == old(View())
      ensures claimed.Some? ==> View() == old(View()).SetConnection(node, socket)
      ensures claimed.Some? ==> claimed.value == nextGeneration
    {
      var current := GetConnectionGeneration(node);
      if current != replacing {
        return None;
      }
      var generation := SetConnection(node, socket);
      claimed := Some(generation);
    }

    /** Only the entry carrying `generation` can be removed: a stale caller changes nothing. */
    method RemoveConnection(node: NodeId, generation: nat) returns (removed: bool)
      modifies this
      ensures removed <==> old(View()).GenerationOf(node) == Some(generation)
      ensures View() == old(View()).RemoveConnection(node, generation)
      ensures !removed ==> View() == old(View())
      ensures removed ==> connections.Keys == old(connections.Keys) - {node}
    {
      if node !in connections || connections[node].generation != generation {
        return false;
      }
      connections := connections - {node};
      removed := true;
    }

    method GetConnectionGeneration(node: NodeId) returns (generation: Option<nat>)
      ensures generation == View().GenerationOf(node)
    {
      if node in connections {
        return Some(connections[node].generation);
      }
      generation := None;
    }

    method OpenProbe(node: NodeId, nonce: Nonce)
      modifies this
      ensures View() == old(View()).OpenProbe(node, nonce)
    {
      pendingProbes := pendingProbes[(node, nonce) := Waiting];
    }

    /** A pong answers the probe with its node and nonce and no other. */
    method ResolveProbe(node: NodeId, nonce: Nonce)
      modifies this
      ensures View() == old(View()).ResolveProbe(node, nonce)
      ensures pendingProbes.Keys == old(pendingProbes.Keys)
      ensures forall key :: key in pendingProbes && key != (node, nonce) ==> pendingProbes[key] == old(pendingProbes[key])
    {
      if (node, nonce) in pendingProbes && pendingProbes[(node, nonce)] == Waiting {
        pendingProbes := pendingProbes[(node, nonce) := Answered];
      }
    }

    method CloseProbe(node: NodeId, nonce: Nonce)
      modifies this
      ensures View() == old(View()).CloseProbe(node, nonce)
    {
      pendingProbes := pendingProbes - {(node, nonce)};
    }

    method HasConnection(node: NodeId) returns (held: bool)
      ensures held <==> node in connections
    {
      held := node in connections;
    }

    /** Starts `task`, registers it, and cancels the reaper it displaces. */
    method SetDisconnectReaper(node: NodeId, task: ReaperId)
      modifies this
      ensures View() == old(View()).SetReaper(node, task)
    {
      if node in disconnectReapers {
        liveReapers := liveReapers - {disconnectReapers[node]};
      }
      liveReapers := liveReapers + {task};
      disconnectReapers := disconnectReapers[node := task];
    }

    method CancelDisconnectReaper(node: NodeId)
      modifies this
      ensures View() == old(View()).CancelReaper(node)
    {
      if node in disconnectReapers {
        var task := disconnectReapers[node];
        disconnectReapers := disconnectReapers - {node};
        liveReapers := liveReapers - {task};
      }
    }

    method DiscardDisconnectReaper(node: NodeId, task: ReaperId)
      modifies this
      ensures View() == old(View()).DiscardReaper(node, task)
    {
      if node in disconnectReapers && disconnectReapers[node] == task {
        disconnectReapers := disconnectReapers - {node};
      }
    }
  }
}
