/**
 The classes driven by events: whatever the events, the broker, the registry
 and the socket transport end in the state the run of those events has.
 */
module EventRuns {
  import opened Common
  import Broker
  import BrokerInvariant
  import BrokerSteps
  import BrokerRuns
  import Bridge
  import Topology
  import Registry
  import StudioSockets
  import SocketTransport

  // ---------- The broker ----------

  /** One event is one call. */
  method HandleRequest(b: Bridge.BridgeService, e: Broker.Event)
    requires b.Valid() && b.clock <= e.now
    modifies b
    ensures b.Valid() && b.Abs() == Broker.Apply(old(b.Abs()), e)
  {
    hide BrokerInvariant.Inv, BrokerInvariant.Core, Broker.Admit, Broker.Claim, Broker.EndWaiter, Broker.Observe,
      Broker.Record, Broker.SettleTransport, Broker.Prune, Broker.CleanupOld, Broker.ClearAll, Broker.Register,
      Broker.Unregister, Broker.ClaimCancellation, Broker.ReleaseClaims;
    match e
    case AdmitEvent(id, target, fingerprint, bytes, timeoutMs, now) =>
      var admission := b.AdmitRequest(id, target, fingerprint, bytes, timeoutMs, now);
    case ClaimEvent(t, owner, now) =>
      var id := b.ClaimNextRequestForTransport(t, owner, now);
    case EndEvent(id, how, now) =>
      b.EndRequestWaiter(id, how, now);
    case ProgressEvent(t, id, phase, now) =>
      b.ObserveTransportProgress(t, id, phase, now);
    case ResolveEvent(id, r, now) =>
      var d := b.RecordResponse(id, r, now);
    case SettleEvent(t, id, r, now) =>
      var d := b.SettleTransportResponse(t, id, r, now);
    case StatusEvent(now) =>
      BrokerSteps.InvParts(b.Abs());
      BrokerSteps.PrunedInv(b.Abs(), now);
      b.PruneOperations(now);
    case CleanupEvent(now) =>
      b.CleanupOldRequests(now);
    case ClearEvent(now) =>
      b.ClearAllPendingRequests(now);
    case RegisterEvent(p, t, now) =>
      b.RegisterPeer(p, t);
    case UnregisterEvent(p, now) =>
      b.UnregisterPeer(p, now);
    case ClaimCancellationEvent(t, owner, now) =>
      var id := b.ClaimNextCancellationForTransport(t, owner, now);
    case ReleaseEvent(owner, now) =>
      b.ReleaseDeliveryClaims(owner);
  }

  /** After any timed events the broker is in the state of their run, of which the results over runs speak. */
  method RunBroker(events: seq<Broker.Event>) returns (b: Bridge.BridgeService)
    requires BrokerRuns.Timed(events)
    ensures fresh(b) && b.Valid() && b.Abs() == BrokerRuns.StateAt(events, |events|)
  {
    hide BrokerInvariant.Inv, Broker.Apply, BrokerRuns.Timed;
    b := new Bridge.BridgeService();
    for k := 0 to |events|
      invariant fresh(b) && b.Valid() && b.Abs() == BrokerRuns.StateAt(events, k)
    {
      BrokerRuns.RunKeepsInv(events, k);
      BrokerRuns.NextState(events, k);
      HandleRequest(b, events[k]);
    }
  }

  // ---------- The registry ----------

  method HandlePeers(r: Registry.PeerRegistry, e: Topology.Event)
    requires r.Valid()
    modifies r
    ensures r.Valid() && r.Abs() == Topology.Apply(old(r.Abs()), e)
  {
    hide Topology.Register, Topology.CreateGroup, Topology.RemoveGroup, Topology.Unregister,
      Topology.UnregisterInstance;
    match e
    case RegisterEvent(id, t, i, asked, role) =>
      var registration := r.RegisterPeer(id, t, i, asked, role);
    case CreateEvent(g, controller) =>
      var ok := r.CreateMultiplayerGroup(g, controller);
    case RemoveEvent(g) =>
      var ok := r.RemoveMultiplayerGroup(g);
    case UnregisterEvent(id) =>
      r.UnregisterPeer(id);
    case UnregisterInstanceEvent(i) =>
      r.UnregisterInstanceId(i);
  }

  /** After any events the registry is in the state of their run. */
  method RunRegistry(events: seq<Topology.Event>) returns (r: Registry.PeerRegistry)
    ensures fresh(r) && r.Valid() && r.Abs() == Topology.Run(events)
  {
    hide Topology.Apply;
    r := new Registry.PeerRegistry();
    assert events[..0] == [];
    for k := 0 to |events|
      invariant fresh(r) && r.Valid() && r.Abs() == Topology.Run(events[..k])
    {
      HandlePeers(r, events[k]);
      assert events[..k + 1][..k] == events[..k];
    }
    assert events[..|events|] == events;
  }

  // ---------- The sockets ----------

  method HandleSockets(t: SocketTransport.WebSocketStudioTransport, e: StudioSockets.Event)
    requires t.Valid()
    modifies t
    ensures t.Valid() && t.Abs() == StudioSockets.Apply(old(t.Abs()), e)
  {
    hide StudioSockets.Inv, StudioSockets.Open, StudioSockets.Settled, StudioSockets.Beat, StudioSockets.Pump,
      StudioSockets.Refresh, StudioSockets.CloseSocket, StudioSockets.FinishClose, StudioSockets.Shutdown;
    StudioSockets.StepKeepsInv(t.Abs(), e);
    match e
    case OpenEvent(p, ready, turns) =>
      t.Open(p, ready, turns);
    case SendDoneEvent(g, failed, turns) =>
      if g in t.connections && t.connections[g].inFlight > 0 {
        hide StudioSockets.SendDone;
        t.SendDone(g, failed, turns);
      }
    case SettledEvent(g, id, recorded, turns) =>
      t.Acknowledge(g, id, recorded, turns);
    case BeatEvent(g, dead, turns) =>
      t.Heartbeat(g, dead, turns);
    case AvailableEvent(p, turns) =>
      if p in t.sockets.at {
        t.PumpConnection(t.sockets.at[p], turns);
      }
    case RefreshEvent(p, turns) =>
      t.RefreshStatus(p, turns);
    case RefusedEvent(g) =>
      t.CloseSocket(g, true);
    case ClosedEvent(g) =>
      t.SocketClosed(g);
    case CloseTransportEvent(p) =>
      t.CloseTransport(p);
    case CloseTimerEvent(g) =>
      t.FinishClose(g);
    case ShutdownEvent =>
      t.Close();
  }

  /** After any events the transport is in the state of their run. */
  method RunSockets(events: seq<StudioSockets.Event>) returns (t: SocketTransport.WebSocketStudioTransport)
    ensures fresh(t) && t.Valid() && t.Abs() == StudioSockets.Run(events)
  {
    hide StudioSockets.Apply, StudioSockets.Inv;
    t := new SocketTransport.WebSocketStudioTransport();
    assert events[..0] == [];
    for k := 0 to |events|
      invariant fresh(t) && t.Valid() && t.Abs() == StudioSockets.Run(events[..k])
    {
      HandleSockets(t, events[k]);
      assert events[..k + 1][..k] == events[..k];
    }
    assert events[..|events|] == events;
  }
}
