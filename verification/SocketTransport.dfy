/** The WebSocket transport, its maps and connections updated by event handlers. */
module SocketTransport {
  import opened Common
  import opened OrderedMaps
  import opened StudioSockets

  lemma PumpStops(s: State, g: nat, turns: seq<Turn>)
    requires !IsCurrent(s, g) || s.connections[g].sending || turns == []
    ensures Pump(s, g, turns) == s
  {}

  lemma PumpStep(s: State, g: nat, turns: seq<Turn>)
    requires IsCurrent(s, g) && !s.connections[g].sending && turns != []
    ensures var (frame, c) := NextFrame(s.connections[g], turns[0]);
            Pump(s, g, turns) ==
            if frame.None? then With(s, g, c) else Pump(Send(With(s, g, c), g, frame.value, turns[0].outcome), g,
                turns[1..])
  {
    hide Send, NextFrame;
  }

  lemma CloseEachStep(s: State, gs: seq<nat>, k: nat)
    requires k < |gs|
    ensures CloseEach(s, gs[..k + 1]) == CloseSocket(CloseEach(s, gs[..k]), gs[k], true)
  {
    assert gs[..k + 1][..k] == gs[..k];
    hide CloseSocket;
  }

  lemma CloseNone(s: State)
    ensures CloseEach(s, []) == s
  {}

  lemma SocketsAre(s: State)
    requires Inv(s)
    ensures s.sockets.Valid() && (forall t :: t in s.sockets.at ==> s.sockets.at[t] in s.connections)
  {
    hide SoundConnection;
  }

  class WebSocketStudioTransport {
    var sockets: OMap<PeerId, nat>
    var connections: map<nat, Connection>
    var closing: seq<nat>
    var nextGeneration: nat
    var closed: bool
    var owners: map<PeerId, set<nat>>
    ghost var lost: seq<PeerId>
    ghost var log: seq<Entry>

    ghost function Abs(): State
      reads this
    {
      State(sockets, connections, closing, nextGeneration, closed, owners, lost, log)
    }

    ghost predicate Valid()
      reads this
    {
      Inv(Abs())
    }

    constructor ()
      ensures Valid() && Abs() == EMPTY
    {
      sockets, connections, closing := OMap([], map[]), map[], [];
      nextGeneration, closed, owners, lost, log := 1, false, map[], [], [];
    }

    predicate Current(g: nat)
      reads this
      ensures Current(g) <==> IsCurrent(Abs(), g)
    {
      && g in connections && !connections[g].closed
      && connections[g].transport in sockets.at && sockets.at[connections[g].transport] == g
    }

    method SetDeliveryActive(t: PeerId, g: nat, active: bool)
      modifies this`owners, this`lost
      ensures Abs() == SetActive(old(Abs()), t, g, active)
    {
      if active {
        owners := owners[t := (if t in owners then owners[t] else {}) + {g}];
        return;
      }
      if t !in owners {
        return;
      }
      owners := owners[t := owners[t] - {g}];
      if owners[t] == {} {
        owners := owners - {t};
        lost := lost + [t];
      }
      assert old(owners)[t := old(owners)[t] - {g}] - {t} == old(owners) - {t};
    }

    method FinishClose(g: nat)
      modifies this`closing
      ensures Abs() == StudioSockets.FinishClose(old(Abs()), g)
    {
      closing := Without(closing, {g});
    }

    method CloseSocket(g: nat, coded: bool)
      modifies this
      ensures Abs() == StudioSockets.CloseSocket(old(Abs()), g, coded)
    {
      if g !in connections || connections[g].closed {
        return;
      }
      var t := connections[g].transport;
      connections := connections[g := connections[g].(closed := true, acknowledgements := [])];
      if t in sockets.at && sockets.at[t] == g {
        sockets := sockets.Delete(t);
      }
      assert Abs() == Closed(old(Abs()), g);
      hide Closed, Without, SetActive;
      SetDeliveryActive(t, g, false);
      if coded {
        closing := closing + [g];
        if |closing| > MAX_ACTIVE_STUDIO_SOCKETS {
          FinishClose(closing[0]);
        }
      }
    }

    method SendFrame(g: nat, frame: Frame, outcome: Outcome)
      requires g in connections
      modifies this
      ensures Abs() == Send(old(Abs()), g, frame, outcome)
    {
      hide StudioSockets.CloseSocket;
      if outcome == Unserializable || outcome == TooLarge {
        if !frame.Request? {
          CloseSocket(g, true);
        }
        return;
      }
      if outcome == Backpressure {
        CloseSocket(g, true);
        return;
      }
      if outcome == Threw {
        connections := connections[g := connections[g].(sending := true)];
        CloseSocket(g, true);
      } else {
        connections := connections[g := connections[g].(sending := true, inFlight := connections[g].inFlight + 1)];
        log := log + [Sent(g, frame)];
      }
    }

    /** Sends acknowledgements, the status, cancellations, requests and the heartbeat in this order, one frame at a
        time. */
    method PumpConnection(g: nat, turns: seq<Turn>)
      modifies this
      ensures Abs() == Pump(old(Abs()), g, turns)
    {
      hide Pump, Send;
      var k := 0;
      while Current(g) && !connections[g].sending && k < |turns|
        invariant k <= |turns| && Pump(Abs(), g, turns[k..]) == Pump(old(Abs()), g, turns)
        decreases |turns| - k
      {
        var turn := turns[k];
        PumpStep(Abs(), g, turns[k..]);
        assert turns[k..][1..] == turns[k + 1..];
        ghost var s := Abs();
        var frame := None;
        if connections[g].acknowledgements != [] {
          frame := Some(Frame.Ack(connections[g].acknowledgements[0]));
          connections := connections[g := connections[g].(acknowledgements := connections[g].acknowledgements[1..])];
        } else {
          if connections[g].statusPending {
            connections := connections[g := connections[g].(statusPending := false)];
            if turn.statusChanged {
              frame := Some(Frame.Status);
            }
          }
          if frame.None? {
            if turn.cancellation {
              frame := Some(Frame.Cancel);
            } else if turn.request {
              frame := Some(Frame.Request);
            } else if connections[g].heartbeatPending {
              connections := connections[g := connections[g].(heartbeatPending := false)];
              frame := Some(Frame.Heartbeat);
            }
          }
        }
        TookFrame(s, g, turn, connections);
        if frame.None? {
          return;
        }
        SendFrame(g, frame.value, turn.outcome);
        k := k + 1;
      }
      PumpStops(Abs(), g, turns[k..]);
    }

    /** Activates the new owner before the one it replaces is closed. */
    method Open(t: PeerId, ready: bool, turns: seq<Turn>)
      requires Valid()
      modifies this
      ensures Valid() && Abs() == StudioSockets.Open(old(Abs()), t, ready, turns)
    {
      hide Inv, Pump, SetActive, StudioSockets.CloseSocket;
      OpenKeeps(Abs(), t, ready, turns);
      if closed || (t !in sockets.at && |sockets.order| >= MAX_ACTIVE_STUDIO_SOCKETS) || !ready {
        return;
      }
      var g := nextGeneration;
      nextGeneration := nextGeneration + 1;
      connections := connections[g := Connection(t, false, false, true, false, [], 0)];
      SetDeliveryActive(t, g, true);
      ReplacingLeaves(Abs(), t, g);
      if t in sockets.at {
        CloseSocket(sockets.at[t], true);
      }
      sockets := sockets.Set(t, g);
      PumpConnection(g, turns);
    }

    /** The callback of a sent frame. */
    method SendDone(g: nat, failed: bool, turns: seq<Turn>)
      requires Valid() && g in connections && connections[g].inFlight > 0
      modifies this
      ensures Valid() && Abs() == StudioSockets.SendDone(old(Abs()), g, failed, turns)
    {
      hide Inv, Pump, StudioSockets.CloseSocket;
      SendDoneKeeps(Abs(), g, failed, turns);
      var current := Current(g);
      connections := connections[g := connections[g].(inFlight := connections[g].inFlight - 1)];
      if !current {
        return;
      }
      connections := connections[g := connections[g].(sending := false)];
      TwoChanges(old(connections), g);
      if failed {
        CloseSocket(g, true);
      } else {
        PumpConnection(g, turns);
      }
    }

    /** A response settled by the queue is acknowledged. */
    method Acknowledge(g: nat, id: RequestId, recorded: bool, turns: seq<Turn>)
      requires Valid()
      modifies this
      ensures Valid() && Abs() == Settled(old(Abs()), g, id, recorded, turns)
    {
      hide Inv, Pump, StudioSockets.CloseSocket;
      SettledKeeps(Abs(), g, id, recorded, turns);
      if !Current(g) {
        return;
      }
      if !recorded {
        CloseSocket(g, true);
        return;
      }
      if id !in connections[g].acknowledgements {
        if |connections[g].acknowledgements| >= MAX_PENDING_ACKS {
          CloseSocket(g, true);
          return;
        }
        connections := connections[g := connections[g].(acknowledgements := connections[g].acknowledgements + [id])];
      }
      assert connections == old(connections)[g := AddAck(old(connections[g]), id)];
      log := log + [Recorded(g, id)];
      PumpConnection(g, turns);
    }

    method Heartbeat(g: nat, dead: bool, turns: seq<Turn>)
      requires Valid()
      modifies this
      ensures Valid() && Abs() == Beat(old(Abs()), g, dead, turns)
    {
      hide Inv, Pump, StudioSockets.CloseSocket;
      BeatKeeps(Abs(), g, dead, turns);
      if !Current(g) {
        return;
      }
      if dead {
        CloseSocket(g, true);
        return;
      }
      connections := connections[g := connections[g].(statusPending := true, heartbeatPending := true)];
      PumpConnection(g, turns);
    }

    method RefreshStatus(t: PeerId, turns: seq<Turn>)
      requires Valid()
      modifies this
      ensures Valid() && Abs() == Refresh(old(Abs()), t, turns)
    {
      hide Inv, Pump;
      RefreshKeeps(Abs(), t, turns);
      SocketsAre(Abs());
      if t in sockets.at {
        var g := sockets.at[t];
        connections := connections[g := connections[g].(statusPending := true)];
        PumpConnection(g, turns);
      }
    }

    /** onClose */
    method SocketClosed(g: nat)
      requires Valid()
      modifies this
      ensures Valid() && Abs() == StudioSockets.FinishClose(StudioSockets.CloseSocket(old(Abs()), g, false), g)
    {
      hide Inv, StudioSockets.CloseSocket;
      CloseKeeps(Abs(), g, false);
      CloseSocket(g, false);
      FinishCloseKeeps(Abs(), g);
      FinishClose(g);
    }

    method CloseTransport(t: PeerId)
      requires Valid()
      modifies this
      ensures Valid() && Abs() == Apply(old(Abs()), CloseTransportEvent(t))
    {
      hide Inv, StudioSockets.CloseSocket;
      if t in sockets.at {
        CloseKeeps(Abs(), sockets.at[t], true);
        CloseSocket(sockets.at[t], true);
      }
    }

    method Close()
      requires Valid()
      modifies this
      ensures Valid() && Abs() == Shutdown(old(Abs())) && sockets.order == []
    {
      hide Inv, StudioSockets.CloseSocket, CloseEach;
      ghost var s := Abs();
      ShutdownClosesAll(s);
      CurrentAre(s);
      SocketsAre(s);
      closed := true;
      ghost var s1 := Abs();
      var order, at := sockets.order, sockets.at;
      ghost var gs := StudioSockets.Current(sockets);
      CloseNone(s1);
      for k := 0 to |order|
        invariant Abs() == CloseEach(s1, gs[..k])
      {
        CloseEachStep(s1, gs, k);
        CloseSocket(at[order[k]], true);
      }
      assert gs[..|order|] == gs;
    }
  }

  lemma TwoChanges(connections: map<nat, Connection>, g: nat)
    requires g in connections && connections[g].inFlight > 0
    ensures var c := connections[g].(inFlight := connections[g].inFlight - 1);
            connections[g := c][g := c.(sending := false)] == connections[g := c.(sending := false)]
  {}

  lemma TookFrame(s: State, g: nat, turn: Turn, connections: map<nat, Connection>)
    requires g in s.connections
    requires connections == s.connections[g := NextFrame(s.connections[g], turn).1]
    ensures s.(connections := connections) == With(s, g, NextFrame(s.connections[g], turn).1)
  {}

  lemma ReplacingLeaves(s: State, t: PeerId, g: nat)
    ensures t in s.sockets.at ==> StudioSockets.CloseSocket(s, s.sockets.at[t], true).next == s.next
  {
    hide Without;
  }
}
