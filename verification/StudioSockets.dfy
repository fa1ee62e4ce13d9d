/**
 The WebSocket side of Studio delivery: one current socket per transport, one
 frame in flight per socket. A connection's generation is its identity and its
 claim owner. What the queue and the socket answer during a pump is given by a
 sequence of turns.
 */
module StudioSockets {
  import opened Common
  import opened OrderedMaps

  datatype RequestId = RequestId(text: string)

  const MAX_ACTIVE_STUDIO_SOCKETS := 64
  const MAX_PENDING_ACKS := 128

  /** `inFlight` counts the frames whose send callback has not run. */
  datatype Connection = Connection(
    transport: PeerId, closed: bool, sending: bool, statusPending: bool, heartbeatPending: bool,
    acknowledgements: seq<RequestId>, inFlight: nat)

  datatype Frame = Ack(id: RequestId) | Status | Cancel | Request | Heartbeat

  /** What happened on a connection: a response was recorded, or a frame was put on the wire. */
  datatype Entry = Recorded(g: nat, id: RequestId) | Sent(g: nat, frame: Frame)

  /** `owners` is the queue's record of delivery owners; `lost` the transports whose connection it marked lost, in
      order. `log` only remembers. */
  datatype State = State(
    sockets: OMap<PeerId, nat>, connections: map<nat, Connection>, closing: seq<nat>, next: nat, shut: bool,
    owners: map<PeerId, set<nat>>, lost: seq<PeerId>, log: seq<Entry>)

  const EMPTY := State(OMap([], map[]), map[], [], 1, false, map[], [], [])

  function With(s: State, g: nat, c: Connection): State {
    s.(connections := s.connections[g := c])
  }

  predicate IsCurrent(s: State, g: nat) {
    && g in s.connections && !s.connections[g].closed
    && s.connections[g].transport in s.sockets.at && s.sockets.at[s.connections[g].transport] == g
  }

  /** setDeliveryActive: the connection is marked lost when the last owner goes. */
  function SetActive(s: State, t: PeerId, g: nat, active: bool): State {
    if active then s.(owners := s.owners[t := (if t in s.owners then s.owners[t] else {}) + {g}])
    else if t !in s.owners then s
    else if s.owners[t] - {g} == {} then s.(owners := s.owners - {t}, lost := s.lost + [t])
    else s.(owners := s.owners[t := s.owners[t] - {g}])
  }

  function FinishClose(s: State, g: nat): State {
    s.(closing := Without(s.closing, {g}))
  }

  /** A close with a code waits for the peer's close among at most 64 others. */
  function AddClosing(s: State, g: nat): State {
    var added := s.(closing := s.closing + [g]);
    if |added.closing| > MAX_ACTIVE_STUDIO_SOCKETS then FinishClose(added, added.closing[0]) else added
  }

  function Closed(s: State, g: nat): State
    requires g in s.connections
  {
    var t := s.connections[g].transport;
    s.(connections := s.connections[g := s.connections[g].(closed := true, acknowledgements := [])],
       sockets := if t in s.sockets.at && s.sockets.at[t] == g then s.sockets.Delete(t) else s.sockets)
  }

  function CloseSocket(s: State, g: nat, coded: bool): State {
    if g !in s.connections || s.connections[g].closed then s else
    var inactive := SetActive(Closed(s, g), s.connections[g].transport, g, false);
    if coded then AddClosing(inactive, g) else inactive
  }

  // ---------- Sending ----------

  datatype Outcome = OnWire | Unserializable | TooLarge | Backpressure | Threw

  /** A request that cannot be framed is settled as failed; anything else that cannot be framed closes the socket. */
  function Send(s: State, g: nat, frame: Frame, outcome: Outcome): State
    requires g in s.connections
  {
    match outcome
    case OnWire =>
      With(s, g, s.connections[g].(sending := true, inFlight := s.connections[g].inFlight + 1))
      .(log := s.log + [Sent(g, frame)])
    case Unserializable => if frame.Request? then s else CloseSocket(s, g, true)
    case TooLarge => if frame.Request? then s else CloseSocket(s, g, true)
    case Backpressure => CloseSocket(s, g, true)
    case Threw => CloseSocket(With(s, g, s.connections[g].(sending := true)), g, true)
  }

  /** One turn of the pump: what the queue has for the transport and what becomes of the frame. */
  datatype Turn = Turn(statusChanged: bool, cancellation: bool, request: bool, outcome: Outcome)

  /** The next frame and the connection without what it came from. */
  function NextFrame(c: Connection, turn: Turn): (Option<Frame>, Connection) {
    if c.acknowledgements != [] then (Some(Ack(c.acknowledgements[0])), c.(acknowledgements := c.acknowledgements[1..]))
    else
      var c1 := c.(statusPending := false);
      if c.statusPending && turn.statusChanged then (Some(Status), c1)
      else if turn.cancellation then (Some(Cancel), c1)
      else if turn.request then (Some(Request), c1)
      else if c.heartbeatPending then (Some(Heartbeat), c1.(heartbeatPending := false))
      else (None, c1)
  }

  function PumpOnce(s: State, g: nat, turn: Turn): (State, bool)
    requires g in s.connections
  {
    var (frame, c) := NextFrame(s.connections[g], turn);
    var taken := With(s, g, c);
    if frame.None? then (taken, false) else (Send(taken, g, frame.value, turn.outcome), true)
  }

  function Pump(s: State, g: nat, turns: seq<Turn>): State
    decreases |turns|
  {
    if !IsCurrent(s, g) || s.connections[g].sending || turns == [] then s else
    var (after, more) := PumpOnce(s, g, turns[0]);
    if more then Pump(after, g, turns[1..]) else after
  }

  // ---------- Events ----------

  predicate CanOpen(s: State, t: PeerId) {
    !s.shut && (t in s.sockets.at || |s.sockets.order| < MAX_ACTIVE_STUDIO_SOCKETS)
  }

  /** The new owner is active before the old one is released. */
  function Replace(s: State, t: PeerId): State {
    var g := s.next;
    var s1 := s.(next := g + 1, connections := s.connections[g := Connection(t, false, false, true, false, [], 0)]);
    var s2 := SetActive(s1, t, g, true);
    var s3 := if t in s.sockets.at then CloseSocket(s2, s.sockets.at[t], true) else s2;
    s3.(sockets := s3.sockets.Set(t, g))
  }

  function Open(s: State, t: PeerId, ready: bool, turns: seq<Turn>): State {
    if !CanOpen(s, t) || !ready then s else Pump(Replace(s, t), s.next, turns)
  }

  /** The callback of a frame: only a current connection goes on. */
  function SendDone(s: State, g: nat, failed: bool, turns: seq<Turn>): State {
    if g !in s.connections || s.connections[g].inFlight == 0 then s else
    var landed := s.connections[g].(inFlight := s.connections[g].inFlight - 1);
    if !IsCurrent(s, g) then With(s, g, landed) else
    var free := With(s, g, landed.(sending := false));
    if failed then CloseSocket(free, g, true) else Pump(free, g, turns)
  }

  function AddAck(c: Connection, id: RequestId): Connection {
    if id in c.acknowledgements then c else c.(acknowledgements := c.acknowledgements + [id])
  }

  function Acknowledging(s: State, g: nat, id: RequestId): State
    requires g in s.connections
  {
    With(s, g, AddAck(s.connections[g], id)).(log := s.log + [Recorded(g, id)])
  }

  /** A response was settled and is acknowledged, unless 128 acknowledgements wait or recording it failed. */
  function Settled(s: State, g: nat, id: RequestId, recorded: bool, turns: seq<Turn>): State {
    if !IsCurrent(s, g) then s
    else if !recorded then CloseSocket(s, g, true)
    else if id !in s.connections[g].acknowledgements && |s.connections[g].acknowledgements| >= MAX_PENDING_ACKS
    then CloseSocket(s, g, true)
    else Pump(Acknowledging(s, g, id), g, turns)
  }

  function Beat(s: State, g: nat, dead: bool, turns: seq<Turn>): State {
    if !IsCurrent(s, g) then s
    else if dead then CloseSocket(s, g, true)
    else Pump(With(s, g, s.connections[g].(statusPending := true, heartbeatPending := true)), g, turns)
  }

  function Refresh(s: State, t: PeerId, turns: seq<Turn>): State {
    if t !in s.sockets.at || s.sockets.at[t] !in s.connections then s else
    var g := s.sockets.at[t];
    Pump(With(s, g, s.connections[g].(statusPending := true)), g, turns)
  }

  function CloseEach(s: State, gs: seq<nat>): State {
    if gs == [] then s else CloseSocket(CloseEach(s, gs[..|gs| - 1]), gs[|gs| - 1], true)
  }

  function Current(sockets: OMap<PeerId, nat>): seq<nat>
    requires forall t :: t in sockets.order ==> t in sockets.at
  {
    seq(|sockets.order|, i requires 0 <= i < |sockets.order| => sockets.at[sockets.order[i]])
  }

  function Shutdown(s: State): State {
    if exists t :: t in s.sockets.order && t !in s.sockets.at then s
        else CloseEach(s.(shut := true), Current(s.sockets))
  }

  datatype Event =
    | OpenEvent(transport: PeerId, ready: bool, turns: seq<Turn>)
    | SendDoneEvent(g: nat, failed: bool, turns: seq<Turn>)
    | SettledEvent(g: nat, id: RequestId, recorded: bool, turns: seq<Turn>)
    | BeatEvent(g: nat, dead: bool, turns: seq<Turn>)
    | AvailableEvent(transport: PeerId, turns: seq<Turn>)
    | RefreshEvent(transport: PeerId, turns: seq<Turn>)
    | RefusedEvent(g: nat)
    | ClosedEvent(g: nat)
    | CloseTransportEvent(transport: PeerId)
    | CloseTimerEvent(g: nat)
    | ShutdownEvent

  function Apply(s: State, e: Event): State {
    match e
    case OpenEvent(t, ready, turns) => Open(s, t, ready, turns)
    case SendDoneEvent(g, failed, turns) => SendDone(s, g, failed, turns)
    case SettledEvent(g, id, recorded, turns) => Settled(s, g, id, recorded, turns)
    case BeatEvent(g, dead, turns) => Beat(s, g, dead, turns)
    case AvailableEvent(t, turns) => if t in s.sockets.at then Pump(s, s.sockets.at[t], turns) else s
    case RefreshEvent(t, turns) => Refresh(s, t, turns)
    case RefusedEvent(g) => CloseSocket(s, g, true)
    case ClosedEvent(g) => FinishClose(CloseSocket(s, g, false), g)
    case CloseTransportEvent(t) => if t in s.sockets.at then CloseSocket(s, s.sockets.at[t], true) else s
    case CloseTimerEvent(g) => FinishClose(s, g)
    case ShutdownEvent => Shutdown(s)
  }

  function Run(events: seq<Event>): State {
    if events == [] then EMPTY else Apply(Run(events[..|events| - 1]), events[|events| - 1])
  }

  // ---------- The invariant ----------

  /** An open connection waits for the callback of its one frame exactly while it is sending. */
  predicate SoundConnection(c: Connection) {
    && NoDup(c.acknowledgements) && |c.acknowledgements| <= MAX_PENDING_ACKS && c.inFlight <= 1
    && (c.closed ==> c.acknowledgements == [])
    && (!c.closed ==> (c.sending <==> c.inFlight == 1))
  }

  /** The open connections are exactly the current ones. */
  ghost predicate Linked(s: State) {
    && s.sockets.Valid() && |s.sockets.order| <= MAX_ACTIVE_STUDIO_SOCKETS
    && (forall g :: g in s.connections ==> g < s.next && SoundConnection(s.connections[g]))
    && (forall t :: t in s.sockets.at ==>
          (s.sockets.at[t] in s.connections && s.connections[s.sockets.at[t]].transport == t
              && !s.connections[s.sockets.at[t]].closed))
    && (forall g :: g in s.connections && !s.connections[g].closed ==> IsCurrent(s, g))
  }

  /** A transport's one delivery owner is its current connection. */
  ghost predicate Owned(s: State) {
    && (forall t :: t in s.owners <==> t in s.sockets.at)
    && (forall t :: t in s.owners ==> s.owners[t] == {s.sockets.at[t]})
  }

  ghost predicate ClosingSound(s: State) {
    && NoDup(s.closing) && |s.closing| <= MAX_ACTIVE_STUDIO_SOCKETS
    && (forall g :: g in s.closing ==> g in s.connections && s.connections[g].closed)
  }

  ghost predicate Inv(s: State) {
    Linked(s) && Owned(s) && ClosingSound(s)
  }

  predicate IsOpen(s: State, g: nat) {
    g in s.connections && !s.connections[g].closed
  }

  lemma FinishCloseKeeps(s: State, g: nat)
    requires Inv(s)
    ensures Inv(FinishClose(s, g)) && FinishClose(s, g) == s.(closing := FinishClose(s, g).closing)
  {
    WithoutMembers(s.closing, {g});
    WithoutNoDup(s.closing, {g});
    hide Without, SoundConnection;
  }

  lemma SocketsWithout(sockets: OMap<PeerId, nat>, t: PeerId)
    requires sockets.Valid()
    ensures var m := sockets.Delete(t);
            && m.Valid() && |m.order| <= |sockets.order| && (forall u :: u in m.at <==> u in sockets.at && u != t)
            && (forall u :: u in m.at ==> m.at[u] == sockets.at[u])
  {
    DeleteAllValid(sockets, {t});
    WithoutMembers(sockets.order, {t});
    hide NoDup, Without;
  }

  lemma LinkedWithout(s: State, g: nat, c: Connection, s': State)
    requires Linked(s) && IsOpen(s, g) && c.closed && SoundConnection(c)
    requires s'.connections == s.connections[g := c] && s'.next == s.next
    requires s'.sockets == s.sockets.Delete(s.connections[g].transport)
    ensures Linked(s')
  {
    hide SoundConnection, NoDup, Without;
    SocketsWithout(s.sockets, s.connections[g].transport);
    forall k | k in s'.connections && !s'.connections[k].closed ensures IsCurrent(s', k) {
      assert IsCurrent(s, k) && IsCurrent(s, g);
    }
  }

  lemma ClosedLinked(s: State, g: nat)
    requires Linked(s) && IsOpen(s, g)
    ensures Linked(Closed(s, g)) && Closed(s, g).sockets == s.sockets.Delete(s.connections[g].transport)
    ensures IsCurrent(s, g)
  {
    assert IsCurrent(s, g);
    var c := s.connections[g].(closed := true, acknowledgements := []);
    assert SoundConnection(s.connections[g]) && SoundConnection(c);
    hide Linked, SoundConnection, Without, NoDup;
    LinkedWithout(s, g, c, Closed(s, g));
  }

  lemma AddClosingKeeps(s: State, g: nat)
    requires ClosingSound(s) && g in s.connections && s.connections[g].closed && g !in s.closing
    ensures ClosingSound(AddClosing(s, g)) && AddClosing(s, g) == s.(closing := AddClosing(s, g).closing)
  {
    var all := s.closing + [g];
    if |all| > MAX_ACTIVE_STUDIO_SOCKETS {
      var first := all[0];
      assert NoDup(all) && first in all;
      WithoutOneLength(all, first);
      WithoutMembers(all, {first});
      WithoutNoDup(all, {first});
    }
    hide Without;
  }

  lemma InactiveOwned(s: State, g: nat)
    requires Owned(s) && Linked(s) && IsOpen(s, g)
    ensures var t := s.connections[g].transport;
            var i := SetActive(Closed(s, g), t, g, false);
            i == Closed(s, g).(owners := s.owners - {t}, lost := s.lost + [t]) && Owned(i)
  {
    ClosedLinked(s, g);
    hide Linked, NoDup, Without;
  }

  /** Closing a current connection takes its socket and its ownership, and marks the transport lost once. */
  lemma {:induction false} CloseKeeps(s: State, g: nat, coded: bool)
    requires Inv(s)
    ensures Inv(CloseSocket(s, g, coded))
    ensures IsOpen(s, g) ==>
              && CloseSocket(s, g, coded).lost == s.lost + [s.connections[g].transport]
              && CloseSocket(s, g, coded).sockets == s.sockets.Delete(s.connections[g].transport)
    ensures !IsOpen(s, g) ==> CloseSocket(s, g, coded) == s
    ensures !IsOpen(CloseSocket(s, g, coded), g)
  {
    if IsOpen(s, g) {
      var t := s.connections[g].transport;
      var i := SetActive(Closed(s, g), t, g, false);
      assert CloseSocket(s, g, coded) == if coded then AddClosing(i, g) else i;
      ClosedLinked(s, g);
      InactiveOwned(s, g);
      assert i.connections == s.connections[g := i.connections[g]] && i.connections[g].closed && i.closing == s.closing;
      assert ClosingSound(i) && g !in i.closing;
      hide SetActive, Closed, AddClosing, ClosingSound, SoundConnection, NoDup, CloseSocket;
      assert Linked(i) by { LinkedSame(Closed(s, g), i); }
      hide Linked, Owned;
      if coded {
        AddClosingKeeps(i, g);
        LinkedSame(i, AddClosing(i, g));
        OwnedSame(i, AddClosing(i, g));
      }
    }
  }

  lemma LinkedSame(s: State, s': State)
    requires Linked(s) && s'.sockets == s.sockets && s'.connections == s.connections && s'.next == s.next
    ensures Linked(s')
  {
    hide SoundConnection, NoDup;
    forall g | g in s'.connections && !s'.connections[g].closed ensures IsCurrent(s', g) {
      assert IsCurrent(s, g);
    }
  }

  lemma OwnedSame(s: State, s': State)
    requires Owned(s) && s'.sockets == s.sockets && s'.owners == s.owners
    ensures Owned(s')
  {}

  // ---------- Changing one connection ----------

  /** A change to one connection that leaves its transport and its end alone. */
  predicate SameEnd(c: Connection, c': Connection) {
    c'.transport == c.transport && c'.closed == c.closed && SoundConnection(c')
  }

  lemma ChangeKeeps(s: State, g: nat, c: Connection)
    requires Inv(s) && g in s.connections && SameEnd(s.connections[g], c)
    ensures Inv(With(s, g, c))
    ensures forall k :: IsCurrent(s, k) <==> IsCurrent(With(s, g, c), k)
  {
    var s' := With(s, g, c);
    assert Linked(s') by {
      hide SoundConnection, NoDup;
      forall k | k in s'.connections && !s'.connections[k].closed ensures IsCurrent(s', k) {
        assert IsCurrent(s, k);
      }
    }
    hide Linked, NoDup, SoundConnection;
    OwnedSame(s, s');
  }

  lemma WithSetActive(s: State, g: nat, c: Connection, t: PeerId)
    ensures SetActive(With(s, g, c), t, g, false) == With(SetActive(s, t, g, false), g, c)
  {}

  lemma WithAddClosing(s: State, g: nat, c: Connection)
    ensures AddClosing(With(s, g, c), g) == With(AddClosing(s, g), g, c)
  {
    hide Without;
  }

  lemma ThrownClose(s: State, g: nat)
    requires Inv(s) && IsOpen(s, g)
    ensures var r := CloseSocket(s, g, true);
            var s1 := With(s, g, s.connections[g].(sending := true));
            g in r.connections && CloseSocket(s1, g, true) == With(r, g, r.connections[g].(sending := true))
  {
    var t := s.connections[g].transport;
    var s1 := With(s, g, s.connections[g].(sending := true));
    var c := Closed(s, g).connections[g].(sending := true);
    assert Closed(s1, g) == With(Closed(s, g), g, c);
    var inactive := SetActive(Closed(s, g), t, g, false);
    assert inactive.connections == Closed(s, g).connections
        && AddClosing(inactive, g).connections == inactive.connections;
    hide Inv, SetActive, AddClosing, Closed;
    WithSetActive(Closed(s, g), g, c, t);
    WithAddClosing(inactive, g, c);
  }

  lemma ThrewKeeps(s: State, g: nat)
    requires Inv(s) && IsOpen(s, g)
    ensures Inv(CloseSocket(With(s, g, s.connections[g].(sending := true)), g, true))
  {
    ThrownClose(s, g);
    var r := CloseSocket(s, g, true);
    hide Inv, CloseSocket, With;
    CloseKeeps(s, g, true);
    OneSound(r, g);
    ChangeKeeps(r, g, r.connections[g].(sending := true));
  }

  lemma LoggedKeeps(s: State, log: seq<Entry>)
    requires Inv(s)
    ensures Inv(s.(log := log))
  {
    LinkedSame(s, s.(log := log));
    OwnedSame(s, s.(log := log));
    hide Linked, Owned, NoDup;
  }

  lemma SendKeeps(s: State, g: nat, frame: Frame, outcome: Outcome)
    requires Inv(s) && IsCurrent(s, g) && !s.connections[g].sending
    ensures Inv(Send(s, g, frame, outcome))
  {
    hide Inv, CloseSocket, With;
    OneSound(s, g);
    if outcome.OnWire? {
      var c := s.connections[g];
      ChangeKeeps(s, g, c.(sending := true, inFlight := c.inFlight + 1));
      LoggedKeeps(With(s, g, c.(sending := true, inFlight := c.inFlight + 1)), s.log + [Sent(g, frame)]);
    } else if outcome.Threw? {
      ThrewKeeps(s, g);
    } else {
      CloseKeeps(s, g, true);
    }
  }

  lemma OneSound(s: State, g: nat)
    requires Inv(s) && g in s.connections
    ensures SoundConnection(s.connections[g])
  {}

  lemma NextFrameSound(c: Connection, turn: Turn)
    requires SoundConnection(c)
    ensures SameEnd(c, NextFrame(c, turn).1) && NextFrame(c, turn).1.sending == c.sending
  {}

  lemma {:induction false} PumpKeeps(s: State, g: nat, turns: seq<Turn>)
    requires Inv(s)
    ensures Inv(Pump(s, g, turns))
    decreases |turns|
  {
    if IsCurrent(s, g) && !s.connections[g].sending && turns != [] {
      var (frame, c) := NextFrame(s.connections[g], turns[0]);
      var taken := With(s, g, c);
      OneSound(s, g);
      NextFrameSound(s.connections[g], turns[0]);
      hide Inv, Send, NextFrame, SameEnd, SoundConnection;
      ChangeKeeps(s, g, c);
      if frame.Some? {
        SendKeeps(taken, g, frame.value, turns[0].outcome);
        PumpKeeps(Send(taken, g, frame.value, turns[0].outcome), g, turns[1..]);
      }
    }
  }

  // ---------- Replacing a socket ----------

  lemma LinkedPlus(s: State, g: nat, c: Connection, s': State)
    requires Linked(s) && g >= s.next && SoundConnection(c) && !c.closed
    requires c.transport !in s.sockets.at && |s.sockets.order| < MAX_ACTIVE_STUDIO_SOCKETS
    requires s'.connections == s.connections[g := c] && s'.sockets == s.sockets.Set(c.transport, g) && s'.next == g + 1
    ensures Linked(s')
  {
    assert SoundConnection(c) && g !in s.connections;
    hide SoundConnection, NoDup;
    SetValid(s.sockets, c.transport, g);
    forall k | k in s'.connections && !s'.connections[k].closed ensures IsCurrent(s', k) {
      if k != g {
        assert IsCurrent(s, k);
      }
    }
  }

  function Fresh(t: PeerId): Connection {
    Connection(t, false, false, true, false, [], 0)
  }

  lemma PriorSocket(s: State, t: PeerId)
    requires Inv(s) && t in s.sockets.at
    ensures var prior := s.sockets.at[t];
            && IsOpen(s, prior) && s.connections[prior].transport == t && prior < s.next && prior !in s.closing
            && t in s.owners && s.owners[t] == {prior}
    ensures s.next !in s.connections && s.sockets.Valid() && |s.sockets.order| <= MAX_ACTIVE_STUDIO_SOCKETS
    ensures Linked(s) && Owned(s) && ClosingSound(s)
  {
    hide SoundConnection, NoDup;
  }

  /** What replacing does: the transport is never without an owner, so it is not marked lost. */
  lemma ReplacedShape(s: State, t: PeerId)
    requires t in s.sockets.at && IsOpen(s, s.sockets.at[t]) && s.connections[s.sockets.at[t]].transport == t
    requires s.sockets.at[t] < s.next && t in s.owners && s.owners[t] == {s.sockets.at[t]}
    ensures var (s', prior) := (Replace(s, t), s.sockets.at[t]);
            && s'.next == s.next + 1 && s'.lost == s.lost && s'.owners == s.owners[t := {s.next}]
            && s'.connections == Closed(s, prior).connections[s.next := Fresh(t)]
            && s'.sockets == Closed(s, prior).sockets.Set(t, s.next)
            && s'.closing == AddClosing(Closed(s, prior), prior).closing
  {
    var g, prior := s.next, s.sockets.at[t];
    var s1 := s.(next := g + 1, connections := s.connections[g := Fresh(t)]);
    var s2 := SetActive(s1, t, g, true);
    assert {prior} + {g} - {prior} == {g};
    hide Without;
    var i := SetActive(Closed(s2, prior), t, prior, false);
    assert i.owners == s.owners[t := {g}] && i.lost == s.lost && i.closing == s.closing;
    assert CloseSocket(s2, prior, true) == AddClosing(i, prior);
    assert s.connections[g := Fresh(t)][prior := Closed(s, prior).connections[prior]] ==
        Closed(s, prior).connections[g := Fresh(t)];
  }

  lemma ReplacedLinked(s: State, t: PeerId, s': State)
    requires Linked(s) && t in s.sockets.at && IsOpen(s, s.sockets.at[t])
        && s.connections[s.sockets.at[t]].transport == t
    requires s'.next == s.next + 1 && s'.connections == Closed(s, s.sockets.at[t]).connections[s.next := Fresh(t)]
    requires s'.sockets == Closed(s, s.sockets.at[t]).sockets.Set(t, s.next)
    ensures Linked(s') && s'.sockets.at == s.sockets.at[t := s.next]
  {
    var prior := s.sockets.at[t];
    ClosedLinked(s, prior);
    assert s.sockets.Valid() && |s.sockets.order| <= MAX_ACTIVE_STUDIO_SOCKETS;
    assert SoundConnection(Fresh(t)) && Closed(s, prior).next == s.next;
    hide Linked, SoundConnection, NoDup, Without, Closed;
    SizeWithout(s.sockets, t);
    SocketsWithout(s.sockets, t);
    assert s'.sockets.at == s.sockets.at[t := s.next];
    LinkedPlus(Closed(s, prior), s.next, Fresh(t), s');
  }

  lemma ReplacedKeeps(s: State, t: PeerId)
    requires Inv(s) && t in s.sockets.at
    ensures Inv(Replace(s, t)) && Replace(s, t).lost == s.lost
    ensures Replace(s, t).owners == s.owners[t := {s.next}]
  {
    var s', g, prior := Replace(s, t), s.next, s.sockets.at[t];
    hide Replace, Linked, Owned, ClosingSound, Closed, AddClosing;
    PriorSocket(s, t);
    ReplacedShape(s, t);
    ReplacedLinked(s, t, s');
    OwnedAfter(s, s', t, g);
    ClosedClosing(s, prior);
    AddClosingKeeps(Closed(s, prior), prior);
    ClosingAfter(s, s', prior, g, Fresh(t));
  }

  lemma ClosingAfter(s: State, s': State, prior: nat, g: nat, c: Connection)
    requires prior in s.connections && ClosingSound(AddClosing(Closed(s, prior), prior))
    requires s'.closing == AddClosing(Closed(s, prior), prior).closing && g !in s.connections
    requires s'.connections == Closed(s, prior).connections[g := c]
    ensures ClosingSound(s')
  {
    assert AddClosing(Closed(s, prior), prior).connections == Closed(s, prior).connections;
    hide Without, NoDup;
  }

  lemma OpenedKeeps(s: State, t: PeerId)
    requires Inv(s) && CanOpen(s, t) && t !in s.sockets.at
    ensures Inv(Replace(s, t)) && Replace(s, t).lost == s.lost
    ensures Replace(s, t).owners == s.owners[t := {s.next}]
  {
    var s', g := Replace(s, t), s.next;
    assert SoundConnection(Fresh(t)) && t !in s.owners && {} + {g} == {g};
    assert s'.owners == s.owners[t := {g}] && s'.connections == s.connections[g := Fresh(t)]
        && s'.sockets == s.sockets.Set(t, g);
    hide Replace, SoundConnection, NoDup;
    LinkedPlus(s, g, Fresh(t), s');
    hide Linked;
    OwnedAfter(s, s', t, g);
  }

  /** Replacing a transport's socket keeps the invariant and never marks the transport lost. */
  lemma {:induction false} ReplaceKeeps(s: State, t: PeerId)
    requires Inv(s) && CanOpen(s, t)
    ensures Inv(Replace(s, t)) && Replace(s, t).lost == s.lost
    ensures Replace(s, t).owners == s.owners[t := {s.next}]
  {
    hide Inv, Replace;
    if t in s.sockets.at {
      ReplacedKeeps(s, t);
    } else {
      OpenedKeeps(s, t);
    }
  }

  lemma SizeWithout(sockets: OMap<PeerId, nat>, t: PeerId)
    requires sockets.Valid() && t in sockets.at
    ensures |sockets.Delete(t).order| == |sockets.order| - 1
  {
    WithoutOneLength(sockets.order, t);
  }

  lemma ClosedClosing(s: State, g: nat)
    requires ClosingSound(s) && g in s.connections
    ensures ClosingSound(Closed(s, g)) && Closed(s, g).closing == s.closing
    ensures g in Closed(s, g).connections && Closed(s, g).connections[g].closed
  {
    hide NoDup, Without;
  }

  lemma OwnedAfter(s: State, s': State, t: PeerId, g: nat)
    requires Owned(s) && s'.owners == s.owners[t := {g}]
    requires s'.sockets.at == s.sockets.at[t := g]
    ensures Owned(s')
  {}

  // ---------- Every event ----------

  lemma OpenKeeps(s: State, t: PeerId, ready: bool, turns: seq<Turn>)
    requires Inv(s)
    ensures Inv(Open(s, t, ready, turns))
  {
    hide Inv, Pump, Replace;
    if CanOpen(s, t) && ready {
      ReplaceKeeps(s, t);
      PumpKeeps(Replace(s, t), s.next, turns);
    }
  }

  lemma OpenIsCurrent(s: State, g: nat)
    requires Inv(s) && g in s.connections
    ensures IsCurrent(s, g) <==> !s.connections[g].closed
  {
    hide SoundConnection, NoDup;
  }

  lemma LandedSound(s: State, g: nat)
    requires Inv(s) && g in s.connections && s.connections[g].inFlight > 0
    ensures var c := s.connections[g].(inFlight := s.connections[g].inFlight - 1);
            SameEnd(s.connections[g], if c.closed then c else c.(sending := false))
  {
    OneSound(s, g);
    hide Inv;
  }

  lemma SendDoneKeeps(s: State, g: nat, failed: bool, turns: seq<Turn>)
    requires Inv(s)
    ensures Inv(SendDone(s, g, failed, turns))
  {
    hide Inv, Pump, CloseSocket, SameEnd, With, IsCurrent;
    if g in s.connections && s.connections[g].inFlight > 0 {
      var c := s.connections[g].(inFlight := s.connections[g].inFlight - 1);
      OpenIsCurrent(s, g);
      LandedSound(s, g);
      if c.closed {
        ChangeKeeps(s, g, c);
      } else {
        ChangeKeeps(s, g, c.(sending := false));
        CloseKeeps(With(s, g, c.(sending := false)), g, true);
        PumpKeeps(With(s, g, c.(sending := false)), g, turns);
      }
    }
  }

  lemma AddAckSound(c: Connection, id: RequestId)
    requires SoundConnection(c) && !c.closed
    requires id in c.acknowledgements || |c.acknowledgements| < MAX_PENDING_ACKS
    ensures SameEnd(c, AddAck(c, id))
  {}

  lemma AcknowledgingKeeps(s: State, g: nat, id: RequestId)
    requires Inv(s) && IsCurrent(s, g)
    requires id in s.connections[g].acknowledgements || |s.connections[g].acknowledgements| < MAX_PENDING_ACKS
    ensures Inv(Acknowledging(s, g, id))
  {
    OneSound(s, g);
    hide Inv, SoundConnection, SameEnd, AddAck;
    AddAckSound(s.connections[g], id);
    ChangeKeeps(s, g, AddAck(s.connections[g], id));
    LoggedKeeps(With(s, g, AddAck(s.connections[g], id)), s.log + [Recorded(g, id)]);
  }

  lemma SettledKeeps(s: State, g: nat, id: RequestId, recorded: bool, turns: seq<Turn>)
    requires Inv(s)
    ensures Inv(Settled(s, g, id, recorded, turns))
  {
    if IsCurrent(s, g) {
      hide Inv, Pump, CloseSocket, Acknowledging;
      CloseKeeps(s, g, true);
      if |s.connections[g].acknowledgements| < MAX_PENDING_ACKS || id in s.connections[g].acknowledgements {
        AcknowledgingKeeps(s, g, id);
        PumpKeeps(Acknowledging(s, g, id), g, turns);
      }
    }
  }

  lemma BeatKeeps(s: State, g: nat, dead: bool, turns: seq<Turn>)
    requires Inv(s)
    ensures Inv(Beat(s, g, dead, turns))
  {
    if IsCurrent(s, g) {
      OneSound(s, g);
      var c := s.connections[g].(statusPending := true, heartbeatPending := true);
      assert SameEnd(s.connections[g], c);
      hide Inv, Pump, CloseSocket, SoundConnection, SameEnd;
      CloseKeeps(s, g, true);
      ChangeKeeps(s, g, c);
      PumpKeeps(With(s, g, c), g, turns);
    }
  }

  lemma RefreshKeeps(s: State, t: PeerId, turns: seq<Turn>)
    requires Inv(s)
    ensures Inv(Refresh(s, t, turns))
  {
    if t in s.sockets.at && s.sockets.at[t] in s.connections {
      var g := s.sockets.at[t];
      OneSound(s, g);
      var c := s.connections[g].(statusPending := true);
      assert SameEnd(s.connections[g], c);
      hide Inv, Pump, SoundConnection, SameEnd;
      ChangeKeeps(s, g, c);
      PumpKeeps(With(s, g, c), g, turns);
    }
  }

  lemma {:induction false} CloseEachKeeps(s: State, gs: seq<nat>)
    requires Inv(s)
    ensures Inv(CloseEach(s, gs))
    ensures forall g :: IsOpen(CloseEach(s, gs), g) ==> IsOpen(s, g) && g !in gs
  {
    if gs != [] {
      var n := |gs| - 1;
      var r := CloseEach(s, gs[..n]);
      assert gs == gs[..n] + [gs[n]];
      hide Inv, CloseSocket;
      CloseEachKeeps(s, gs[..n]);
      CloseKeeps(r, gs[n], true);
      CloseOpens(r, gs[n]);
    }
  }

  lemma CloseOpens(s: State, g: nat)
    ensures forall k :: IsOpen(CloseSocket(s, g, true), k) ==> IsOpen(s, k)
  {
    hide Without;
  }

  lemma CurrentAre(s: State)
    requires Inv(s)
    ensures !(exists t :: t in s.sockets.order && t !in s.sockets.at)
    ensures forall g :: IsOpen(s, g) ==> g in Current(s.sockets)
  {
    forall g | IsOpen(s, g) ensures g in Current(s.sockets) {
      assert IsCurrent(s, g);
      var t := s.connections[g].transport;
      assert t in s.sockets.order;
      var i :| 0 <= i < |s.sockets.order| && s.sockets.order[i] == t;
      assert Current(s.sockets)[i] == g;
    }
  }

  /** After a shutdown no socket is left and none can be opened. */
  lemma {:induction false} ShutdownClosesAll(s: State)
    requires Inv(s)
    ensures Inv(Shutdown(s)) && Shutdown(s).shut && Shutdown(s).sockets.order == [] && Shutdown(s).owners == map[]
  {
    var s1 := s.(shut := true);
    CurrentAre(s);
    assert Inv(s1) by {
      LinkedSame(s, s1);
      OwnedSame(s, s1);
      hide Linked, Owned;
    }
    var gs := Current(s.sockets);
    assert Shutdown(s) == CloseEach(s1, gs);
    hide Inv, Shutdown, Current, CloseEach;
    CloseEachKeeps(s1, gs);
    CloseEachShut(s1, gs);
    assert forall g :: IsOpen(s1, g) <==> IsOpen(s, g);
    NoneOpen(CloseEach(s1, gs));
  }

  lemma {:induction false} CloseEachShut(s: State, gs: seq<nat>)
    ensures CloseEach(s, gs).shut == s.shut
  {
    if gs != [] {
      CloseEachShut(s, gs[..|gs| - 1]);
      hide Without;
    }
  }

  lemma NoneOpen(s: State)
    requires Inv(s) && forall g :: !IsOpen(s, g)
    ensures s.sockets.order == [] && s.owners == map[]
  {
    if s.sockets.order != [] {
      var t := s.sockets.order[0];
      assert t in s.sockets.at && IsOpen(s, s.sockets.at[t]);
    }
    assert s.owners.Keys == {};
  }

  lemma StepKeepsInv(s: State, e: Event)
    requires Inv(s)
    ensures Inv(Apply(s, e))
  {
    hide Inv, Open, SendDone, Settled, Beat, Pump, Refresh, CloseSocket, FinishClose, Shutdown;
    match e
    case OpenEvent(t, ready, turns) => OpenKeeps(s, t, ready, turns);
    case SendDoneEvent(g, failed, turns) => SendDoneKeeps(s, g, failed, turns);
    case SettledEvent(g, id, recorded, turns) => SettledKeeps(s, g, id, recorded, turns);
    case BeatEvent(g, dead, turns) => BeatKeeps(s, g, dead, turns);
    case AvailableEvent(t, turns) =>
      if t in s.sockets.at {
        PumpKeeps(s, s.sockets.at[t], turns);
      }
    case RefreshEvent(t, turns) => RefreshKeeps(s, t, turns);
    case RefusedEvent(g) => CloseKeeps(s, g, true);
    case ClosedEvent(g) =>
      CloseKeeps(s, g, false);
      FinishCloseKeeps(CloseSocket(s, g, false), g);
    case CloseTransportEvent(t) =>
      if t in s.sockets.at {
        CloseKeeps(s, s.sockets.at[t], true);
      }
    case CloseTimerEvent(g) => FinishCloseKeeps(s, g);
    case ShutdownEvent => ShutdownClosesAll(s);
  }

  /** After every run: each transport's delivery owners are exactly its current socket, each socket has at most one
      frame in flight, and there are at most 64 sockets, 64 closing sockets and 128 acknowledgements a socket. */
  lemma {:induction false} QueueAndSocketAgree(events: seq<Event>)
    ensures var s := Run(events);
            && Inv(s)
            && |s.sockets.order| <= 64 && |s.closing| <= 64
            && (forall t :: t in s.owners <==> t in s.sockets.at)
            && (forall t :: t in s.owners ==> s.owners[t] == {s.sockets.at[t]})
            && (forall g :: g in s.connections ==>
                s.connections[g].inFlight <= 1 && |s.connections[g].acknowledgements| <= 128)
  {
    if events != [] {
      var n := |events| - 1;
      QueueAndSocketAgree(events[..n]);
      hide Apply, NoDup;
      StepKeepsInv(Run(events[..n]), events[n]);
    }
  }

  // ---------- When a connection is marked lost ----------

  function Marked(s: State, s': State): seq<PeerId>
    requires |s.lost| <= |s'.lost|
  {
    s'.lost[|s.lost|..]
  }

  /** Sockets only went, and exactly the transports left without one were marked lost. */
  predicate Shrinks(s: State, s': State) {
    && |s.lost| <= |s'.lost| && s'.lost[..|s.lost|] == s.lost
    && (forall t :: t in s'.sockets.at ==> t in s.sockets.at)
    && (forall t :: t in Marked(s, s') ==> t !in s'.sockets.at)
    && (forall t :: t in s.sockets.at && t !in s'.sockets.at ==> t in Marked(s, s'))
  }

  lemma ShrinksOn(a: State, b: State, c: State)
    requires Shrinks(a, b) && Shrinks(b, c)
    ensures Shrinks(a, c)
  {
    assert c.lost == a.lost + Marked(a, b) + Marked(b, c);
    assert Marked(a, c) == Marked(a, b) + Marked(b, c);
  }

  lemma ShrinksSelf(s: State, s': State)
    requires s'.sockets == s.sockets && s'.lost == s.lost
    ensures Shrinks(s, s')
  {
    assert Marked(s, s') == [];
  }

  lemma CloseShrinks(s: State, g: nat, coded: bool)
    requires Inv(s)
    ensures Shrinks(s, CloseSocket(s, g, coded))
  {
    var s' := CloseSocket(s, g, coded);
    CloseKeeps(s, g, coded);
    hide Inv, CloseSocket, Without;
    if IsOpen(s, g) {
      assert Marked(s, s') == [s.connections[g].transport];
    } else {
      ShrinksSelf(s, s');
    }
  }

  lemma ThrewShrinks(s: State, g: nat)
    requires Inv(s) && IsOpen(s, g)
    ensures Shrinks(s, CloseSocket(With(s, g, s.connections[g].(sending := true)), g, true))
  {
    ThrownClose(s, g);
    hide Inv, CloseSocket;
    CloseShrinks(s, g, true);
    var r := CloseSocket(s, g, true);
    ShrinksSelf(r, With(r, g, r.connections[g].(sending := true)));
    hide Shrinks;
    ShrinksOn(s, r, With(r, g, r.connections[g].(sending := true)));
  }

  lemma SendShrinks(s: State, g: nat, frame: Frame, outcome: Outcome)
    requires Inv(s) && IsCurrent(s, g)
    ensures Shrinks(s, Send(s, g, frame, outcome))
  {
    hide Inv, CloseSocket, Shrinks;
    CloseShrinks(s, g, true);
    if outcome.Threw? {
      ThrewShrinks(s, g);
    }
    ShrinksSelf(s, s);
    if outcome.OnWire? {
      ShrinksSelf(s, Send(s, g, frame, outcome));
    }
  }

  lemma {:induction false} PumpShrinks(s: State, g: nat, turns: seq<Turn>)
    requires Inv(s)
    ensures Shrinks(s, Pump(s, g, turns))
    decreases |turns|
  {
    ShrinksSelf(s, s);
    if IsCurrent(s, g) && !s.connections[g].sending && turns != [] {
      var (frame, c) := NextFrame(s.connections[g], turns[0]);
      var taken := With(s, g, c);
      OneSound(s, g);
      NextFrameSound(s.connections[g], turns[0]);
      ShrinksSelf(s, taken);
      hide Inv, Send, NextFrame, SameEnd, SoundConnection, Shrinks, With;
      ChangeKeeps(s, g, c);
      if frame.Some? {
        var sent := Send(taken, g, frame.value, turns[0].outcome);
        SendKeeps(taken, g, frame.value, turns[0].outcome);
        SendShrinks(taken, g, frame.value, turns[0].outcome);
        PumpShrinks(sent, g, turns[1..]);
        ShrinksOn(s, taken, sent);
        ShrinksOn(s, sent, Pump(sent, g, turns[1..]));
      }
    }
  }

  /** Opening a socket, even in the place of another, marks its transport lost only if the new socket fails at once. */
  lemma {:induction false} OpenMarks(s: State, t: PeerId, ready: bool, turns: seq<Turn>)
    requires Inv(s) && CanOpen(s, t) && ready
    ensures var s' := Open(s, t, ready, turns);
            |s.lost| <= |s'.lost| && s'.lost[..|s.lost|] == s.lost && (t in s'.sockets.at ==> t !in Marked(s, s'))
  {
    hide Inv, Replace, Pump;
    ReplaceKeeps(s, t);
    PumpShrinks(Replace(s, t), s.next, turns);
  }
}
