/**
 What goes over the sockets: every recorded response is acknowledged, in order
 and once, for as long as its connection stays open; and what one event puts on
 the wire, opens or closes.
 */
module SocketLog {
  import opened Common
  import opened OrderedMaps
  import opened StudioSockets

  // ---------- Reading the log ----------

  /** The responses recorded on a connection, in order. */
  function RecordedOn(log: seq<Entry>, g: nat): seq<RequestId> {
    if log == [] then [] else
    var e := log[|log| - 1];
    RecordedOn(log[..|log| - 1], g) + if e.Recorded? && e.g == g then [e.id] else []
  }

  /** The acknowledgements a connection put on the wire, in order. */
  function AckedOn(log: seq<Entry>, g: nat): seq<RequestId> {
    if log == [] then [] else
    var e := log[|log| - 1];
    AckedOn(log[..|log| - 1], g) + if e.Sent? && e.frame.Ack? && e.g == g then [e.frame.id] else []
  }

  /** The members of a come in b in the same order, each from a place of its own. */
  predicate Among(a: seq<RequestId>, b: seq<RequestId>)
    decreases |b|
  {
    || a == []
    || (b != [] && Among(a, b[..|b| - 1]))
    || (b != [] && a[|a| - 1] == b[|b| - 1] && Among(a[..|a| - 1], b[..|b| - 1]))
  }

  /** The response recorded at place i was acknowledged later. */
  predicate AckedAfter(log: seq<Entry>, i: nat, g: nat, id: RequestId) {
    exists j :: i < j < |log| && log[j] == Sent(g, Ack(id))
  }

  /** What was recorded on an open connection waits or was acknowledged. */
  ghost predicate AllAnswered(log: seq<Entry>, g: nat, waiting: seq<RequestId>) {
    forall i: nat :: i < |log| && log[i].Recorded? && log[i].g == g ==>
      log[i].id in waiting || AckedAfter(log, i, g, log[i].id)
  }

  /** Acknowledgements, sent and waiting, answer recorded responses in order; an open connection answers all. */
  ghost predicate Answers(log: seq<Entry>, g: nat, c: Connection) {
    && Among(AckedOn(log, g) + c.acknowledgements, RecordedOn(log, g))
    && (!c.closed ==> AllAnswered(log, g, c.acknowledgements))
  }

  ghost predicate LogOk(s: State) {
    && (forall e :: e in s.log ==> e.g in s.connections)
    && (forall g :: g in s.connections ==> Answers(s.log, g, s.connections[g]))
  }

  // ---------- One entry more ----------

  lemma RecordedMore(log: seq<Entry>, e: Entry, g: nat)
    ensures RecordedOn(log + [e], g) == RecordedOn(log, g) + if e.Recorded? && e.g == g then [e.id] else []
    ensures AckedOn(log + [e], g)
         == AckedOn(log, g) + if e.Sent? && e.frame.Ack? && e.g == g then [e.frame.id] else []
  {
    assert (log + [e])[..|log|] == log;
  }

  lemma AmongMore(a: seq<RequestId>, b: seq<RequestId>, id: RequestId)
    requires Among(a, b)
    ensures Among(a, b + [id]) && Among(a + [id], b + [id])
  {
    assert (b + [id])[..|b|] == b && (a + [id])[..|a|] == a;
  }

  lemma {:induction false} AmongFront(a: seq<RequestId>, more: seq<RequestId>, b: seq<RequestId>)
    requires Among(a + more, b)
    ensures Among(a, b)
    decreases |b|
  {
    var all := a + more;
    if a != [] {
      var front := b[..|b| - 1];
      if Among(all, front) {
        AmongFront(a, more, front);
      } else if more == [] {
        assert all == a;
      } else {
        assert all[..|all| - 1] == a + more[..|more| - 1];
        AmongFront(a, more[..|more| - 1], front);
      }
    }
  }

  lemma AfterMore(log: seq<Entry>, e: Entry, i: nat, g: nat, id: RequestId)
    requires AckedAfter(log, i, g, id)
    ensures AckedAfter(log + [e], i, g, id)
  {
    var j :| i < j < |log| && log[j] == Sent(g, Ack(id));
    assert (log + [e])[j] == log[j];
  }

  /** An entry that is not about the connection, or no acknowledgement. */
  lemma EntryAside(log: seq<Entry>, e: Entry, g: nat, c: Connection)
    requires Answers(log, g, c) && (e.g != g || (e.Sent? && !e.frame.Ack?))
    ensures Answers(log + [e], g, c)
  {
    RecordedMore(log, e, g);
    hide RecordedOn, AckedOn, Among;
    assert AckedOn(log, g) + [] + c.acknowledgements == AckedOn(log, g) + c.acknowledgements;
    assert RecordedOn(log, g) + [] == RecordedOn(log, g);
    forall i: nat | i < |log + [e]| && (log + [e])[i].Recorded? && (log + [e])[i].g == g && !c.closed
      ensures (log + [e])[i].id in c.acknowledgements || AckedAfter(log + [e], i, g, (log + [e])[i].id)
    {
      assert (log + [e])[i] == log[i];
      if log[i].id !in c.acknowledgements {
        AfterMore(log, e, i, g, log[i].id);
      }
    }
  }

  /** The first waiting acknowledgement goes on the wire. */
  lemma AckGoes(log: seq<Entry>, g: nat, c: Connection, c': Connection)
    requires Answers(log, g, c) && !c.closed && c.acknowledgements != []
    requires c'.acknowledgements == c.acknowledgements[1..] && c'.closed == c.closed
    ensures Answers(log + [Sent(g, Ack(c.acknowledgements[0]))], g, c')
  {
    var id := c.acknowledgements[0];
    var e := Sent(g, Ack(id));
    RecordedMore(log, e, g);
    hide RecordedOn, AckedOn, Among;
    assert AckedOn(log, g) + [id] + c'.acknowledgements == AckedOn(log, g) + c.acknowledgements;
    assert RecordedOn(log, g) + [] == RecordedOn(log, g);
    forall i: nat | i < |log + [e]| && (log + [e])[i].Recorded? && (log + [e])[i].g == g
      ensures (log + [e])[i].id in c'.acknowledgements || AckedAfter(log + [e], i, g, (log + [e])[i].id)
    {
      assert (log + [e])[i] == log[i];
      if log[i].id == id {
        assert (log + [e])[|log|] == Sent(g, Ack(log[i].id));
      } else if log[i].id in c.acknowledgements {
        assert c.acknowledgements == [id] + c'.acknowledgements;
      } else {
        AfterMore(log, e, i, g, log[i].id);
      }
    }
  }

  /** A response is recorded and waits for its acknowledgement. */
  lemma ResponseWaits(log: seq<Entry>, g: nat, c: Connection, id: RequestId, c': Connection)
    requires Answers(log, g, c) && !c.closed && c'.closed == c.closed
    requires c'.acknowledgements == if id in c.acknowledgements then c.acknowledgements else c.acknowledgements + [id]
    ensures Answers(log + [Recorded(g, id)], g, c')
  {
    var e := Recorded(g, id);
    RecordedMore(log, e, g);
    hide RecordedOn, AckedOn;
    AmongMore(AckedOn(log, g) + c.acknowledgements, RecordedOn(log, g), id);
    assert AckedOn(log, g) + [] == AckedOn(log, g);
    Regroup(AckedOn(log, g), c.acknowledgements, [id]);
    hide Among;
    forall i: nat | i < |log + [e]| && (log + [e])[i].Recorded? && (log + [e])[i].g == g
      ensures (log + [e])[i].id in c'.acknowledgements || AckedAfter(log + [e], i, g, (log + [e])[i].id)
    {
      if i < |log| {
        assert (log + [e])[i] == log[i];
        if log[i].id !in c.acknowledgements {
          AfterMore(log, e, i, g, log[i].id);
        }
      }
    }
  }

  /** A connection that closes lets its waiting acknowledgements go. */
  lemma ClosedAnswers(log: seq<Entry>, g: nat, c: Connection, c': Connection)
    requires Answers(log, g, c) && c'.closed && c'.acknowledgements == []
    ensures Answers(log, g, c')
  {
    AmongFront(AckedOn(log, g), c.acknowledgements, RecordedOn(log, g));
    assert AckedOn(log, g) + [] == AckedOn(log, g);
  }

  lemma {:induction false} NothingOn(log: seq<Entry>, g: nat)
    requires forall e :: e in log ==> e.g != g
    ensures RecordedOn(log, g) == [] && AckedOn(log, g) == []
  {
    if log != [] {
      NothingOn(log[..|log| - 1], g);
    }
  }

  // ---------- What every step keeps ----------

  /** The connections differ only where one closed, and the log is the same. */
  ghost predicate OnlyCloses(s: State, s': State) {
    && s'.log == s.log && s'.connections.Keys == s.connections.Keys
    && forall k :: k in s.connections ==>
         || (s'.connections[k].closed == s.connections[k].closed
             && s'.connections[k].acknowledgements == s.connections[k].acknowledgements)
         || (s'.connections[k].closed && s'.connections[k].acknowledgements == [])
  }

  lemma ClosesOn(a: State, b: State, c: State)
    requires OnlyCloses(a, b) && OnlyCloses(b, c)
    ensures OnlyCloses(a, c)
  {}

  lemma ClosingKeepsLog(s: State, s': State)
    requires LogOk(s) && OnlyCloses(s, s')
    ensures LogOk(s')
  {
    hide Answers;
    forall g | g in s'.connections ensures Answers(s'.log, g, s'.connections[g]) {
      assert Answers(s.log, g, s.connections[g]);
      if s'.connections[g].closed == s.connections[g].closed
         && s'.connections[g].acknowledgements == s.connections[g].acknowledgements {
        SameAnswers(s.log, g, s.connections[g], s'.connections[g]);
      } else {
        ClosedAnswers(s.log, g, s.connections[g], s'.connections[g]);
      }
    }
  }

  lemma SameAnswers(log: seq<Entry>, g: nat, c: Connection, c': Connection)
    requires Answers(log, g, c) && c'.closed == c.closed && c'.acknowledgements == c.acknowledgements
    ensures Answers(log, g, c')
  {
    hide Among, RecordedOn, AckedOn;
  }

  lemma ActiveFrame(s: State, t: PeerId, g: nat, active: bool)
    ensures var s' := SetActive(s, t, g, active);
            && s'.connections == s.connections && s'.sockets == s.sockets && s'.next == s.next && s'.log == s.log
            && s'.closing == s.closing
  {}

  lemma ClosingFrame(s: State, g: nat)
    ensures var s' := AddClosing(s, g);
            s'.connections == s.connections && s'.sockets == s.sockets && s'.next == s.next && s'.log == s.log
  {
    hide Without;
  }

  /** What closing does to connections and sockets. */
  lemma CloseShape(s: State, g: nat, coded: bool)
    requires g in s.connections && !s.connections[g].closed
    ensures var s', c := CloseSocket(s, g, coded), Closed(s, g);
            s'.connections == c.connections && s'.sockets == c.sockets && s'.next == c.next && s'.log == c.log
  {
    var t := s.connections[g].transport;
    var inactive := SetActive(Closed(s, g), t, g, false);
    ActiveFrame(Closed(s, g), t, g, false);
    ClosingFrame(inactive, g);
    hide Closed, SetActive, AddClosing;
  }

  lemma ClosedOnlyCloses(s: State, g: nat)
    requires g in s.connections
    ensures OnlyCloses(s, Closed(s, g))
  {
    hide Without;
  }

  lemma CloseOnlyCloses(s: State, g: nat, coded: bool)
    ensures OnlyCloses(s, CloseSocket(s, g, coded))
  {
    if g in s.connections && !s.connections[g].closed {
      ClosedOnlyCloses(s, g);
      CloseShape(s, g, coded);
      hide Closed, CloseSocket;
    } else {
      assert CloseSocket(s, g, coded) == s;
    }
  }

  lemma FinishOnlyCloses(s: State, g: nat)
    ensures OnlyCloses(s, FinishClose(s, g))
  {
    hide Without;
  }

  lemma {:induction false} CloseEachOnlyCloses(s: State, gs: seq<nat>)
    ensures OnlyCloses(s, CloseEach(s, gs))
  {
    if gs != [] {
      var r := CloseEach(s, gs[..|gs| - 1]);
      CloseEachOnlyCloses(s, gs[..|gs| - 1]);
      CloseOnlyCloses(r, gs[|gs| - 1], true);
      hide CloseSocket;
      ClosesOn(s, r, CloseEach(s, gs));
    }
  }

  /** One entry and a change to its connection that answers it. */
  lemma LoggedOk(s: State, s': State, g: nat, e: Entry)
    requires LogOk(s) && g in s.connections && e.g == g && s'.log == s.log + [e]
    requires s'.connections.Keys == s.connections.Keys
    requires forall k :: k in s.connections && k != g ==> s'.connections[k] == s.connections[k]
    requires g in s'.connections && Answers(s'.log, g, s'.connections[g])
    ensures LogOk(s')
  {
    hide Answers;
    forall k | k in s'.connections ensures Answers(s'.log, k, s'.connections[k]) {
      if k != g {
        assert Answers(s.log, k, s.connections[k]);
        EntryAside(s.log, e, k, s.connections[k]);
      }
    }
  }

  /** Nothing but the connection of g, its place and the books about it. */
  ghost predicate OnlyAt(s: State, g: nat, s': State) {
    && s'.next == s.next && s'.connections.Keys == s.connections.Keys
    && (forall k :: k in s.connections ==> s'.connections[k].transport == s.connections[k].transport)
    && (forall k :: k in s.connections && k != g ==> s'.connections[k] == s.connections[k])
    && (forall t :: t in s'.sockets.at ==> t in s.sockets.at && s'.sockets.at[t] == s.sockets.at[t])
    && (forall t :: t in s.sockets.at && s.sockets.at[t] != g ==> t in s'.sockets.at)
  }

  lemma OnlyAtOn(a: State, g: nat, b: State, c: State)
    requires OnlyAt(a, g, b) && OnlyAt(b, g, c)
    ensures OnlyAt(a, g, c)
  {}

  lemma ClosedOnlyAt(s: State, g: nat)
    requires g in s.connections
    ensures OnlyAt(s, g, Closed(s, g)) && Closed(s, g).log == s.log
    ensures Closed(s, g).connections[g].closed && Closed(s, g).connections[g].acknowledgements == []
  {
    hide Without;
  }

  lemma CloseOnlyAt(s: State, g: nat)
    requires g in s.connections
    ensures var s' := CloseSocket(s, g, true);
            && OnlyAt(s, g, s') && s'.log == s.log && s'.connections[g].closed
            && (!s.connections[g].closed ==> s'.connections[g].acknowledgements == [])
  {
    if !s.connections[g].closed {
      ClosedOnlyAt(s, g);
      CloseShape(s, g, true);
      hide CloseSocket, Closed;
    }
  }

  lemma FailedSendCloses(s: State, g: nat, frame: Frame, outcome: Outcome)
    requires g in s.connections && !outcome.OnWire?
    ensures var s' := Send(s, g, frame, outcome);
            if frame.Request? && (outcome.Unserializable? || outcome.TooLarge?) then s' == s else
              && OnlyAt(s, g, s') && s'.log == s.log && s'.connections[g].closed
              && (!s.connections[g].closed ==> s'.connections[g].acknowledgements == [])
  {
    hide CloseSocket;
    CloseOnlyAt(s, g);
    if outcome.Threw? {
      var s1 := With(s, g, s.connections[g].(sending := true));
      CloseOnlyAt(s1, g);
      assert OnlyAt(s, g, s1);
      hide OnlyAt;
      OnlyAtOn(s, g, s1, CloseSocket(s1, g, true));
    }
  }

  lemma SentKeepsLog(s: State, g: nat, frame: Frame, s': State)
    requires LogOk(s) && g in s.connections && !s.connections[g].closed && g in s'.connections
    requires s'.log == s.log + [Sent(g, frame)] && s'.connections == s.connections[g := s'.connections[g]]
    requires !s'.connections[g].closed
    requires if frame.Ack?
             then s.connections[g].acknowledgements == [frame.id] + s'.connections[g].acknowledgements
             else s'.connections[g].acknowledgements == s.connections[g].acknowledgements
    ensures LogOk(s')
  {
    var e := Sent(g, frame);
    assert Answers(s.log, g, s.connections[g]);
    hide Answers;
    if frame.Ack? {
      AckGoes(s.log, g, s.connections[g], s'.connections[g]);
    } else {
      EntryAside(s.log, e, g, s.connections[g]);
      SameAnswers(s.log + [e], g, s.connections[g], s'.connections[g]);
    }
    LoggedOk(s, s', g, e);
  }

  lemma NextFrameAcks(c: Connection, turn: Turn)
    ensures var (frame, c') := NextFrame(c, turn);
            && c'.closed == c.closed && c'.transport == c.transport
            && if frame.Some? && frame.value.Ack? then c.acknowledgements == [frame.value.id] + c'.acknowledgements
               else c'.acknowledgements == c.acknowledgements
  {}

  lemma ClosedAtCloses(s: State, g: nat, c: Connection, s': State)
    requires g in s.connections && OnlyAt(With(s, g, c), g, s') && s'.log == s.log
    requires s'.connections[g].closed && s'.connections[g].acknowledgements == []
    ensures OnlyCloses(s, s')
  {}

  lemma FailedKeepsLog(s: State, g: nat, c: Connection, frame: Frame, outcome: Outcome)
    requires LogOk(s) && g in s.connections && !outcome.OnWire?
    requires c.closed == s.connections[g].closed && !c.closed
    requires frame.Request? ==> c.acknowledgements == s.connections[g].acknowledgements
    ensures LogOk(Send(With(s, g, c), g, frame, outcome))
  {
    var taken := With(s, g, c);
    FailedSendCloses(taken, g, frame, outcome);
    hide LogOk, Send, OnlyAt, OnlyCloses;
    if frame.Request? && (outcome.Unserializable? || outcome.TooLarge?) {
      FlagsKeepLog(s, g, c);
    } else {
      ClosedAtCloses(s, g, c, Send(taken, g, frame, outcome));
      ClosingKeepsLog(s, Send(taken, g, frame, outcome));
    }
  }

  lemma OnceKeepsLog(s: State, g: nat, turn: Turn)
    requires LogOk(s) && g in s.connections && !s.connections[g].closed
    ensures LogOk(PumpOnce(s, g, turn).0)
  {
    var (frame, c) := NextFrame(s.connections[g], turn);
    NextFrameAcks(s.connections[g], turn);
    hide LogOk, CloseSocket, NextFrame;
    if frame.None? {
      FlagsKeepLog(s, g, c);
    } else if turn.outcome.OnWire? {
      SentKeepsLog(s, g, frame.value, PumpOnce(s, g, turn).0);
    } else {
      FailedKeepsLog(s, g, c, frame.value, turn.outcome);
    }
  }

  lemma {:induction false} PumpKeepsLog(s: State, g: nat, turns: seq<Turn>)
    requires LogOk(s)
    ensures LogOk(Pump(s, g, turns))
    decreases |turns|
  {
    if IsCurrent(s, g) && !s.connections[g].sending && turns != [] {
      OnceKeepsLog(s, g, turns[0]);
      hide LogOk, PumpOnce;
      if PumpOnce(s, g, turns[0]).1 {
        PumpKeepsLog(PumpOnce(s, g, turns[0]).0, g, turns[1..]);
      }
    }
  }

  lemma NewKeepsLog(s: State, t: PeerId, s1: State)
    requires LogOk(s) && s.next !in s.connections && s1.log == s.log
    requires s1.connections == s.connections[s.next := Connection(t, false, false, true, false, [], 0)]
    ensures LogOk(s1)
  {
    NothingOn(s.log, s.next);
    assert Answers(s.log, s.next, s1.connections[s.next]);
    hide Answers;
  }

  /** The state in which a new connection is active and the one it replaces not yet closed. */
  function Overlapping(s: State, t: PeerId): State {
    var g := s.next;
    var s1 := s.(next := g + 1, connections := s.connections[g := Connection(t, false, false, true, false, [], 0)]);
    SetActive(s1, t, g, true)
  }

  lemma ReplaceShape(s: State, t: PeerId)
    ensures var s2 := Overlapping(s, t);
            var s3 := if t in s.sockets.at then CloseSocket(s2, s.sockets.at[t], true) else s2;
            && s2.log == s.log
            && s2.connections == s.connections[s.next := Connection(t, false, false, true, false, [], 0)]
            && Replace(s, t).connections == s3.connections && Replace(s, t).log == s3.log
  {
    hide CloseSocket;
  }

  lemma ReplaceKeepsLog(s: State, t: PeerId)
    requires LogOk(s) && s.next !in s.connections
    ensures LogOk(Replace(s, t))
  {
    var s2 := Overlapping(s, t);
    var s3 := if t in s.sockets.at then CloseSocket(s2, s.sockets.at[t], true) else s2;
    hide *;
    ReplaceShape(s, t);
    NewKeepsLog(s, t, s2);
    if t in s.sockets.at {
      CloseKeepsLog(s2, s.sockets.at[t], true);
    }
    OnlyClosesSame(s3, Replace(s, t));
    ClosingKeepsLog(s3, Replace(s, t));
  }

  lemma OnlyClosesSame(s: State, s': State)
    requires s'.log == s.log && s'.connections == s.connections
    ensures OnlyCloses(s, s')
  {}

  lemma FlagsKeepLog(s: State, g: nat, c: Connection)
    requires LogOk(s) && g in s.connections
    requires c.closed == s.connections[g].closed && c.acknowledgements == s.connections[g].acknowledgements
    ensures LogOk(With(s, g, c))
  {
    hide LogOk;
    ClosingKeepsLog(s, With(s, g, c));
  }

  lemma CloseKeepsLog(s: State, g: nat, coded: bool)
    requires LogOk(s)
    ensures LogOk(CloseSocket(s, g, coded))
  {
    hide LogOk, CloseSocket;
    CloseOnlyCloses(s, g, coded);
    ClosingKeepsLog(s, CloseSocket(s, g, coded));
  }

  lemma AcknowledgingKeepsLog(s: State, g: nat, id: RequestId)
    requires LogOk(s) && g in s.connections && !s.connections[g].closed
    ensures LogOk(Acknowledging(s, g, id))
  {
    var s' := Acknowledging(s, g, id);
    assert Answers(s.log, g, s.connections[g]);
    hide Answers;
    ResponseWaits(s.log, g, s.connections[g], id, s'.connections[g]);
    LoggedOk(s, s', g, Recorded(g, id));
  }

  lemma DoneKeepsLog(s: State, g: nat, failed: bool, turns: seq<Turn>)
    requires LogOk(s)
    ensures LogOk(SendDone(s, g, failed, turns))
  {
    hide LogOk, Pump, CloseSocket;
    if g in s.connections && s.connections[g].inFlight > 0 {
      var landed := s.connections[g].(inFlight := s.connections[g].inFlight - 1);
      FlagsKeepLog(s, g, landed);
      FlagsKeepLog(s, g, landed.(sending := false));
      CloseKeepsLog(With(s, g, landed.(sending := false)), g, true);
      PumpKeepsLog(With(s, g, landed.(sending := false)), g, turns);
    }
  }

  lemma StepKeepsLog(s: State, e: Event)
    requires Inv(s) && LogOk(s)
    ensures LogOk(Apply(s, e))
  {
    assert s.next !in s.connections by {
      hide SoundConnection, NoDup;
    }
    hide Inv, LogOk, Pump, CloseSocket, FinishClose, Replace, Acknowledging;
    match e
    case OpenEvent(t, ready, turns) =>
      ReplaceKeepsLog(s, t);
      PumpKeepsLog(Replace(s, t), s.next, turns);
    case SendDoneEvent(g, failed, turns) => DoneKeepsLog(s, g, failed, turns);
    case SettledEvent(g, id, recorded, turns) =>
      CloseKeepsLog(s, g, true);
      if IsCurrent(s, g) {
        AcknowledgingKeepsLog(s, g, id);
        PumpKeepsLog(Acknowledging(s, g, id), g, turns);
      }
    case BeatEvent(g, dead, turns) =>
      CloseKeepsLog(s, g, true);
      if IsCurrent(s, g) {
        FlagsKeepLog(s, g, s.connections[g].(statusPending := true, heartbeatPending := true));
        PumpKeepsLog(With(s, g, s.connections[g].(statusPending := true, heartbeatPending := true)), g, turns);
      }
    case AvailableEvent(t, turns) =>
      if t in s.sockets.at {
        PumpKeepsLog(s, s.sockets.at[t], turns);
      }
    case RefreshEvent(t, turns) =>
      if t in s.sockets.at && s.sockets.at[t] in s.connections {
        var g := s.sockets.at[t];
        FlagsKeepLog(s, g, s.connections[g].(statusPending := true));
        PumpKeepsLog(With(s, g, s.connections[g].(statusPending := true)), g, turns);
      }
    case RefusedEvent(g) => CloseKeepsLog(s, g, true);
    case ClosedEvent(g) =>
      CloseKeepsLog(s, g, false);
      FinishOnlyCloses(CloseSocket(s, g, false), g);
      ClosingKeepsLog(CloseSocket(s, g, false), Apply(s, e));
    case CloseTransportEvent(t) =>
      if t in s.sockets.at {
        CloseKeepsLog(s, s.sockets.at[t], true);
      }
    case CloseTimerEvent(g) =>
      FinishOnlyCloses(s, g);
      ClosingKeepsLog(s, Apply(s, e));
    case ShutdownEvent =>
      ShutdownOnlyCloses(s);
      ClosingKeepsLog(s, Apply(s, e));
  }

  lemma ShutdownOnlyCloses(s: State)
    ensures OnlyCloses(s, Shutdown(s))
  {
    var s1 := s.(shut := true);
    hide CloseEach;
    if !(exists t :: t in s.sockets.order && t !in s.sockets.at) {
      CloseEachOnlyCloses(s1, Current(s.sockets));
      hide Current;
      ClosesOn(s, s1, Shutdown(s));
    }
  }

  /** After every run: a response recorded on a connection that is still open waits to be acknowledged there or was
      acknowledged since, acknowledgements answer recorded responses in the order of recording, each one of its own,
      and nothing else is acknowledged. */
  lemma {:induction false} ResponsesAreAcknowledged(events: seq<Event>)
    ensures var s := Run(events);
            && (forall e :: e in s.log ==> e.g in s.connections)
            && (forall g :: g in s.connections ==>
                  Among(AckedOn(s.log, g) + s.connections[g].acknowledgements, RecordedOn(s.log, g)))
            && (forall g :: g in s.connections && !s.connections[g].closed ==>
                  AllAnswered(s.log, g, s.connections[g].acknowledgements))
  {
    RunKeepsLog(events);
    hide Run, Among, AllAnswered, RecordedOn, AckedOn;
    assert forall g :: g in Run(events).connections ==> Answers(Run(events).log, g, Run(events).connections[g]);
  }

  lemma {:induction false} RunKeepsLog(events: seq<Event>)
    ensures LogOk(Run(events))
  {
    if events != [] {
      var n := |events| - 1;
      RunKeepsLog(events[..n]);
      QueueAndSocketAgree(events[..n]);
      hide Inv, LogOk, Apply;
      StepKeepsLog(Run(events[..n]), events[n]);
    }
  }

  // ---------- What one event does ----------

  /** A run goes on by its events, from the transport without sockets. */
  lemma {:induction false} RunGoesOn(events: seq<Event>, e: Event)
    ensures Run([]) == EMPTY && Run(events + [e]) == Apply(Run(events), e)
  {
    assert (events + [e])[..|events|] == events;
    hide Apply;
  }

  /** A request that became available is looked for on the transport's connection, a status that changed is due there,
      and so are status and heartbeat when the peer answers in time; the other events close. */
  lemma {:induction false} EventLaw(s: State, t: PeerId, g: nat, turns: seq<Turn>)
    requires Inv(s) && IsCurrent(s, g) && s.connections[g].transport == t
    ensures var c := s.connections[g];
            && Apply(s, AvailableEvent(t, turns)) == Pump(s, g, turns)
            && Apply(s, RefreshEvent(t, turns)) == Pump(With(s, g, c.(statusPending := true)), g, turns)
            && Apply(s, BeatEvent(g, false, turns))
               == Pump(With(s, g, c.(statusPending := true, heartbeatPending := true)), g, turns)
            && !IsOpen(Apply(s, BeatEvent(g, true, turns)), g)
            && !IsOpen(Apply(s, RefusedEvent(g)), g)
            && !IsOpen(Apply(s, CloseTransportEvent(t)), g)
            && !IsOpen(Apply(s, ClosedEvent(g)), g) && g !in Apply(s, ClosedEvent(g)).closing
            && g !in Apply(s, CloseTimerEvent(g)).closing
  {
    hide Inv, Pump, CloseSocket, Without;
    CloseKeeps(s, g, true);
    CloseKeeps(s, g, false);
    WithoutMembers(s.closing, {g});
    WithoutMembers(CloseSocket(s, g, false).closing, {g});
  }

  /** The callback of a frame frees the connection for the next one, or closes it. */
  lemma {:induction false} DoneLaw(s: State, g: nat, failed: bool, turns: seq<Turn>)
    requires Inv(s) && IsCurrent(s, g) && s.connections[g].inFlight > 0
    ensures var s', c := SendDone(s, g, failed, turns), s.connections[g];
            if failed then !IsOpen(s', g) else s' == Pump(With(s, g, c.(sending := false, inFlight := 0)), g, turns)
  {
    OneSound(s, g);
    var free := With(s, g, s.connections[g].(sending := false, inFlight := 0));
    var c := s.connections[g];
    assert c.inFlight == 1 && c.(inFlight := c.inFlight - 1).(sending := false) == c.(sending := false, inFlight := 0);
    assert g in free.connections;
    hide Inv, SoundConnection, Pump, CloseSocket, IsCurrent, With;
    FailedCloses(free, g);
  }

  lemma FailedCloses(s: State, g: nat)
    requires g in s.connections
    ensures !IsOpen(CloseSocket(s, g, true), g)
  {
    hide CloseSocket;
    CloseOnlyAt(s, g);
    hide OnlyAt;
  }

  lemma {:induction false} PumpLogs(s: State, g: nat, turns: seq<Turn>)
    ensures s.log <= Pump(s, g, turns).log
    decreases |turns|
  {
    if IsCurrent(s, g) && !s.connections[g].sending && turns != [] {
      var (after, more) := PumpOnce(s, g, turns[0]);
      OnceLogs(s, g, turns[0]);
      hide PumpOnce;
      if more {
        PumpLogs(after, g, turns[1..]);
      }
    }
  }

  lemma OnceLogs(s: State, g: nat, turn: Turn)
    requires g in s.connections
    ensures s.log <= PumpOnce(s, g, turn).0.log
  {
    var (frame, c) := NextFrame(s.connections[g], turn);
    if frame.Some? && !turn.outcome.OnWire? {
      FailedSendCloses(With(s, g, c), g, frame.value, turn.outcome);
      hide Send;
    }
    hide CloseSocket;
  }

  /** A response arriving on a current connection is recorded, unless recording fails or 128 others wait for their
      acknowledgement: then the connection closes. */
  lemma {:induction false} ResponseLaw(s: State, g: nat, id: RequestId, recorded: bool, turns: seq<Turn>)
    requires Inv(s) && IsCurrent(s, g)
    ensures var s' := Settled(s, g, id, recorded, turns);
            var waiting := s.connections[g].acknowledgements;
            if recorded && (id in waiting || |waiting| < 128) then s.log + [Recorded(g, id)] <= s'.log
            else s'.log == s.log && !IsOpen(s', g)
  {
    hide Inv, Pump, CloseSocket;
    CloseKeeps(s, g, true);
    CloseOnlyCloses(s, g, true);
    PumpLogs(Acknowledging(s, g, id), g, turns);
  }

  /** With a free connection, the first frame to be sent is the one of highest rank there is. */
  lemma {:induction false} HighestRankFirst(s: State, g: nat, turns: seq<Turn>)
    requires IsCurrent(s, g) && !s.connections[g].sending && turns != [] && turns[0].outcome.OnWire?
    ensures var c, turn, s' := s.connections[g], turns[0], Pump(s, g, turns);
            && (c.acknowledgements != [] ==> s'.log == s.log + [Sent(g, Ack(c.acknowledgements[0]))])
            && (c.acknowledgements == [] && c.statusPending && turn.statusChanged ==>
                  s'.log == s.log + [Sent(g, Status)])
            && (c.acknowledgements == [] && !(c.statusPending && turn.statusChanged) ==>
                  && (turn.cancellation ==> s'.log == s.log + [Sent(g, Cancel)])
                  && (!turn.cancellation && turn.request ==> s'.log == s.log + [Sent(g, Request)])
                  && (!turn.cancellation && !turn.request && c.heartbeatPending ==>
                        s'.log == s.log + [Sent(g, Heartbeat)])
                  && (!turn.cancellation && !turn.request && !c.heartbeatPending ==> s'.log == s.log))
            && (|s'.log| > |s.log| ==> IsOpen(s', g) && s'.connections[g].sending)
  {
    var after := PumpOnce(s, g, turns[0]).0;
    assert PumpOnce(s, g, turns[0]).1 ==> Pump(after, g, turns[1..]) == after;
    hide CloseSocket;
  }

  predicate Unframeable(turn: Turn) {
    turn.outcome.Unserializable? || turn.outcome.TooLarge?
  }

  /** A pump that leaves the connection open and free has left nothing to send, unless it ran out of turns on requests
      that could not be framed. */
  lemma {:induction false} QuietMeansEmpty(s: State, g: nat, turns: seq<Turn>)
    requires Inv(s) && IsCurrent(s, g) && !s.connections[g].sending
    ensures var s' := Pump(s, g, turns);
            IsCurrent(s', g) && !s'.connections[g].sending ==>
              || (s'.connections[g].acknowledgements == [] && !s'.connections[g].statusPending
                  && !s'.connections[g].heartbeatPending)
              || (forall turn :: turn in turns ==> Unframeable(turn))
    decreases |turns|
  {
    if turns != [] {
      var (after, more) := PumpOnce(s, g, turns[0]);
      OnceQuiet(s, g, turns[0]);
      assert turns == [turns[0]] + turns[1..];
      hide Inv, PumpOnce, IsCurrent;
      if more && IsCurrent(after, g) && !after.connections[g].sending {
        QuietMeansEmpty(after, g, turns[1..]);
      }
    }
  }

  lemma OnceQuiet(s: State, g: nat, turn: Turn)
    requires Inv(s) && IsCurrent(s, g) && !s.connections[g].sending
    ensures var (after, more) := PumpOnce(s, g, turn);
            && (!more ==> g in after.connections && after.connections[g].acknowledgements == []
                          && !after.connections[g].statusPending && !after.connections[g].heartbeatPending)
            && (more && IsCurrent(after, g) && !after.connections[g].sending ==> Unframeable(turn) && Inv(after))
  {
    var (frame, c) := NextFrame(s.connections[g], turn);
    OneSound(s, g);
    NextFrameSound(s.connections[g], turn);
    hide Inv, CloseSocket, SoundConnection;
    ChangeKeeps(s, g, c);
    if frame.Some? {
      if turn.outcome.OnWire? {
      } else {
        FailedSendCloses(With(s, g, c), g, frame.value, turn.outcome);
        hide Send;
      }
    }
  }

  /** Opening is refused exactly after a shutdown, for a socket that is not ready, and for a new transport when there
      are 64; otherwise the new connection gets the transport and an earlier one of it is closed. */
  lemma {:induction false} OpenLaw(s: State, t: PeerId, ready: bool, turns: seq<Turn>)
    requires Inv(s)
    ensures var s' := Open(s, t, ready, turns);
            if s.shut || !ready || (t !in s.sockets.at && |s.sockets.order| >= 64) then s' == s else
              && s'.next == s.next + 1 && s.next in s'.connections && s'.connections[s.next].transport == t
              && (t in s'.sockets.at ==> s'.sockets.at[t] == s.next)
              && (t !in s'.sockets.at ==> s'.connections[s.next].closed)
              && (t in s.sockets.at ==> !IsOpen(s', s.sockets.at[t]))
  {
    hide Inv, Replace, Pump;
    if CanOpen(s, t) && ready {
      var s1, s' := Replace(s, t), Open(s, t, ready, turns);
      ReplaceKeeps(s, t);
      Opened(s, t);
      PumpKeeps(s1, s.next, turns);
      PumpShrinks(s1, s.next, turns);
      PumpSame(s1, s.next, turns);
      OneOwner(s', s.next, t);
    }
  }

  lemma Opened(s: State, t: PeerId)
    requires Inv(s)
    ensures var s' := Replace(s, t);
            && s'.next == s.next + 1 && s.next in s'.connections && s'.connections[s.next].transport == t
            && !s'.connections[s.next].closed && t in s'.sockets.at && s'.sockets.at[t] == s.next
            && (t in s.sockets.at ==>
                  s.sockets.at[t] != s.next && s.sockets.at[t] in s'.connections
                  && s'.connections[s.sockets.at[t]].closed)
  {
    hide SoundConnection, NoDup, Without;
  }

  lemma OneOwner(s: State, g: nat, t: PeerId)
    requires Inv(s) && g in s.connections && s.connections[g].transport == t
    ensures !s.connections[g].closed ==> t in s.sockets.at && s.sockets.at[t] == g
    ensures t in s.sockets.at && s.sockets.at[t] == g ==> !s.connections[g].closed
  {
    hide SoundConnection, NoDup;
    assert !s.connections[g].closed ==> IsCurrent(s, g);
  }

  /** A pump opens nothing and closes nothing but its own connection. */
  lemma {:induction false} PumpSame(s: State, g: nat, turns: seq<Turn>)
    ensures OnlyAt(s, g, Pump(s, g, turns))
    decreases |turns|
  {
    if IsCurrent(s, g) && !s.connections[g].sending && turns != [] {
      var (after, more) := PumpOnce(s, g, turns[0]);
      OnceSame(s, g, turns[0]);
      hide PumpOnce;
      if more {
        PumpSame(after, g, turns[1..]);
        OnlyAtOn(s, g, after, Pump(after, g, turns[1..]));
      }
    }
  }

  lemma OnceSame(s: State, g: nat, turn: Turn)
    requires IsCurrent(s, g)
    ensures OnlyAt(s, g, PumpOnce(s, g, turn).0)
  {
    var (frame, c) := NextFrame(s.connections[g], turn);
    var taken := With(s, g, c);
    NextFrameAcks(s.connections[g], turn);
    assert OnlyAt(s, g, taken);
    hide CloseSocket, NextFrame;
    if frame.Some? {
      if turn.outcome.OnWire? {
        assert OnlyAt(taken, g, PumpOnce(s, g, turn).0);
      } else {
        FailedSendCloses(taken, g, frame.value, turn.outcome);
        assert OnlyAt(taken, g, taken);
        hide Send;
      }
      hide OnlyAt;
      OnlyAtOn(s, g, taken, PumpOnce(s, g, turn).0);
    }
  }

  lemma NotClosing(s: State, g: nat)
    requires Inv(s) && IsOpen(s, g)
    ensures g !in s.closing && NoDup(s.closing) && |s.closing| <= 64
  {
    hide Linked, Owned;
  }

  lemma ClosingAdded(s: State, g: nat)
    requires IsOpen(s, g)
    ensures var all := s.closing + [g];
            CloseSocket(s, g, true).closing == if |all| > 64 then Without(all, {all[0]}) else all
  {
    var t := s.connections[g].transport;
    var inactive := SetActive(Closed(s, g), t, g, false);
    ActiveFrame(Closed(s, g), t, g, false);
    assert Closed(s, g).closing == s.closing && CloseSocket(s, g, true) == AddClosing(inactive, g);
    hide Closed, SetActive, Without, CloseSocket;
  }

  /** A closed socket waits for its peer among at most 64 others; one more lets the one that waited longest go. */
  lemma {:induction false} ClosingLaw(s: State, g: nat)
    requires Inv(s) && IsOpen(s, g)
    ensures var s' := CloseSocket(s, g, true);
            s'.closing == if |s.closing| < 64 then s.closing + [g] else s.closing[1..] + [g]
  {
    var all := s.closing + [g];
    hide Inv, CloseSocket, Without;
    NotClosing(s, g);
    ClosingAdded(s, g);
    if |all| > 64 {
      WithoutHead(all);
      assert all[1..] == s.closing[1..] + [g];
    }
  }

  lemma {:induction false} WithoutHead(all: seq<nat>)
    requires NoDup(all) && all != []
    ensures Without(all, {all[0]}) == all[1..]
    decreases |all|
  {
    var n := |all| - 1;
    if n == 0 {
      assert all[..0] == [];
    } else {
      WithoutHead(all[..n]);
      assert all[..n][1..] + [all[n]] == all[1..];
    }
  }
}
