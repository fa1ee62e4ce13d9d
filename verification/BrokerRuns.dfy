/** What holds over every run of the broker from its empty state. */
module BrokerRuns {
  import opened Common
  import opened OrderedMaps
  import opened Broker
  import opened BrokerInvariant
  import opened BrokerSteps

  /** The clock read by each event never goes back. */
  predicate Timed(events: seq<Event>) {
    && (forall i :: 0 <= i < |events| ==> 0 <= events[i].now)
    && (forall i, j :: 0 <= i < j < |events| ==> events[i].now <= events[j].now)
  }

  /** The state before event k. */
  function StateAt(events: seq<Event>, k: nat): State
    requires k <= |events|
  {
    if k == 0 then INITIAL else Apply(StateAt(events, k - 1), events[k - 1])
  }

  lemma NextState(events: seq<Event>, k: nat)
    requires k < |events|
    ensures StateAt(events, k + 1) == Apply(StateAt(events, k), events[k])
  {
    hide Apply;
  }

  lemma FirstState(events: seq<Event>)
    requires Timed(events)
    ensures Inv(StateAt(events, 0)) && (events != [] ==> StateAt(events, 0).clock <= events[0].now)
  {
    InitialInv();
    hide Inv;
  }

  lemma TimeGoesOn(events: seq<Event>, k: nat)
    requires Timed(events) && k < |events|
    ensures k + 1 < |events| ==> events[k].now <= events[k + 1].now
  {}

  lemma {:induction false} RunKeepsInv(events: seq<Event>, k: nat)
    requires Timed(events) && k <= |events|
    ensures Inv(StateAt(events, k))
    ensures k < |events| ==> StateAt(events, k).clock <= events[k].now
  {
    hide *;
    if k == 0 {
      FirstState(events);
    } else {
      RunKeepsInv(events, k - 1);
      NextState(events, k - 1);
      TimeGoesOn(events, k - 1);
      StepKeepsInv(StateAt(events, k - 1), events[k - 1]);
    }
  }

  /** After every run: requests, records, results, cancellations and deliveries stay within their limits, a request is
      pending exactly while its record says so, the results kept are those the records store, and idle records are in
      the order of their last change. */
  lemma {:induction false} RunStaysWithinBounds(events: seq<Event>, k: nat)
    requires Timed(events) && k <= |events|
    ensures var s := StateAt(events, k);
            && |s.pending.order| <= 1024 && PendingBytes(s) <= 67_108_864
            && |s.operations.order| <= 32768 && |s.cancellations.order| <= 4096
            && |s.retained| <= 1024 && RetainedBytes(s) <= 67_108_864
            && (forall t :: Outstanding(s, t) <= 4)
            && (forall id :: id in s.pending.at <==> id in s.operations.at && s.operations.at[id].standing.Pending?)
            && (forall id :: id in s.retained <==> id in s.operations.at && s.operations.at[id].stored.Some?)
            && Ascending(s.operations.order, IdleTimes(s))
  {
    RunKeepsInv(events, k);
    hide StateAt, RecordOk, PendingBytes, RetainedBytes, Outstanding, Ascending, Distinct, Shaped;
  }

  lemma {:induction false} RunLeads(events: seq<Event>, i: nat, j: nat)
    requires Timed(events) && i <= j <= |events|
    ensures Leads(StateAt(events, i), StateAt(events, j))
  {
    hide *;
    if i == j {
      LeadsSelf(StateAt(events, i));
    } else {
      RunLeads(events, i, j - 1);
      RunKeepsInv(events, j - 1);
      NextState(events, j - 1);
      StepKeepsInv(StateAt(events, j - 1), events[j - 1]);
      LeadsOn(StateAt(events, i), StateAt(events, j - 1), StateAt(events, j));
    }
  }

  // ---------- Facts about one record that last ----------

  /** Record k, wherever it still is, was given to a transport. */
  predicate Spent(s: State, k: nat) {
    k < s.nextSerial && forall id :: id in s.operations.at && s.operations.at[id].serial == k ==>
        s.operations.at[id].transport.Some?
  }

  predicate Closed(s: State, k: nat) {
    k < s.nextSerial && forall id :: id in s.operations.at && s.operations.at[id].serial == k ==>
        s.operations.at[id].standing.Settled?
  }

  /** Its wait ended, or an answer came from inside, before any transport took it. */
  predicate NeverSent(s: State, k: nat) {
    k < s.nextSerial && forall id :: id in s.operations.at && s.operations.at[id].serial == k ==>
                          !s.operations.at[id].standing.Pending? && s.operations.at[id].transport.None?
  }

  lemma LastingFacts(s: State, s': State, k: nat)
    requires Leads(s, s')
    ensures Spent(s, k) ==> Spent(s', k)
    ensures Closed(s, k) ==> Closed(s', k)
    ensures NeverSent(s, k) ==> NeverSent(s', k)
  {}

  // ---------- Deliveries ----------

  /** The record a claim hands to a transport. */
  function Delivers(s: State, e: Event): Option<(Id, nat)> {
    if e.ClaimEvent? && Choice(s, e.transport).Some? && Choice(s, e.transport).value in s.operations.at
    then Some((Choice(s, e.transport).value, s.operations.at[Choice(s, e.transport).value].serial)) else None
  }

  lemma DeliveryUnsent(s: State, e: Event)
    requires Inv(s) && Delivers(s, e).Some?
    ensures var (id, k) := Delivers(s, e).value;
            id in s.operations.at && s.operations.at[id].serial == k && k < s.nextSerial
            && s.operations.at[id].transport.None? && s.operations.at[id].standing.Pending?
            && s.operations.at[id].stage.Queued?
  {
    var id := Choice(s, e.transport).value;
    InvParts(s);
    hide Inv, Core, Choice;
    PendingRecord(s, id);
  }

  lemma SerialsDiffer(s: State, a: Id, b: Id)
    requires Inv(s) && a in s.operations.at && b in s.operations.at
        && s.operations.at[a].serial == s.operations.at[b].serial
    ensures a == b
  {
    InvParts(s);
    CoreParts(s);
    hide Core, Inv, Linked, Retaining, Shaped, Ordered, Bounded;
  }

  lemma DeliveryMarks(s: State, e: Event)
    requires Inv(s) && s.clock <= e.now && Delivers(s, e).Some?
    ensures Spent(Apply(s, e), Delivers(s, e).value.1)
    ensures Delivers(s, e).value.0 in Apply(s, e).operations.at
    ensures Apply(s, e).operations.at[Delivers(s, e).value.0].serial == Delivers(s, e).value.1
  {
    var (id, k) := Delivers(s, e).value;
    var s' := Apply(s, e);
    assert id in s.operations.at && s'.operations.at == s.operations.at[id := s'.operations.at[id]];
    assert s'.operations.at[id].transport.Some? && s'.operations.at[id].serial == k && s'.nextSerial == s.nextSerial;
    DeliveryUnsent(s, e);
    hide Inv, Apply, Delivers;
    forall x | x in s'.operations.at && s'.operations.at[x].serial == k ensures x == id {
      SerialsDiffer(s, x, id);
    }
  }

  lemma NotDeliveredAgain(s: State, e: Event, t: State, f: Event)
    requires Inv(s) && s.clock <= e.now && Inv(t) && Leads(Apply(s, e), t)
    requires Delivers(s, e).Some? && Delivers(t, f).Some?
    ensures Delivers(s, e).value.1 != Delivers(t, f).value.1
  {
    hide Inv, Leads, Apply, Delivers;
    DeliveryMarks(s, e);
    LastingFacts(Apply(s, e), t, Delivers(s, e).value.1);
    DeliveryUnsent(t, f);
  }

  /** No record is ever handed to a transport twice. */
  lemma {:induction false} DeliveredAtMostOnce(events: seq<Event>, i: nat, j: nat)
    requires Timed(events) && i < j < |events|
    requires Delivers(StateAt(events, i), events[i]).Some? && Delivers(StateAt(events, j), events[j]).Some?
    ensures Delivers(StateAt(events, i), events[i]).value.1 != Delivers(StateAt(events, j), events[j]).value.1
  {
    hide *;
    RunKeepsInv(events, i);
    RunKeepsInv(events, j);
    RunLeads(events, i + 1, j);
    NextState(events, i);
    NotDeliveredAgain(StateAt(events, i), events[i], StateAt(events, j), events[j]);
  }

  // ---------- Admissions ----------

  /** The event admits the identity anew, its earlier record gone. */
  predicate Readmits(s: State, e: Event, id: Id) {
    Admits(s, e) && e.id == id && id !in Prune(s, e.now).operations.at
  }

  lemma AdmittedShape(s: State, e: Event)
    requires Admits(s, e)
    ensures var p := Prune(s, e.now);
            && e.AdmitEvent? && e.id !in p.operations.at && |p.pending.order| < MAX_PENDING_REQUESTS
            && PendingBytes(p) + e.bytes <= MAX_PENDING_REQUEST_BYTES
            && Apply(s, e) == Prune(AddRequest(p, e.id, e.target, e.fingerprint, e.bytes, e.timeoutMs, e.now), e.now)
  {
    hide Prune, AddRequest, PendingBytes;
  }

  lemma NewRecordIsAdmitted(s: State, e: Event, id: Id)
    requires Inv(s) && s.clock <= e.now && id in Apply(s, e).operations.at
    requires s.nextSerial <= Apply(s, e).operations.at[id].serial
    ensures Readmits(s, e, id)
  {
    var s' := Apply(s, e);
    var p := Prune(s, e.now);
    hide Core, Inv, Leads, Prune, Apply, Admits, AddRequest, Linked, PendingBytes, Fits;
    StepKeepsInv(s, e);
    InvParts(s');
    OwnedRecord(s', id);
    AdmittedShape(s, e);
    InvParts(s);
    FitsCancellations(s);
    PruneInv(s, e.now);
    InvParts(p);
    AddedAlone(p, s', e, id);
  }

  lemma AddedAlone(p: State, s': State, e: Event, id: Id)
    requires Core(p) && Fits(p) && e.AdmitEvent? && p.clock == e.now && e.id !in p.operations.at
    requires |p.pending.order| < MAX_PENDING_REQUESTS && PendingBytes(p) + e.bytes <= MAX_PENDING_REQUEST_BYTES
    requires s' == Prune(AddRequest(p, e.id, e.target, e.fingerprint, e.bytes, e.timeoutMs, e.now), e.now)
    requires id in s'.operations.at && p.nextSerial <= s'.operations.at[id].serial < s'.nextSerial
    ensures id == e.id
  {
    var added := AddRequest(p, e.id, e.target, e.fingerprint, e.bytes, e.timeoutMs, e.now);
    hide Core, Fits, Leads, Prune, AddRequest;
    AddKeeps(p, e.id, e.target, e.fingerprint, e.bytes, e.timeoutMs);
    AddedAside(p, e.id, e.target, e.fingerprint, e.bytes, e.timeoutMs, e.now);
    FitsCancellations(p);
    PruneInv(added, e.now);
    AddedRecords(p, added, s', e, id);
  }

  lemma AddedRecords(p: State, added: State, s': State, e: Event, id: Id)
    requires e.AdmitEvent? && added == AddRequest(p, e.id, e.target, e.fingerprint, e.bytes, e.timeoutMs, e.now)
    requires Core(p) && Leads(added, s') && id in s'.operations.at
    requires p.nextSerial <= s'.operations.at[id].serial < s'.nextSerial == added.nextSerial
    ensures id == e.id
  {
    assert id in added.operations.at && added.operations.at[id].serial == s'.operations.at[id].serial;
    if id != e.id {
      assert id in p.operations.at;
      hide Core, Leads;
      OwnedRecord(p, id);
    }
  }

  lemma SameRecordOrNew(s: State, e: Event, id: Id)
    requires Inv(s) && s.clock <= e.now && id in Apply(s, e).operations.at
    ensures Readmits(s, e, id)
            || (id in s.operations.at && s.operations.at[id].serial == Apply(s, e).operations.at[id].serial)
  {
    hide Inv, Apply, Readmits;
    StepKeepsInv(s, e);
    if s.nextSerial <= Apply(s, e).operations.at[id].serial {
      NewRecordIsAdmitted(s, e, id);
    }
  }

  /** Between two sightings of an identity, either it is the same record or the identity was admitted anew. */
  lemma {:induction false} SameRecordOrReadmitted(events: seq<Event>, i: nat, j: nat, id: Id)
    requires Timed(events) && i <= j <= |events|
    requires id in StateAt(events, i).operations.at && id in StateAt(events, j).operations.at
    ensures StateAt(events, i).operations.at[id].serial == StateAt(events, j).operations.at[id].serial
            || exists m :: i <= m < j && Readmits(StateAt(events, m), events[m], id)
  {
    hide *;
    if i < j {
      RunKeepsInv(events, j - 1);
      NextState(events, j - 1);
      SameRecordOrNew(StateAt(events, j - 1), events[j - 1], id);
      if !Readmits(StateAt(events, j - 1), events[j - 1], id) {
        SameRecordOrReadmitted(events, i, j - 1, id);
      }
    }
  }

  /** An identity is handed out again only after its record was pruned and it was admitted anew in between. */
  lemma {:induction false} RedeliveryNeedsReadmission(events: seq<Event>, i: nat, j: nat)
    requires Timed(events) && i < j < |events|
    requires Delivers(StateAt(events, i), events[i]).Some? && Delivers(StateAt(events, j), events[j]).Some?
    requires Delivers(StateAt(events, i), events[i]).value.0 == Delivers(StateAt(events, j), events[j]).value.0
    ensures exists m :: i < m < j && Readmits(StateAt(events, m), events[m],
        Delivers(StateAt(events, i), events[i]).value.0)
  {
    hide *;
    DeliveredAtMostOnce(events, i, j);
    RunKeepsInv(events, i);
    RunKeepsInv(events, j);
    NextState(events, i);
    DeliveryMarks(StateAt(events, i), events[i]);
    DeliveryUnsent(StateAt(events, j), events[j]);
    SameRecordOrReadmitted(events, i + 1, j, Delivers(StateAt(events, i), events[i]).value.0);
  }

  // ---------- Settlements ----------

  /** The record a response is accepted for, and whether a transport sent it. */
  function Accepts(s: State, e: Event): Option<(nat, bool)> {
    match e
    case ResolveEvent(id, r, now) =>
      if Record(s, id, r, now).1.Accepted? && id in Prune(s, now).operations.at
      then Some((Prune(s, now).operations.at[id].serial, false)) else None
    case SettleEvent(t, id, r, now) =>
      if SettleTransport(s, t, id, r, now).1.Accepted? && id in Prune(s, now).operations.at
      then Some((Prune(s, now).operations.at[id].serial, true)) else None
    case _ => None
  }

  lemma SettleCloses(s: State, id: Id, r: Response, now: int)
    requires Inv(s) && s.clock <= now && id in s.operations.at && !s.operations.at[id].standing.Settled?
    ensures Closed(Settle(s, id, r, now), s.operations.at[id].serial)
  {
    var o := s.operations.at[id];
    var next := SettledAs(o, r, now);
    var settled := Retire(s, id, next, now);
    var cleared := settled.(cancellations := settled.cancellations.Delete(id));
    assert Settle(s, id, r, now) == Prune(cleared, now) && cleared.operations == s.operations.Move(id, next);
    assert cleared.clock == now && cleared.nextSerial == s.nextSerial;
    WithoutMembers(s.cancellations.order, {id});
    assert settled.cancellations == s.cancellations && |cleared.cancellations.order| <= |s.cancellations.order|;
    assert settled.cancellations.Delete(id) == settled.cancellations.DeleteAll({id});
    InvParts(s);
    OwnedRecord(s, id);
    FitsCancellations(s);
    SettledFollows(o, r, now, s);
    hide Core, Fits, Settle, Retire, SettledAs, Prune, Leads;
    RetireKeeps(s, id, next, now);
    DropCancellations(settled, {id});
    PruneInv(cleared, now);
    assert cleared.operations.at == s.operations.at[id := next] by { CoreParts(s); hide Ordered;
        MoveShape(s.operations, id, next); }
    ClosedByOne(s, cleared, id, next);
    LastingFacts(cleared, Prune(cleared, now), o.serial);
  }

  lemma ClosedByOne(s: State, s': State, id: Id, next: Operation)
    requires Inv(s) && id in s.operations.at && s'.operations.at == s.operations.at[id := next]
        && s'.nextSerial == s.nextSerial
    requires next.standing.Settled? && next.serial == s.operations.at[id].serial
    ensures Closed(s', next.serial)
  {
    InvParts(s);
    OwnedRecord(s, id);
    hide Inv, Core;
    forall x | x in s'.operations.at && s'.operations.at[x].serial == next.serial ensures x == id {
      if x != id {
        SerialsDiffer(s, x, id);
      }
    }
  }

  lemma RecordCloses(s0: State, id: Id, r: Response, now: int)
    requires Inv(s0) && s0.clock <= now && Record(s0, id, r, now).1.Accepted?
    ensures var p := Prune(s0, now);
            id in p.operations.at && !p.operations.at[id].standing.Settled?
            && Closed(Record(s0, id, r, now).0, p.operations.at[id].serial)
  {
    var p := Prune(s0, now);
    assert Record(s0, id, r, now).0 == Settle(p, id, r, now);
    InvParts(s0);
    FitsCancellations(s0);
    PruneInv(s0, now);
    hide Inv, Core, Settle, Prune, Closed;
    SettleCloses(p, id, r, now);
  }

  /** A record pruned twice keeps its serial and its transport, and what is settled stays so. */
  lemma PrunedIsSame(s: State, now: int, id: Id)
    requires Inv(s) && s.clock <= now && id in Prune(s, now).operations.at
    ensures id in s.operations.at && Follows(s.operations.at[id], Prune(s, now).operations.at[id])
    ensures Inv(Prune(s, now)) && Prune(s, now).clock == now && Leads(s, Prune(s, now))
  {
    InvParts(s);
    FitsCancellations(s);
    hide Inv, Core, Prune;
    PruneInv(s, now);
    InvParts(Prune(s, now));
    OwnedRecord(Prune(s, now), id);
  }

  /** An acceptance closes its record, which was open, and which the transport had if it sent the answer. */
  lemma AcceptanceMarks(s: State, e: Event)
    requires Inv(s) && s.clock <= e.now && Accepts(s, e).Some?
    ensures Closed(Apply(s, e), Accepts(s, e).value.0)
    ensures var p := Prune(s, e.now);
            exists id :: id in p.operations.at && p.operations.at[id].serial == Accepts(s, e).value.0
                         && !p.operations.at[id].standing.Settled?
                         && (Accepts(s, e).value.1 ==> p.operations.at[id].transport.Some?)
  {
    var id, now, p := e.id, e.now, Prune(s, e.now);
    if e.ResolveEvent? {
      hide Inv, Prune, Record, Closed;
      RecordCloses(s, id, e.response, now);
    } else {
      var r := if e.response.hasError && e.response.explicit.Some? then e.response.(local := false) else e.response;
      assert SettleTransport(s, e.transport, id, e.response, now) == Record(p, id, r, now);
      assert p.operations.at[id].transport.Some?;
      hide Inv, Prune, Record, Closed, SettleTransport;
      PrunedIsSame(s, now, id);
      RecordCloses(p, id, r, now);
      PrunedIsSame(p, now, id);
    }
  }

  lemma NotSettledAgain(s: State, e: Event, t: State, f: Event)
    requires Inv(s) && s.clock <= e.now && Inv(t) && t.clock <= f.now && Leads(Apply(s, e), t)
    requires Accepts(s, e).Some? && Accepts(t, f).Some?
    ensures Accepts(s, e).value.0 != Accepts(t, f).value.0
  {
    var k := Accepts(s, e).value.0;
    hide Inv, Core, Fits, Leads, Apply, Accepts, Prune;
    AcceptanceMarks(s, e);
    AcceptanceMarks(t, f);
    InvParts(t);
    FitsCancellations(t);
    PruneInv(t, f.now);
    LastingFacts(Apply(s, e), t, k);
    LastingFacts(t, Prune(t, f.now), k);
  }

  /** No record is settled twice. */
  lemma {:induction false} SettledAtMostOnce(events: seq<Event>, i: nat, j: nat)
    requires Timed(events) && i < j < |events|
    requires Accepts(StateAt(events, i), events[i]).Some? && Accepts(StateAt(events, j), events[j]).Some?
    ensures Accepts(StateAt(events, i), events[i]).value.0 != Accepts(StateAt(events, j), events[j]).value.0
  {
    hide *;
    RunKeepsInv(events, i);
    RunKeepsInv(events, j);
    RunLeads(events, i + 1, j);
    NextState(events, i);
    NotSettledAgain(StateAt(events, i), events[i], StateAt(events, j), events[j]);
  }

  // ---------- Ended while queued ----------

  lemma EndedQueued(s: State, id: Id)
    requires Inv(s) && id in s.operations.at && s.operations.at[id].standing.Over? && s.operations.at[id].stage.Queued?
    ensures s.operations.at[id].outcome.NotExecuted? && NeverSent(s, s.operations.at[id].serial)
  {
    InvParts(s);
    OwnedRecord(s, id);
    hide Inv, Core;
    var k := s.operations.at[id].serial;
    forall x | x in s.operations.at && s.operations.at[x].serial == k ensures x == id {
      SerialsDiffer(s, x, id);
    }
  }

  lemma NeverSentStays(t: State, f: Event, k: nat)
    requires Inv(t) && t.clock <= f.now && NeverSent(t, k)
    ensures Delivers(t, f).Some? ==> Delivers(t, f).value.1 != k
    ensures Accepts(t, f) != Some((k, true))
  {
    hide Inv, Core, Fits, Leads, Accepts, Delivers, Prune;
    if Delivers(t, f).Some? {
      DeliveryUnsent(t, f);
    }
    if Accepts(t, f).Some? {
      AcceptanceMarks(t, f);
      InvParts(t);
      FitsCancellations(t);
      PruneInv(t, f.now);
      LastingFacts(t, Prune(t, f.now), k);
    }
  }

  /** A record whose wait ended while it was queued says it was not executed, and no transport ever gets it or
      settles it. */
  lemma {:induction false} EndedQueuedIsNeverExecuted(events: seq<Event>, i: nat, j: nat, id: Id)
    requires Timed(events) && i <= j < |events| && id in StateAt(events, i).operations.at
    requires StateAt(events, i).operations.at[id].standing.Over? && StateAt(events, i).operations.at[id].stage.Queued?
    ensures StateAt(events, i).operations.at[id].outcome.NotExecuted?
    ensures var k := StateAt(events, i).operations.at[id].serial;
            && (Delivers(StateAt(events, j), events[j]).Some? ==> Delivers(StateAt(events, j), events[j]).value.1 != k)
            && Accepts(StateAt(events, j), events[j]) != Some((k, true))
  {
    hide *;
    RunKeepsInv(events, i);
    RunKeepsInv(events, j);
    RunLeads(events, i, j);
    EndedQueued(StateAt(events, i), id);
    LastingFacts(StateAt(events, i), StateAt(events, j), StateAt(events, i).operations.at[id].serial);
    NeverSentStays(StateAt(events, j), events[j], StateAt(events, i).operations.at[id].serial);
  }

  lemma LaterVersion(s: State, t: State, id: Id)
    requires Inv(s) && Leads(s, t) && id in s.operations.at && id in t.operations.at
    requires s.operations.at[id].serial == t.operations.at[id].serial
    ensures Follows(s.operations.at[id], t.operations.at[id])
  {
    InvParts(s);
    hide Inv, Core, Follows;
    OwnedRecord(s, id);
  }

  /** Two versions of one record: the stage never moves back, a transport never changes, and settled is for good. */
  lemma {:induction false} RecordsOnlyAdvance(events: seq<Event>, i: nat, j: nat, id: Id)
    requires Timed(events) && i <= j <= |events|
    requires id in StateAt(events, i).operations.at && id in StateAt(events, j).operations.at
    requires StateAt(events, i).operations.at[id].serial == StateAt(events, j).operations.at[id].serial
    ensures var o, n := StateAt(events, i).operations.at[id], StateAt(events, j).operations.at[id];
            && o.stage.Rank() <= n.stage.Rank()
            && (o.transport.Some? ==> n.transport == o.transport)
            && (!o.standing.Pending? ==> !n.standing.Pending?)
            && (o.standing.Settled? ==> n.standing.Settled? && n.outcome == o.outcome && n.execution == o.execution)
    ensures Queued.Rank() < Dispatched.Rank() < Executing.Rank() < ResponseDelivery.Rank()
  {
    hide Inv, StateAt, Leads;
    RunLeads(events, i, j);
    RunKeepsInv(events, i);
    LaterVersion(StateAt(events, i), StateAt(events, j), id);
  }
}
