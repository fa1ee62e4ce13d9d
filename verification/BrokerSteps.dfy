/** Every operation of the broker keeps the invariant and only moves records forward. */
module BrokerSteps {
  import opened Common
  import opened OrderedMaps
  import opened Broker
  import opened BrokerInvariant

  predicate Fits(s: State) {
    && |s.operations.order| <= MAX_OPERATION_RECORDS && ResultsFit(s)
    && |s.cancellations.order| <= MAX_CANCELLATION_TOMBSTONES
  }

  /** The step stays within its time and admits nothing. */
  predicate Ticks(s: State, s': State, now: int) {
    s'.clock <= now && s'.nextSerial == s.nextSerial
  }

  lemma InvParts(s: State)
    requires Inv(s)
    ensures Core(s) && Fits(s)
  {
    hide Core;
  }

  lemma InvFrom(s: State)
    requires Core(s) && Fits(s)
    ensures Inv(s)
  {
    hide Core;
  }

  lemma ResultsSame(s: State, s': State, id: Id, next: Operation)
    requires id in s.operations.at && next.stored == s.operations.at[id].stored
    requires s'.retained == s.retained && s'.operations.at == s.operations.at[id := next]
    ensures ResultsFit(s') == ResultsFit(s)
  {
    hide Total;
    TotalAgrees(s.retained, StoredSizes(s.operations.at), StoredSizes(s'.operations.at));
  }

  // ---------- Pruning and admission ----------

  lemma PruneInv(s: State, now: int)
    requires Core(s) && s.clock <= now && |s.cancellations.order| <= MAX_CANCELLATION_TOMBSTONES
    ensures Inv(Prune(s, now)) && Leads(s, Prune(s, now)) && SameRest(s.(clock := now), Prune(s, now))
    ensures Ticks(s, Prune(s, now), now)
  {
    hide Core, Leads, Prune;
    PruneKeeps(s, now);
  }

  /** The new request and record, and the pruning after them. */
  lemma AddedInv(s: State, id: Id, target: PeerId, fingerprint: Fingerprint, bytes: nat, timeoutMs: int, now: int)
    requires Inv(s) && s.clock == now && id !in s.operations.at
    requires |s.pending.order| < MAX_PENDING_REQUESTS && PendingBytes(s) + bytes <= MAX_PENDING_REQUEST_BYTES
    ensures var s' := Prune(AddRequest(s, id, target, fingerprint, bytes, timeoutMs, now), now);
            Inv(s') && Leads(s, s') && s'.clock <= now
  {
    InvParts(s);
    hide Core, Inv, Leads, Prune, AddRequest, PendingBytes;
    var added := AddRequest(s, id, target, fingerprint, bytes, timeoutMs, now);
    AddKeeps(s, id, target, fingerprint, bytes, timeoutMs);
    AddedAside(s, id, target, fingerprint, bytes, timeoutMs, now);
    PruneInv(added, now);
    LeadsOn(s, added, Prune(added, now));
  }

  lemma AdmitIs(s0: State, id: Id, target: PeerId, fingerprint: Fingerprint, bytes: nat, timeoutMs: int, now: int)
    ensures var s, r := Prune(s0, now), Admit(s0, id, target, fingerprint, bytes, timeoutMs, now);
            if !r.1.Admitted? then r.0 == s else
              && id !in s.operations.at && |s.pending.order| < MAX_PENDING_REQUESTS
              && PendingBytes(s) + bytes <= MAX_PENDING_REQUEST_BYTES
              && r.0 == Prune(AddRequest(s, id, target, fingerprint, bytes, timeoutMs, now), now)
  {
    hide Prune, AddRequest, PendingBytes;
  }

  lemma PrunedInv(s: State, now: int)
    requires Inv(s) && s.clock <= now
    ensures Inv(Prune(s, now)) && Leads(s, Prune(s, now))
    ensures Prune(s, now).clock == now && Prune(s, now).nextSerial == s.nextSerial
  {
    InvParts(s);
    hide Core, Inv, Leads, Prune;
    PruneInv(s, now);
  }

  lemma AdmitInv(s0: State, id: Id, target: PeerId, fingerprint: Fingerprint, bytes: nat, timeoutMs: int, now: int)
    requires Inv(s0) && s0.clock <= now
    ensures var s' := Admit(s0, id, target, fingerprint, bytes, timeoutMs, now).0;
            && Inv(s') && Leads(s0, s') && s'.clock <= now
            && (Admit(s0, id, target, fingerprint, bytes, timeoutMs, now).1.Admitted? || s'.nextSerial == s0.nextSerial)
  {
    hide *;
    PrunedInv(s0, now);
    AdmitIs(s0, id, target, fingerprint, bytes, timeoutMs, now);
    if Admit(s0, id, target, fingerprint, bytes, timeoutMs, now).1.Admitted? {
      AddedInv(Prune(s0, now), id, target, fingerprint, bytes, timeoutMs, now);
      LeadsOn(s0, Prune(s0, now), Prune(AddRequest(Prune(s0, now), id, target, fingerprint, bytes, timeoutMs, now),
          now));
    }
  }

  lemma AddedAside(s: State, id: Id, target: PeerId, fingerprint: Fingerprint, bytes: nat, timeoutMs: int, now: int)
    ensures var s' := AddRequest(s, id, target, fingerprint, bytes, timeoutMs, now);
            s'.cancellations == s.cancellations && s'.clock == s.clock
  {}

  // ---------- Claims ----------

  lemma ClaimInv(s: State, t: PeerId, owner: Owner, now: int)
    requires Inv(s) && s.clock <= now
    ensures Inv(Claim(s, t, owner, now)) && Leads(s, Claim(s, t, owner, now))
    ensures Ticks(s, Claim(s, t, owner, now), now)
  {
    var id := Choice(s, t);
    InvParts(s);
    if id.Some? {
      var s' := Dispatch(s, id.value, t, owner, now);
      assert Eligible(s, id.value, t) && Outstanding(s, t) < MAX_OUTSTANDING_REQUESTS_PER_TRANSPORT
          && Claim(s, t, owner, now) == s';
      DispatchFitsStill(s, id.value, t, owner, now);
      hide *;
      DispatchKeeps(s, id.value, t, owner, now);
      InvFrom(s');
    } else {
      hide *;
      LeadsSelf(s);
    }
  }

  lemma DispatchFitsStill(s: State, id: Id, t: PeerId, owner: Owner, now: int)
    requires Core(s) && Fits(s) && Eligible(s, id, t)
    ensures Fits(Dispatch(s, id, t, owner, now))
  {
    assert id in s.operations.at;
    hide Core, ResultsFit;
    var s' := Dispatch(s, id, t, owner, now);
    ResultsSame(s, s', id, s'.operations.at[id]);
  }

  // ---------- Cancellations ----------

  ghost predicate TombstonesOk(s: State) {
    && s.cancellations.Valid() && Ascending(s.cancellations.order, TombstoneTimes(s))
    && Within(TombstoneTimes(s), s.clock)
  }

  lemma TombstonesAre(s: State)
    requires Core(s)
    ensures TombstonesOk(s)
  {
    CoreParts(s);
    hide Core, Linked, Retaining, Distinct, Bounded, Records, Orders;
  }

  /** Core and Leads across a change of cancellations, Peers or the clock alone. */
  lemma AsideCore(s: State, s': State)
    requires Core(s) && SameRequests(s, s') && TombstonesOk(s')
    ensures Core(s') && Leads(s, s')
  {
    assert s'.cancellations.Valid() && Ascending(s'.cancellations.order, TombstoneTimes(s'))
        && Within(TombstoneTimes(s'), s'.clock);
    hide *;
    CoreParts(s);
    AsideRecords(s, s');
    AsideOrders(s, s');
    CoreFrom(s');
  }

  lemma TombstonesSame(s: State, s': State)
    requires TombstonesOk(s) && s.clock <= s'.clock && s'.cancellations.order == s.cancellations.order
    requires forall k :: k in s'.cancellations.at <==> k in s.cancellations.at
    requires forall k :: k in s.cancellations.at ==> s'.cancellations.at[k].createdAt == s.cancellations.at[k].createdAt
    ensures TombstonesOk(s')
  {
    assert TombstoneTimes(s') == TombstoneTimes(s);
  }

  lemma TombstonesWithout(s: State, gone: set<Id>)
    requires TombstonesOk(s)
    ensures TombstonesOk(s.(cancellations := s.cancellations.DeleteAll(gone)))
  {
    var s' := s.(cancellations := s.cancellations.DeleteAll(gone));
    DeleteAllValid(s.cancellations, gone);
    AscendingWithout(s.cancellations.order, gone, TombstoneTimes(s));
    WithoutMembers(s.cancellations.order, gone);
    hide Ascending, Without;
    AscendingFewer(s'.cancellations.order, TombstoneTimes(s), TombstoneTimes(s'));
  }

  lemma TombstonesWith(s: State, id: Id, c: Cancellation)
    requires TombstonesOk(s) && id !in s.cancellations.at && c.createdAt == s.clock
    ensures TombstonesOk(s.(cancellations := s.cancellations.Set(id, c)))
  {
    var s' := s.(cancellations := s.cancellations.Set(id, c));
    hide Ascending, NoDup;
    SetValid(s.cancellations, id, c);
    assert TombstoneTimes(s') == TombstoneTimes(s)[id := s.clock];
    AscendingFewer(s.cancellations.order, TombstoneTimes(s), TombstoneTimes(s'));
    AscendingAppend(s.cancellations.order, id, TombstoneTimes(s'));
  }

  lemma {:induction false} TrimCancellationsKeeps(s: State)
    requires Core(s)
    ensures Core(TrimCancellations(s)) && Leads(s, TrimCancellations(s)) && SameRequests(s, TrimCancellations(s))
    ensures |TrimCancellations(s).cancellations.order| <= MAX_CANCELLATION_TOMBSTONES
    ensures forall id :: id in TrimCancellations(s).cancellations.at ==> id in s.cancellations.at
    ensures TrimCancellations(s).clock == s.clock
    decreases |s.cancellations.order|
  {
    if |s.cancellations.order| <= MAX_CANCELLATION_TOMBSTONES {
      hide Core;
      LeadsSelf(s);
    } else {
      var id := s.cancellations.order[0];
      WithoutPresentShrinks(s.cancellations.order, id);
      var s1 := s.(cancellations := s.cancellations.Delete(id));
      assert TrimCancellations(s) == TrimCancellations(s1) && SameRequests(s, s1) && s1.clock == s.clock;
      assert s.cancellations.Delete(id) == s.cancellations.DeleteAll({id});
      assert forall k :: k in s1.cancellations.at ==> k in s.cancellations.at;
      hide *;
      DropCancellations(s, {id});
      TrimCancellationsKeeps(s1);
      LeadsOn(s, s1, TrimCancellations(s1));
      SameRequestsOn(s, s1, TrimCancellations(s1));
    }
  }

  lemma SameRequestsOn(a: State, b: State, c: State)
    requires SameRequests(a, b) && SameRequests(b, c)
    ensures SameRequests(a, c)
  {}

  lemma DropCancellations(s: State, gone: set<Id>)
    requires Core(s)
    ensures Core(s.(cancellations := s.cancellations.DeleteAll(gone)))
    ensures Leads(s, s.(cancellations := s.cancellations.DeleteAll(gone)))
  {
    assert SameRequests(s, s.(cancellations := s.cancellations.DeleteAll(gone)));
    hide *;
    TombstonesAre(s);
    TombstonesWithout(s, gone);
    AsideCore(s, s.(cancellations := s.cancellations.DeleteAll(gone)));
  }

  lemma SetClock(s: State, now: int)
    requires Core(s) && s.clock <= now
    ensures Core(s.(clock := now)) && Leads(s, s.(clock := now))
  {
    hide Core, Leads, TombstonesOk;
    TombstonesAre(s);
    TombstonesSame(s, s.(clock := now));
    AsideCore(s, s.(clock := now));
  }

  lemma PruneCancellationsKeeps(s: State, now: int)
    requires Core(s) && s.clock <= now
    ensures var s' := PruneCancellations(s, now);
            && Core(s') && Leads(s, s') && SameRequests(s, s') && s'.clock == now
            && |s'.cancellations.order| <= MAX_CANCELLATION_TOMBSTONES
            && (forall id :: id in s'.cancellations.at ==> id in s.cancellations.at)
  {
    var s0 := s.(clock := now);
    var gone := set id | id in s.cancellations.at
        && now - s.cancellations.at[id].createdAt >= CANCELLATION_TOMBSTONE_TTL_MS;
    var s1 := s0.(cancellations := s0.cancellations.DeleteAll(gone));
    var s' := PruneCancellations(s, now);
    assert s' == TrimCancellations(s1) && SameRequests(s, s0) && SameRequests(s0, s1) && s1.clock == now;
    assert forall id :: id in s1.cancellations.at ==> id in s.cancellations.at;
    hide *;
    SetClock(s, now);
    DropCancellations(s0, gone);
    TrimCancellationsKeeps(s1);
    LeadsOn(s, s0, s1);
    LeadsOn(s, s1, s');
    SameRequestsOn(s, s0, s1);
    SameRequestsOn(s, s1, s');
  }

  lemma NewCancellation(s: State, id: Id, c: Cancellation)
    requires Core(s) && id !in s.cancellations.at && c.createdAt == s.clock
    ensures Core(s.(cancellations := s.cancellations.Set(id, c)))
        && Leads(s, s.(cancellations := s.cancellations.Set(id, c)))
  {
    assert SameRequests(s, s.(cancellations := s.cancellations.Set(id, c)));
    hide *;
    TombstonesAre(s);
    TombstonesWith(s, id, c);
    AsideCore(s, s.(cancellations := s.cancellations.Set(id, c)));
  }

  lemma CancelKeeps(s: State, id: Id, delivery: Option<PeerId>, now: int)
    requires Core(s) && s.clock <= now
    ensures var s' := Cancel(s, id, delivery, now);
            && Core(s') && Leads(s, s') && SameRequests(s, s')
            && (s' == s || (|s'.cancellations.order| <= MAX_CANCELLATION_TOMBSTONES && s'.clock == now))
  {
    var s' := Cancel(s, id, delivery, now);
    if delivery.None? || id in s.cancellations.at {
      hide *;
      LeadsSelf(s);
    } else {
      var p := PruneCancellations(s, now);
      var c := Cancellation(delivery.value, now, None);
      var q := p.(cancellations := p.cancellations.Set(id, c));
      assert s' == PruneCancellations(q, now) && SameRequests(p, q) && q.clock == p.clock;
      hide *;
      PruneCancellationsKeeps(s, now);
      NewCancellation(p, id, c);
      PruneCancellationsKeeps(q, now);
      LeadsOn(s, p, q);
      LeadsOn(s, q, s');
      SameRequestsOn(s, p, q);
      SameRequestsOn(s, q, s');
    }
  }

  // ---------- Ends ----------

  lemma EndedFollows(o: Operation, how: Ending, now: int, s: State)
    requires RecordOk(o, s) && o.standing.Pending? && s.clock <= now
    ensures var n := Ended(o, how, now);
            Follows(o, n) && n.standing == Over(how) && n.updatedAt == now && RecordOk(n, s.(clock := now))
                && n.stored.None? && o.stored.None?
  {}

  lemma RetiredStillFits(s: State, id: Id, next: Operation, now: int)
    requires Core(s) && Fits(s) && id in s.operations.at && next.stored.None? && s.operations.at[id].stored.None?
    ensures Fits(Retire(s, id, next, now))
  {
    var s' := Retire(s, id, next, now);
    hide ResultsFit, Records, Ordered, Bounded;
    MoveShape(s.operations, id, next);
    hide Core, Orders, Shaped;
    ResultsSame(s, s', id, next);
  }

  lemma RecordsValid(s: State)
    requires Core(s)
    ensures s.operations.Valid()
  {
    CoreParts(s);
    hide Core, Linked, Retaining, Distinct, Ordered, Bounded;
  }

  lemma PendingRecord(s: State, id: Id)
    requires Core(s) && id in s.pending.at
    ensures id in s.operations.at && RequestOk(s.pending.at[id], s.operations.at[id], s)
        && RecordOk(s.operations.at[id], s)
  {
    CoreParts(s);
    hide Core, Retaining, Distinct, Shaped, Ordered, Bounded, Records, Orders;
  }

  lemma EndWaiterInv(s: State, id: Id, how: Ending, now: int)
    requires Inv(s) && s.clock <= now
    ensures Inv(EndWaiter(s, id, how, now)) && Leads(s, EndWaiter(s, id, how, now))
    ensures Ticks(s, EndWaiter(s, id, how, now), now)
  {
    var s' := EndWaiter(s, id, how, now);
    InvParts(s);
    if id in s.pending.at {
      PendingRecord(s, id);
      var o := s.operations.at[id];
      var next := Ended(o, how, now);
      var r := Retire(s, id, next, now);
      assert s' == if how.Disconnected? then r else Cancel(r, id, s.pending.at[id].delivery, now);
      assert r.clock == now;
      hide Core, Inv, Leads, Retire, Fits, EndWaiter, Cancel, Ended, Follows, RecordOk;
      assert o.standing.Pending?;
      EndedFollows(o, how, now, s);
      RetireKeeps(s, id, next, now);
      RetiredStillFits(s, id, next, now);
      if how.Disconnected? {
        InvFrom(s');
      } else {
        CancelKeeps(r, id, s.pending.at[id].delivery, now);
        LeadsOn(s, r, s');
        CancelFits(r, id, s.pending.at[id].delivery, now);
        InvFrom(s');
      }
    } else {
      hide *;
      LeadsSelf(s);
    }
  }

  lemma CancelFits(s: State, id: Id, delivery: Option<PeerId>, now: int)
    requires Core(s) && Fits(s) && s.clock == now
    ensures Fits(Cancel(s, id, delivery, now)) && Cancel(s, id, delivery, now).clock == now
  {
    hide Cancel, Core, Leads, Total;
    CancelKeeps(s, id, delivery, now);
    assert RetainedBytes(Cancel(s, id, delivery, now)) == RetainedBytes(s);
  }

  lemma {:induction false} EndAllInv(s: State, ids: seq<Id>, how: Ending, now: int)
    requires Inv(s) && s.clock <= now
    ensures Inv(EndAll(s, ids, how, now)) && Leads(s, EndAll(s, ids, how, now))
    ensures Ticks(s, EndAll(s, ids, how, now), now)
  {
    if ids == [] {
      hide Inv;
      LeadsSelf(s);
    } else {
      var n := |ids| - 1;
      var s1 := EndAll(s, ids[..n], how, now);
      assert EndAll(s, ids, how, now) == EndWaiter(s1, ids[n], how, now);
      hide *;
      EndAllInv(s, ids[..n], how, now);
      EndWaiterInv(s1, ids[n], how, now);
      LeadsOn(s, s1, EndAll(s, ids, how, now));
    }
  }

  // ---------- Progress and settlement ----------

  lemma OwnedRecord(s: State, id: Id)
    requires Core(s) && id in s.operations.at
    ensures RecordOk(s.operations.at[id], s)
  {
    CoreParts(s);
    hide Core, Retaining, Distinct, Shaped, Ordered, Bounded, Records, Orders;
  }

  lemma ProgressedFollows(o: Operation, phase: Phase, now: int, s: State)
    requires RecordOk(o, s) && s.clock <= now && o.transport.Some? && !o.standing.Settled? && !o.stage.ResponseDelivery?
    requires phase.ExecutingPhase? ==> o.stage.Dispatched?
    ensures var n := Progressed(o, phase, now);
            && Follows(o, n) && RecordOk(n, s.(clock := now)) && n.updatedAt == now
            && n.standing == o.standing && n.stored == o.stored && n.transport == o.transport
  {}

  lemma TouchedStillFits(s: State, id: Id, next: Operation, now: int)
    requires Core(s) && Fits(s) && id in s.operations.at && next.stored == s.operations.at[id].stored
    ensures Fits(Touch(s, id, next, now))
  {
    var s' := Touch(s, id, next, now);
    hide ResultsFit, Records, Ordered, Bounded;
    MoveShape(s.operations, id, next);
    hide Core, Orders, Shaped;
    ResultsSame(s, s', id, next);
  }

  lemma ObserveInv(s0: State, t: PeerId, id: Id, phase: Phase, now: int)
    requires Inv(s0) && s0.clock <= now
    ensures Inv(Observe(s0, t, id, phase, now)) && Leads(s0, Observe(s0, t, id, phase, now))
    ensures Ticks(s0, Observe(s0, t, id, phase, now), now)
  {
    var s, s' := Prune(s0, now), Observe(s0, t, id, phase, now);
    hide Core, Inv, Leads, Prune, Fits, Follows, RecordOk, Progressed;
    InvParts(s0);
    FitsCancellations(s0);
    PruneInv(s0, now);
    InvParts(s);
    if s' != s {
      var o := s.operations.at[id];
      var next := Progressed(o, phase, now);
      OwnedRecord(s, id);
      ProgressedFollows(o, phase, now, s);
      TouchKeeps(s, id, next, now);
      TouchedStillFits(s, id, next, now);
      InvFrom(s');
      LeadsOn(s0, s, s');
    }
  }

  lemma FitsCancellations(s: State)
    requires Fits(s)
    ensures |s.cancellations.order| <= MAX_CANCELLATION_TOMBSTONES
  {}

  lemma SettledFollows(o: Operation, r: Response, now: int, s: State)
    requires RecordOk(o, s) && s.clock <= now && !o.standing.Settled?
    ensures var n := SettledAs(o, r, now);
            && Follows(o, n) && RecordOk(n, s.(clock := now)) && n.updatedAt == now && n.standing.Settled?
                && o.stored.None?
  {}

  lemma SettleInv(s: State, id: Id, r: Response, now: int)
    requires Inv(s) && s.clock <= now && id in s.operations.at && !s.operations.at[id].standing.Settled?
    ensures Inv(Settle(s, id, r, now)) && Leads(s, Settle(s, id, r, now))
    ensures Ticks(s, Settle(s, id, r, now), now)
  {
    var o := s.operations.at[id];
    var next := SettledAs(o, r, now);
    var settled := Retire(s, id, next, now);
    var cleared := settled.(cancellations := settled.cancellations.Delete(id));
    var s' := Settle(s, id, r, now);
    assert s' == Prune(cleared, now) && settled.clock == now && settled.cancellations == s.cancellations;
    WithoutMembers(s.cancellations.order, {id});
    assert |cleared.cancellations.order| <= |s.cancellations.order| && cleared.clock == now;
    assert settled.cancellations.Delete(id) == settled.cancellations.DeleteAll({id});
    hide *;
    InvParts(s);
    FitsCancellations(s);
    OwnedRecord(s, id);
    SettledFollows(o, r, now, s);
    RetireKeeps(s, id, next, now);
    DropCancellations(settled, {id});
    PruneInv(cleared, now);
    LeadsOn(s, settled, cleared);
    LeadsOn(s, cleared, s');
  }

  lemma RecordInv(s0: State, id: Id, r: Response, now: int)
    requires Inv(s0) && s0.clock <= now
    ensures Inv(Record(s0, id, r, now).0) && Leads(s0, Record(s0, id, r, now).0)
    ensures Ticks(s0, Record(s0, id, r, now).0, now)
  {
    var s := Prune(s0, now);
    hide Core, Inv, Leads, Prune, Settle, Fits;
    InvParts(s0);
    FitsCancellations(s0);
    PruneInv(s0, now);
    if Disposal(s, id).Accepted? {
      SettleInv(s, id, r, now);
      LeadsOn(s0, s, Settle(s, id, r, now));
    }
  }

  lemma SettleTransportInv(s0: State, t: PeerId, id: Id, r: Response, now: int)
    requires Inv(s0) && s0.clock <= now
    ensures Inv(SettleTransport(s0, t, id, r, now).0) && Leads(s0, SettleTransport(s0, t, id, r, now).0)
    ensures Ticks(s0, SettleTransport(s0, t, id, r, now).0, now)
  {
    var s := Prune(s0, now);
    hide Core, Inv, Leads, Prune, Record, Fits;
    InvParts(s0);
    FitsCancellations(s0);
    PruneInv(s0, now);
    if Owned(s, t, id) {
      var r' := if r.hasError && r.explicit.Some? then r.(local := false) else r;
      RecordInv(s, id, r', now);
      LeadsOn(s0, s, Record(s, id, r', now).0);
    }
  }

  // ---------- Sweeps, Peers and cancellation claims ----------

  lemma CleanupInv(s: State, now: int)
    requires Inv(s) && s.clock <= now
    ensures Inv(CleanupOld(s, now)) && Leads(s, CleanupOld(s, now))
    ensures Ticks(s, CleanupOld(s, now), now)
  {
    var ids := TimedOutIds(s, s.pending.order, now);
    var e := EndAll(s, ids, TimedOut, now);
    assert CleanupOld(s, now) == Prune(e, now);
    hide *;
    EndAllInv(s, ids, TimedOut, now);
    InvParts(e);
    FitsCancellations(e);
    PruneInv(e, now);
    LeadsOn(s, e, Prune(e, now));
  }

  lemma AsideInv(s: State, s': State)
    requires Inv(s) && SameRequests(s, s') && TombstonesOk(s') && |s'.cancellations.order| <= |s.cancellations.order|
    ensures Inv(s') && Leads(s, s')
  {
    hide Core, Leads, TombstonesOk, Total;
    AsideCore(s, s');
    assert RetainedBytes(s') == RetainedBytes(s);
  }

  lemma NoCancellations(s: State)
    requires Inv(s)
    ensures Inv(s.(cancellations := OMap([], map[]))) && Leads(s, s.(cancellations := OMap([], map[])))
  {
    var s' := s.(cancellations := OMap([], map[]));
    hide Inv, Leads;
    assert TombstoneTimes(s') == map[];
    assert TombstonesOk(s');
    hide TombstonesOk, TombstoneTimes;
    AsideInv(s, s');
  }

  lemma ClearAllInv(s: State, now: int)
    requires Inv(s) && s.clock <= now
    ensures Inv(ClearAll(s, now)) && Leads(s, ClearAll(s, now))
    ensures Ticks(s, ClearAll(s, now), now)
  {
    var e := EndAll(s, s.pending.order, Disconnected, now);
    hide Inv, Leads, EndAll;
    EndAllInv(s, s.pending.order, Disconnected, now);
    NoCancellations(e);
    LeadsOn(s, e, ClearAll(s, now));
  }

  lemma SameTombstones(s: State, s': State)
    requires Inv(s) && SameRequests(s, s') && s'.cancellations.order == s.cancellations.order
    requires forall k :: k in s'.cancellations.at <==> k in s.cancellations.at
    requires forall k :: k in s.cancellations.at ==> s'.cancellations.at[k].createdAt == s.cancellations.at[k].createdAt
    ensures Inv(s') && Leads(s, s')
  {
    assert s.clock <= s'.clock;
    hide *;
    InvParts(s);
    TombstonesAre(s);
    TombstonesSame(s, s');
    AsideInv(s, s');
  }

  lemma PeersInv(s: State, transportOf: map<PeerId, PeerId>)
    requires Inv(s)
    ensures Inv(s.(transportOf := transportOf)) && Leads(s, s.(transportOf := transportOf))
  {
    hide Inv, Leads;
    SameTombstones(s, s.(transportOf := transportOf));
  }

  lemma UnregisterInv(s: State, p: PeerId, now: int)
    requires Inv(s) && s.clock <= now
    ensures Inv(Unregister(s, p, now)) && Leads(s, Unregister(s, p, now))
    ensures Ticks(s, Unregister(s, p, now), now)
  {
    var s1 := s.(transportOf := s.transportOf - {p});
    var ids := TargetedIds(s, s.pending.order, p);
    assert Unregister(s, p, now) == EndAll(s1, ids, Disconnected, now) && s1.clock == s.clock;
    hide *;
    PeersInv(s, s.transportOf - {p});
    EndAllInv(s1, ids, Disconnected, now);
    LeadsOn(s, s1, EndAll(s1, ids, Disconnected, now));
  }

  lemma ClaimedTombstones(s: State, t: PeerId, owner: Owner)
    ensures var id := FirstCancellation(s, s.cancellations.order, t);
            id.Some? ==>
              var m := s.cancellations.Set(id.value, s.cancellations.at[id.value].(owner := Some(owner)));
              && m.order == s.cancellations.order && (forall k :: k in m.at <==> k in s.cancellations.at)
              && (forall k :: k in s.cancellations.at ==> m.at[k].createdAt == s.cancellations.at[k].createdAt)
  {}

  lemma ClaimCancellationInv(s0: State, t: PeerId, owner: Owner, now: int)
    requires Inv(s0) && s0.clock <= now
    ensures Inv(ClaimCancellation(s0, t, owner, now)) && Leads(s0, ClaimCancellation(s0, t, owner, now))
    ensures Ticks(s0, ClaimCancellation(s0, t, owner, now), now)
  {
    var s, s' := PruneCancellations(s0, now), ClaimCancellation(s0, t, owner, now);
    ClaimedTombstones(s, t, owner);
    assert SameRequests(s, s') && s'.cancellations.order == s.cancellations.order;
    hide PruneCancellations, Inv, Core, Leads, SameRequests, FirstCancellation;
    InvParts(s0);
    PruneCancellationsKeeps(s0, now);
    StillFits(s0, s);
    InvFrom(s);
    SameTombstones(s, s');
    LeadsOn(s0, s, s');
  }

  lemma StillFits(s: State, s': State)
    requires Fits(s) && SameRequests(s, s') && |s'.cancellations.order| <= MAX_CANCELLATION_TOMBSTONES
    ensures Fits(s')
  {
    hide Total;
    assert RetainedBytes(s') == RetainedBytes(s);
  }

  lemma ReleaseInv(s: State, owner: Owner)
    requires Inv(s)
    ensures Inv(ReleaseClaims(s, owner)) && Leads(s, ReleaseClaims(s, owner))
    ensures ReleaseClaims(s, owner).clock == s.clock && ReleaseClaims(s, owner).nextSerial == s.nextSerial
  {
    var s' := ReleaseClaims(s, owner);
    hide Inv, Leads;
    SameTombstones(s, s');
  }

  // ---------- Every event ----------

  /** The event admits a new record under its identity. */
  predicate Admits(s: State, e: Event) {
    e.AdmitEvent? && Admit(s, e.id, e.target, e.fingerprint, e.bytes, e.timeoutMs, e.now).1.Admitted?
  }

  lemma {:induction false} StepKeepsInv(s: State, e: Event)
    requires Inv(s) && s.clock <= e.now
    ensures Inv(Apply(s, e)) && Leads(s, Apply(s, e)) && Apply(s, e).clock <= e.now
    ensures Apply(s, e).nextSerial == s.nextSerial || Admits(s, e)
  {
    hide Inv, Leads, Admit, Claim, EndWaiter, Observe, Record, SettleTransport, Prune, CleanupOld, ClearAll, Unregister,
      ClaimCancellation, ReleaseClaims;
    match e
    case AdmitEvent(id, target, fingerprint, bytes, timeoutMs, now) => AdmitInv(s, id, target, fingerprint, bytes,
        timeoutMs, now);
    case ClaimEvent(t, owner, now) => ClaimInv(s, t, owner, now);
    case EndEvent(id, how, now) => EndWaiterInv(s, id, how, now);
    case ProgressEvent(t, id, phase, now) => ObserveInv(s, t, id, phase, now);
    case ResolveEvent(id, r, now) => RecordInv(s, id, r, now);
    case SettleEvent(t, id, r, now) => SettleTransportInv(s, t, id, r, now);
    case StatusEvent(now) =>
      InvParts(s);
      FitsCancellations(s);
      PruneInv(s, now);
    case CleanupEvent(now) => CleanupInv(s, now);
    case ClearEvent(now) => ClearAllInv(s, now);
    case RegisterEvent(p, t, now) =>
      PeersInv(s, s.transportOf);
      PeersInv(s, s.transportOf[p := t]);
    case UnregisterEvent(p, now) => UnregisterInv(s, p, now);
    case ClaimCancellationEvent(t, owner, now) => ClaimCancellationInv(s, t, owner, now);
    case ReleaseEvent(owner, now) => ReleaseInv(s, owner);
  }

  lemma InitialInv()
    ensures Inv(INITIAL)
  {}
}
