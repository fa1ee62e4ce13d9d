/**
 What each event of the broker does, in terms of its inputs and of the state
 it finds: who is still known, what a record says afterwards, and what stays
 as it was. The limits are written out as numbers.
 */
module BrokerLaws {
  import opened Common
  import opened OrderedMaps
  import opened Broker
  import opened BrokerInvariant
  import opened BrokerSteps
  import opened BrokerPruning

  // ---------- Who is still known ----------

  /** A record is forgotten five minutes after its last change, but never while its request is pending. */
  predicate Recorded(s: State, id: Id, now: int) {
    && id in s.operations.at
    && (id in s.pending.at || now - s.operations.at[id].updatedAt < 300_000)
  }

  /** The later state has exactly the records still known, as they were. */
  ghost predicate Remembers(s: State, now: int, s': State) {
    && (forall k :: k in s'.operations.at <==> Recorded(s, k, now))
    && (forall k :: k in s'.operations.at ==> s'.operations.at[k] == s.operations.at[k])
  }

  lemma ResultsStillFit(s: State, gone: set<Id>)
    requires ResultsFit(s) && Core(s)
    ensures ResultsFit(Forget(s, gone)) && |Forget(s, gone).operations.order| <= |s.operations.order|
  {
    var s' := Forget(s, gone);
    WithoutMembers(s.retained, gone);
    WithoutMembers(s.operations.order, gone);
    hide Core, Without;
    TotalAgrees(s'.retained, StoredSizes(s'.operations.at), StoredSizes(s.operations.at));
    TotalWithoutLess(s.retained, gone, StoredSizes(s.operations.at));
    hide Total;
  }

  lemma NothingTrimmed(s: State)
    requires |s.operations.order| <= MAX_OPERATION_RECORDS
    ensures Trim(s) == s
  {}

  lemma NothingUnstored(s: State)
    requires ResultsFit(s)
    ensures DropResults(s) == s
  {}

  lemma ExpiredGo(s: State, now: int)
    ensures Remembers(s, now, Forget(s.(clock := now), Expired(s, now)))
  {
    hide Without;
  }

  lemma FitsAtAnyTime(s: State, now: int)
    requires Fits(s)
    ensures Fits(s.(clock := now))
  {
    hide Total;
    assert RetainedBytes(s.(clock := now)) == RetainedBytes(s);
  }

  lemma ClockAside(s: State, now: int)
    requires Inv(s) && s.clock <= now
    ensures Core(s.(clock := now)) && Fits(s.(clock := now))
  {
    hide *;
    InvParts(s);
    SetClock(s, now);
    FitsAtAnyTime(s, now);
  }

  lemma ForgetRest(s: State, now: int, gone: set<Id>)
    ensures SameRest(s.(clock := now), Forget(s.(clock := now), gone))
    ensures Forget(s.(clock := now), gone).pending == s.pending && Forget(s.(clock := now), gone).clock == now
  {
    hide Without;
  }

  lemma FitsParts(s: State)
    requires Fits(s)
    ensures |s.operations.order| <= MAX_OPERATION_RECORDS && ResultsFit(s)
    ensures |s.cancellations.order| <= MAX_CANCELLATION_TOMBSTONES
  {
    hide ResultsFit;
  }

  /** Between operations the limits hold, so a prune takes the expired records and nothing else. */
  lemma {:induction false} PruneTakesExpired(s: State, now: int)
    requires Inv(s) && s.clock <= now
    ensures var p := Prune(s, now);
            && Remembers(s, now, p) && p.clock == now && SameRest(s.(clock := now), p) && p.pending == s.pending
  {
    var s0, gone := s.(clock := now), Expired(s, now);
    var s1 := Forget(s0, gone);
    hide *;
    ClockAside(s, now);
    FitsParts(s0);
    ResultsStillFit(s0, gone);
    ExpiredGo(s, now);
    ForgetRest(s, now, gone);
    NothingTrimmed(s1);
    NothingUnstored(s1);
    PruneUnfolds(s, now);
  }

  // ---------- What a prune may do to a record it keeps ----------

  /** The record as it was, or without the result it stored. */
  predicate SameOrStripped(o: Operation, n: Operation) {
    n == o || (o.stored.Some? && n == o.(stored := None, unavailable := true))
  }

  lemma FirstStripped(s: State)
    requires Core(s) && s.retained != []
    ensures forall k :: k in s.operations.at ==>
              k in DropFirstResult(s).operations.at
              && SameOrStripped(s.operations.at[k], DropFirstResult(s).operations.at[k])
  {
    DropFirstShape(s);
    assert s.operations.at[s.retained[0]].stored.Some? by { CoreParts(s); hide Core, Linked, Shaped, Ordered, Bounded; }
    hide Core, DropFirstResult;
  }

  lemma {:induction false} ResultsStripped(s: State)
    requires Core(s)
    ensures forall k :: k in s.operations.at ==>
              k in DropResults(s).operations.at
              && SameOrStripped(s.operations.at[k], DropResults(s).operations.at[k])
    decreases |s.retained|
  {
    if s.retained != [] && !ResultsFit(s) {
      var s1 := DropFirstResult(s);
      assert DropResults(s) == DropResults(s1);
      hide *;
      FirstStripped(s);
      DropFirstRecords(s);
      DropFirstKeeps(s);
      ResultsStripped(s1);
      StrippedOn(s, s1, DropResults(s1));
    }
  }

  lemma StrippedOn(a: State, b: State, c: State)
    requires forall k :: k in a.operations.at ==>
        k in b.operations.at && SameOrStripped(a.operations.at[k], b.operations.at[k])
    requires forall k :: k in b.operations.at ==>
        k in c.operations.at && SameOrStripped(b.operations.at[k], c.operations.at[k])
    ensures forall k :: k in a.operations.at ==>
        k in c.operations.at && SameOrStripped(a.operations.at[k], c.operations.at[k])
  {}

  lemma {:induction false} TrimStillFits(s: State)
    requires Core(s) && ResultsFit(s)
    ensures ResultsFit(Trim(s))
    decreases |s.operations.order|
  {
    var f := FirstIdle(s.operations.order, s.pending.at);
    if |s.operations.order| > MAX_OPERATION_RECORDS && f.Some? {
      hide *;
      TrimUnfolds(s, f.value);
      ForgetKeeps(s, {f.value});
      ResultsStillFit(s, {f.value});
      TrimStillFits(Forget(s, {f.value}));
    } else {
      hide Core, ResultsFit;
    }
  }

  lemma PruneValues(s: State, now: int)
    requires Core(s) && s.clock <= now
    ensures forall k :: k in Prune(s, now).operations.at ==>
              k in s.operations.at && SameOrStripped(s.operations.at[k], Prune(s, now).operations.at[k])
    ensures ResultsFit(s) ==> forall k :: k in Prune(s, now).operations.at ==>
              k in s.operations.at && Prune(s, now).operations.at[k] == s.operations.at[k]
  {
    var s0, gone := s.(clock := now), Expired(s, now);
    var s1 := Forget(s0, gone);
    var s2 := Trim(s1);
    assert RetainedBytes(s0) == RetainedBytes(s) by { hide Total; }
    assert ResultsFit(s) ==> ResultsFit(s0);
    assert forall k :: k in s1.operations.at ==> k in s.operations.at && s1.operations.at[k] == s.operations.at[k];
    hide *;
    PruneUnfolds(s, now);
    ExpiredAre(s, now);
    SetClock(s, now);
    ForgetKeeps(s0, gone);
    TrimDropsOldest(s1);
    TrimKeeps(s1);
    DropResultsRecords(s2);
    ResultsStripped(s2);
    SubsetValues(s1, s2);
    if ResultsFit(s) {
      ResultsStillFit(s0, gone);
      TrimStillFits(s1);
      NothingUnstored(s2);
    }
  }

  lemma SubsetValues(s: State, s': State)
    requires Subset(s, s')
    ensures forall k :: k in s'.operations.at ==> k in s.operations.at && s'.operations.at[k] == s.operations.at[k]
  {}

  // ---------- Admission ----------

  /** What an admission answers, by what is known of the identity and by the room there is. */
  predicate Answers(s: State, id: Id, fingerprint: Fingerprint, bytes: nat, now: int, a: Admission) {
    if Recorded(s, id, now) then
      a == if s.operations.at[id].fingerprint != fingerprint then Rejected(Collision)
           else if id in s.pending.at then JoinedPending else JoinedRetained
    else if bytes > 67_108_864 then a == Rejected(TooLarge)
    else if |s.pending.order| >= 1024 || PendingBytes(s) + bytes > 67_108_864 then a == Rejected(CapacityExceeded)
    else a.Admitted?
  }

  /** One new request and its record, queued; no other request changes, and a record gives way only to the limit. */
  ghost predicate AddsOne(s: State, id: Id, target: PeerId, fingerprint: Fingerprint, bytes: nat, timeoutMs: int,
      now: int, s': State) {
    && s'.pending.order == s.pending.order + [id]
    && s'.pending.at == s.pending.at[id := Request(target, now, timeoutMs, bytes, None, None)]
    && id in s'.operations.at
    && s'.operations.at[id] == Operation(s.nextSerial, fingerprint, target, Queued, Pending, Undecided, Unknown, None,
        now, None, false)
    && (forall k :: k in s'.operations.at && k != id ==>
          Recorded(s, k, now) && s'.operations.at[k] == s.operations.at[k])
    && (forall k :: Recorded(s, k, now) && k !in s'.operations.at ==> |s'.operations.order| == 32768)
  }

  lemma SameBytes(s: State, s': State)
    requires s'.pending == s.pending
    ensures PendingBytes(s') == PendingBytes(s)
  {
    hide Total;
  }

  lemma AdmitBranches(s: State, id: Id, target: PeerId, fingerprint: Fingerprint, bytes: nat, timeoutMs: int, now: int)
    requires Remembers(s, now, Prune(s, now)) && Prune(s, now).pending == s.pending
    requires PendingBytes(Prune(s, now)) == PendingBytes(s)
    ensures var p := Prune(s, now);
            var (s', a) := Admit(s, id, target, fingerprint, bytes, timeoutMs, now);
            && Answers(s, id, fingerprint, bytes, now, a)
            && (!a.Admitted? ==> s' == p)
            && (a.Admitted? ==>
                  && id !in p.operations.at && |p.pending.order| < MAX_PENDING_REQUESTS
                  && PendingBytes(p) + bytes <= MAX_PENDING_REQUEST_BYTES
                  && s' == Prune(AddRequest(p, id, target, fingerprint, bytes, timeoutMs, now), now))
  {
    hide Prune, AddRequest, PendingBytes;
  }

  lemma AdmitOnPruned(s: State, id: Id, target: PeerId, fingerprint: Fingerprint, bytes: nat, timeoutMs: int, now: int)
    requires Inv(s) && s.clock <= now
    ensures var p := Prune(s, now);
            var (s', a) := Admit(s, id, target, fingerprint, bytes, timeoutMs, now);
            && Answers(s, id, fingerprint, bytes, now, a)
            && (!a.Admitted? ==> s' == p)
            && (a.Admitted? ==>
                  && id !in p.operations.at && |p.pending.order| < MAX_PENDING_REQUESTS
                  && PendingBytes(p) + bytes <= MAX_PENDING_REQUEST_BYTES
                  && s' == Prune(AddRequest(p, id, target, fingerprint, bytes, timeoutMs, now), now))
  {
    hide *;
    PruneTakesExpired(s, now);
    SameBytes(s, Prune(s, now));
    AdmitBranches(s, id, target, fingerprint, bytes, timeoutMs, now);
  }

  lemma UnknownApart(p: State, id: Id)
    requires Core(p) && id !in p.operations.at
    ensures id !in p.pending.at && id !in p.retained
  {
    CoreParts(p);
    hide Core, Shaped, Ordered, Bounded, Distinct, Records, Orders, RecordOk, RequestOk;
  }

  lemma AddedShape(p: State, id: Id, target: PeerId, fingerprint: Fingerprint, bytes: nat, timeoutMs: int, now: int)
    requires id !in p.operations.at && id !in p.pending.at
    ensures var added := AddRequest(p, id, target, fingerprint, bytes, timeoutMs, now);
            && added.pending.order == p.pending.order + [id] && added.clock == p.clock
            && added.retained == p.retained
            && added.pending.at == p.pending.at[id := Request(target, now, timeoutMs, bytes, None, None)]
            && added.operations.at == p.operations.at[id := Operation(p.nextSerial, fingerprint, target, Queued,
                Pending, Undecided, Unknown, None, now, None, false)]
  {}

  lemma SameResultsFit(s: State, s': State, id: Id)
    requires ResultsFit(s) && s'.retained == s.retained && id !in s.retained
    requires id in s'.operations.at && s'.operations.at == s.operations.at[id := s'.operations.at[id]]
    ensures ResultsFit(s')
  {
    hide Total;
    TotalAgrees(s.retained, StoredSizes(s.operations.at), StoredSizes(s'.operations.at));
  }

  /** Every admission: the answer, and what changes. */
  lemma {:induction false} AdmissionLaw(s: State, id: Id, target: PeerId, fingerprint: Fingerprint, bytes: nat,
      timeoutMs: int, now: int)
    requires Inv(s) && s.clock <= now
    ensures var (s', a) := Admit(s, id, target, fingerprint, bytes, timeoutMs, now);
            && Answers(s, id, fingerprint, bytes, now, a)
            && if a.Admitted? then AddsOne(s, id, target, fingerprint, bytes, timeoutMs, now, s')
               else Remembers(s, now, s') && s'.pending == s.pending
  {
    hide *;
    AdmitOnPruned(s, id, target, fingerprint, bytes, timeoutMs, now);
    PruneTakesExpired(s, now);
    if Admit(s, id, target, fingerprint, bytes, timeoutMs, now).1.Admitted? {
      AddedLaw(s, id, target, fingerprint, bytes, timeoutMs, now);
    }
  }

  lemma AddedLaw(s: State, id: Id, target: PeerId, fingerprint: Fingerprint, bytes: nat, timeoutMs: int, now: int)
    requires Inv(s) && s.clock <= now && id !in Prune(s, now).operations.at
    requires |Prune(s, now).pending.order| < MAX_PENDING_REQUESTS
    requires PendingBytes(Prune(s, now)) + bytes <= MAX_PENDING_REQUEST_BYTES
    ensures AddsOne(s, id, target, fingerprint, bytes, timeoutMs, now,
                    Prune(AddRequest(Prune(s, now), id, target, fingerprint, bytes, timeoutMs, now), now))
  {
    var p := Prune(s, now);
    var added := AddRequest(p, id, target, fingerprint, bytes, timeoutMs, now);
    hide Inv, Core, Fits, Prune, AddRequest, Leads, ResultsFit, PendingBytes, OldestDropped, Idle, Stale, Remembers,
      Recorded, SameOrStripped;
    PruneTakesExpired(s, now);
    PrunedInv(s, now);
    InvParts(p);
    FitsParts(p);
    UnknownApart(p, id);
    AddedShape(p, id, target, fingerprint, bytes, timeoutMs, now);
    SameResultsFit(p, added, id);
    AddKeeps(p, id, target, fingerprint, bytes, timeoutMs);
    PruneIsFilter(added, now);
    PruneValues(added, now);
    AddedRecordsLaw(s, p, added, Prune(added, now), id, now);
  }

  lemma AddedRecordsLaw(s: State, p: State, added: State, s': State, id: Id, now: int)
    requires Remembers(s, now, p) && p.pending == s.pending && id !in p.operations.at
    requires added.operations.at.Keys == p.operations.at.Keys + {id} && id in added.pending.at
    requires forall k :: k in p.operations.at ==> added.operations.at[k] == p.operations.at[k]
    requires forall k :: k in s'.operations.at ==>
        k in added.operations.at && s'.operations.at[k] == added.operations.at[k]
    requires forall k :: k in added.pending.at <==> k in s.pending.at || k == id
    requires forall k :: k in added.pending.at ==> k in s'.operations.at
    requires forall k :: Idle(added, k) && k !in s'.operations.at && !Stale(added.operations.at[k], now) ==>
        |s'.operations.order| == MAX_OPERATION_RECORDS
    ensures id in s'.operations.at && s'.operations.at[id] == added.operations.at[id]
    ensures forall k :: k in s'.operations.at && k != id ==>
              Recorded(s, k, now) && s'.operations.at[k] == s.operations.at[k]
    ensures forall k :: Recorded(s, k, now) && k !in s'.operations.at ==> |s'.operations.order| == 32768
  {}

  // ---------- Answers ----------

  /** The execution recorded for an answer: an explicit unknown or not_executed always stands; an error in a body
      that came without an error is an error; then what was reported, or what the failure tells. */
  predicate ExecutionOf(o: Operation, r: Response, x: Outcome) {
    var unsure := r.explicit == Some(Unknown) || r.explicit == Some(NotExecuted);
    var failed := !r.hasError && r.bodyError;
    && (unsure ==> Some(x) == r.explicit)
    && (!unsure && failed ==> x.Error?)
    && (!unsure && !failed && r.explicit.Some? ==> Some(x) == r.explicit)
    && (r.explicit.None? && !failed && r.local ==> x.NotExecuted?)
    && (r.explicit.None? && !failed && !r.local && r.hasError ==>
          if o.execution.Success? then x.Success? else x.Error?)
    && (r.explicit.None? && !failed && !r.local && !r.hasError ==> x.Success?)
  }

  /** What the record of an answered request says. */
  predicate AnsweredBy(o: Operation, r: Response, now: int, n: Operation) {
    && n.standing.Settled? && n.updatedAt == now
    && n.serial == o.serial && n.fingerprint == o.fingerprint && n.target == o.target && n.transport == o.transport
    && (if r.local then n.stage == o.stage else n.stage.ResponseDelivery?)
    && ExecutionOf(o, r, n.execution)
    && (n.outcome.Success? || n.outcome.Error?)
    && (n.outcome.Success? <==> !r.hasError && !r.bodyError && !n.execution.Error? && !n.execution.NotExecuted?)
    && (if r.size.Some? && r.size.value <= 67_108_864 then n.stored == r.size else n.stored.None?)
    && (n.unavailable <==> n.stored.None?)
  }

  lemma SettledAnswers(o: Operation, r: Response, now: int)
    ensures AnsweredBy(o, r, now, SettledAs(o, r, now))
  {}

  /** The answer is on record; nothing else has changed but that older results may have been dropped for it. */
  ghost predicate TakesAnswer(s: State, id: Id, r: Response, now: int, s': State) {
    && id in s.operations.at && id in s'.operations.at && AnsweredBy(s.operations.at[id], r, now, s'.operations.at[id])
    && s'.pending.at == s.pending.at - {id} && s'.pending.order == Without(s.pending.order, {id})
    && s'.cancellations.at == s.cancellations.at - {id}
    && (forall k :: k != id ==> (k in s'.operations.at <==> Recorded(s, k, now)))
    && (forall k :: k != id && k in s'.operations.at ==> SameOrStripped(s.operations.at[k], s'.operations.at[k]))
  }

  /** The state before the last prune of a settlement. */
  ghost predicate Cleared(s: State, id: Id, next: Operation, now: int, c: State) {
    && c.clock == now && c.nextSerial == s.nextSerial
    && c.pending == s.pending.Delete(id) && c.cancellations == s.cancellations.Delete(id)
    && id in s.operations.at && c.operations.at == s.operations.at[id := next]
    && c.retained == if next.stored.Some? then s.retained + [id] else s.retained
  }

  lemma SettleClears(s: State, id: Id, r: Response, now: int) returns (c: State)
    requires Inv(s) && s.clock <= now && id in s.operations.at && !s.operations.at[id].standing.Settled?
    ensures Cleared(s, id, SettledAs(s.operations.at[id], r, now), now, c)
    ensures Settle(s, id, r, now) == Prune(c, now) && Core(c) && |c.operations.order| <= MAX_OPERATION_RECORDS
  {
    var o := s.operations.at[id];
    var next := SettledAs(o, r, now);
    var settled := Retire(s, id, next, now);
    c := settled.(cancellations := settled.cancellations.Delete(id));
    assert Settle(s, id, r, now) == Prune(c, now) && settled.clock == now && settled.cancellations == s.cancellations;
    assert settled.cancellations.Delete(id) == settled.cancellations.DeleteAll({id});
    hide Inv, Core, Fits, Settle, SettledAs, Prune, Follows, RecordOk, Leads;
    InvParts(s);
    FitsParts(s);
    OwnedRecord(s, id);
    SettledFollows(o, r, now, s);
    RetireKeeps(s, id, next, now);
    DropCancellations(settled, {id});
    RecordsValid(s);
    MoveShape(s.operations, id, next);
  }

  /** The newest result is never the one dropped: it fits by itself. */
  lemma NewestStays(c: State, id: Id)
    requires Core(c) && c.retained != [] && c.retained[|c.retained| - 1] == id
    requires id in c.operations.at && c.operations.at[id].stored.Some? && c.operations.at[id].stored.value <= 67_108_864
    ensures id in DropResults(c).retained
  {
    var last := |c.retained| - 1;
    assert c.retained[last..] == [id] && [id][..0] == [];
    assert Total(c.retained[last..], StoredSizes(c.operations.at)) <= 67_108_864;
    DropResultsTakesFewest(c);
    hide Core, DropResults, Total;
    var n: nat :| n <= |c.retained| && DropResults(c).retained == c.retained[n..] && FewestDropped(c, n);
    assert n <= last;
    assert c.retained[n..][last - n] == id;
  }

  /** A later prune forgets nothing a prune at the same time has kept, and the record just settled is fresh. */
  lemma NothingExpires(p: State, id: Id, next: Operation, now: int, c: State)
    requires Cleared(p, id, next, now, c) && next.updatedAt == now
    requires forall k :: k in p.operations.at ==> Recorded(p, k, now)
    ensures Expired(c, now) == {}
  {}

  lemma ForgetNothing(c: State)
    requires c.operations.Valid() && NoDup(c.retained)
    ensures Forget(c, {}) == c
  {
    WithoutNothing(c.retained, {});
    WithoutNothing(c.operations.order, {});
  }

  lemma StoredKept(s: State, id: Id)
    requires Core(s) && id in s.operations.at
    ensures id in s.retained <==> s.operations.at[id].stored.Some?
  {
    CoreParts(s);
    hide Core, Linked, Shaped, Ordered, Bounded, Distinct;
  }

  lemma ClearedFacts(p: State, id: Id, next: Operation, now: int, c: State)
    requires Core(c) && Cleared(p, id, next, now, c) && next.updatedAt == now
    ensures c.(clock := now) == c && c.operations.Valid() && NoDup(c.retained)
    ensures id in c.operations.at && c.operations.at[id] == next
    ensures next.stored.Some? ==> c.retained != [] && c.retained[|c.retained| - 1] == id
  {
    CoreParts(c);
    hide Core, Linked, Retaining, Distinct, Ordered, Bounded, Without;
  }

  lemma ClearedIsPruned(p: State, id: Id, next: Operation, now: int, c: State)
    requires Core(c) && |c.operations.order| <= MAX_OPERATION_RECORDS
    requires id in p.operations.at && Cleared(p, id, next, now, c) && next.updatedAt == now
    requires forall k :: k in p.operations.at ==> Recorded(p, k, now)
    ensures Prune(c, now) == DropResults(c)
  {
    hide *;
    ClearedFacts(p, id, next, now, c);
    NothingExpires(p, id, next, now, c);
    ForgetNothing(c);
    NothingTrimmed(c);
    PruneUnfolds(c, now);
  }

  lemma NewestUnchanged(p: State, id: Id, next: Operation, now: int, c: State)
    requires Core(c) && Cleared(p, id, next, now, c) && next.updatedAt == now
    requires next.stored.Some? ==> next.stored.value <= 67_108_864
    ensures id in DropResults(c).operations.at && DropResults(c).operations.at[id] == next
  {
    hide Core, Cleared, DropResults, Total, StoredSizes;
    ClearedFacts(p, id, next, now, c);
    ResultsStripped(c);
    DropResultsKeeps(c);
    if next.stored.Some? {
      NewestStays(c, id);
      StoredKept(DropResults(c), id);
    }
  }

  lemma ClearedPrunes(p: State, id: Id, r: Response, now: int, c: State)
    requires Core(c) && |c.operations.order| <= MAX_OPERATION_RECORDS
    requires id in p.operations.at && Cleared(p, id, SettledAs(p.operations.at[id], r, now), now, c)
    requires forall k :: k in p.operations.at ==> Recorded(p, k, now)
    ensures Prune(c, now) == DropResults(c)
    ensures id in DropResults(c).operations.at
            && DropResults(c).operations.at[id] == SettledAs(p.operations.at[id], r, now)
  {
    var next := SettledAs(p.operations.at[id], r, now);
    assert next.updatedAt == now && (next.stored.Some? ==> next.stored.value <= 67_108_864);
    hide *;
    ClearedIsPruned(p, id, next, now, c);
    NewestUnchanged(p, id, next, now, c);
  }

  lemma SettlementTakes(p: State, id: Id, r: Response, now: int)
    requires Inv(p) && p.clock <= now && id in p.operations.at && !p.operations.at[id].standing.Settled?
    requires forall k :: k in p.operations.at ==> Recorded(p, k, now)
    ensures TakesAnswer(p, id, r, now, Settle(p, id, r, now))
  {
    hide *;
    var c := SettleClears(p, id, r, now);
    ClearedPrunes(p, id, r, now, c);
    SettledAnswers(p.operations.at[id], r, now);
    ResultsStripped(c);
    DropResultsKeeps(c);
    DropResultsRecords(c);
    ClearedTakes(p, id, r, now, c, Settle(p, id, r, now));
  }

  lemma ClearedTakes(p: State, id: Id, r: Response, now: int, c: State, s': State)
    requires id in p.operations.at && Cleared(p, id, SettledAs(p.operations.at[id], r, now), now, c)
    requires AnsweredBy(p.operations.at[id], r, now, SettledAs(p.operations.at[id], r, now))
    requires id in s'.operations.at && s'.operations.at[id] == SettledAs(p.operations.at[id], r, now)
    requires SameRest(c, s') && s'.operations.at.Keys == c.operations.at.Keys
    requires forall k :: k in c.operations.at ==>
        k in s'.operations.at && SameOrStripped(c.operations.at[k], s'.operations.at[k])
    requires forall k :: k in p.operations.at ==> Recorded(p, k, now)
    ensures TakesAnswer(p, id, r, now, s')
  {
    hide SettledAs, AnsweredBy, Without;
    assert forall k :: k in s'.operations.at <==> k in c.operations.at;
  }

  /** What a response finds: no record, one already settled, or one that takes it. */
  predicate FindsRecord(s: State, id: Id, now: int, d: Disposition) {
    if !Recorded(s, id, now) then d == UnknownOperation
    else if s.operations.at[id].standing.Settled? then d == AlreadySettled
    else d == Accepted
  }

  lemma TakesFromPruned(s: State, p: State, id: Id, r: Response, now: int, s': State)
    requires Remembers(s, now, p) && SameRest(s.(clock := now), p) && p.pending == s.pending
    requires TakesAnswer(p, id, r, now, s')
    ensures TakesAnswer(s, id, r, now, s')
  {
    hide AnsweredBy, SameOrStripped, Without;
    assert forall k :: Recorded(p, k, now) <==> Recorded(s, k, now);
  }

  lemma KeptAreKnown(s: State, now: int, p: State)
    requires Remembers(s, now, p) && p.pending == s.pending
    ensures forall k :: k in p.operations.at ==> Recorded(p, k, now)
    ensures forall k :: Recorded(s, k, now) <==> k in p.operations.at
  {}

  /** Every answer: what is reported back, and what is on record afterwards, whatever else had to be dropped. */
  lemma {:induction false} AnswerLaw(s: State, id: Id, r: Response, now: int)
    requires Inv(s) && s.clock <= now
    ensures var (s', d) := Record(s, id, r, now);
            && FindsRecord(s, id, now, d)
            && if d.Accepted? then TakesAnswer(s, id, r, now, s') else Remembers(s, now, s') && s'.pending == s.pending
  {
    var p := Prune(s, now);
    hide Inv, Prune, Settle, TakesAnswer, SameRest;
    PruneTakesExpired(s, now);
    PrunedInv(s, now);
    KeptAreKnown(s, now, p);
    hide Recorded;
    if Disposal(p, id).Accepted? {
      SettlementTakes(p, id, r, now);
      TakesFromPruned(s, p, id, r, now, Settle(p, id, r, now));
    }
  }

  // ---------- What a transport may say ----------

  predicate Carries(s: State, t: PeerId, peer: PeerId) {
    peer in s.transportOf && s.transportOf[peer] == t
  }

  /** The transport was given the request, and it and the request's target are still connected through it. */
  predicate MaySpeak(s: State, t: PeerId, id: Id, now: int) {
    && Recorded(s, id, now) && s.operations.at[id].transport == Some(t)
    && Carries(s, t, s.operations.at[id].target) && Carries(s, t, t)
  }

  lemma OwnedMaySpeak(s: State, t: PeerId, id: Id, now: int)
    requires Remembers(s, now, Prune(s, now)) && Prune(s, now).transportOf == s.transportOf
    ensures Owned(Prune(s, now), t, id) <==> MaySpeak(s, t, id, now)
  {
    hide Prune;
  }

  lemma FindsFromPruned(s: State, p: State, id: Id, now: int, d: Disposition)
    requires Remembers(s, now, p) && p.pending == s.pending && FindsRecord(p, id, now, d)
    ensures FindsRecord(s, id, now, d)
  {}

  lemma RemembersOn(s: State, p: State, now: int, s': State)
    requires Remembers(s, now, p) && p.pending == s.pending && Remembers(p, now, s')
    ensures Remembers(s, now, s')
  {}

  /** Every answer of a transport: one that may not speak changes nothing, and an error it explains is not local. */
  lemma {:induction false} TransportAnswerLaw(s: State, t: PeerId, id: Id, r: Response, now: int)
    requires Inv(s) && s.clock <= now
    ensures var (s', d) := SettleTransport(s, t, id, r, now);
            var said := if r.hasError && r.explicit.Some? then r.(local := false) else r;
            && (if MaySpeak(s, t, id, now) then FindsRecord(s, id, now, d) else d == UnknownOperation)
            && if d.Accepted? then TakesAnswer(s, id, said, now, s')
               else Remembers(s, now, s') && s'.pending == s.pending
  {
    var p := Prune(s, now);
    var said := if r.hasError && r.explicit.Some? then r.(local := false) else r;
    assert SettleTransport(s, t, id, r, now)
        == if Owned(p, t, id) then Record(p, id, said, now) else (p, UnknownOperation);
    hide *;
    PruneTakesExpired(s, now);
    SameRestParts(s, now, p);
    PrunedInv(s, now);
    OwnedMaySpeak(s, t, id, now);
    if Owned(p, t, id) {
      AnswerLaw(p, id, said, now);
      FindsFromPruned(s, p, id, now, Record(p, id, said, now).1);
      if Record(p, id, said, now).1.Accepted? {
        TakesFromPruned(s, p, id, said, now, Record(p, id, said, now).0);
      } else {
        RemembersOn(s, p, now, Record(p, id, said, now).0);
      }
    }
  }

  lemma SameRestParts(s: State, now: int, p: State)
    requires SameRest(s.(clock := now), p)
    ensures p.transportOf == s.transportOf && p.pending == s.pending && p.cancellations == s.cancellations
    ensures p.nextSerial == s.nextSerial && p.clock == now
  {}

  /** Progress is news for a dispatched request that starts, or for one not yet settled whose answer is on its way. */
  predicate IsNews(o: Operation, phase: Phase) {
    && !o.standing.Settled? && !o.stage.ResponseDelivery?
    && (phase.ExecutingPhase? ==> o.stage.Dispatched?)
  }

  /** The record's stage, time and reported execution change and nothing else does. */
  predicate Advances(o: Operation, phase: Phase, now: int, n: Operation) {
    && n.serial == o.serial && n.fingerprint == o.fingerprint && n.target == o.target && n.transport == o.transport
    && n.standing == o.standing && n.outcome == o.outcome && n.stored == o.stored && n.unavailable == o.unavailable
    && n.updatedAt == now
    && match phase
       case ExecutingPhase => n.stage.Executing? && n.execution == o.execution
       case DeliveringPhase(told) =>
         n.stage.ResponseDelivery? && (if told.Some? then Some(n.execution) == told else n.execution.Unknown?)
  }

  /** Every report of progress: it moves the record on exactly if the transport may speak and it is news. */
  lemma {:induction false} ProgressLaw(s: State, t: PeerId, id: Id, phase: Phase, now: int)
    requires Inv(s) && s.clock <= now
    ensures var s' := Observe(s, t, id, phase, now);
            && s'.pending == s.pending
            && if MaySpeak(s, t, id, now) && IsNews(s.operations.at[id], phase) then
                 && (forall k :: k in s'.operations.at <==> Recorded(s, k, now))
                 && id in s'.operations.at && Advances(s.operations.at[id], phase, now, s'.operations.at[id])
                 && (forall k :: k != id && k in s'.operations.at ==> s'.operations.at[k] == s.operations.at[k])
               else Remembers(s, now, s')
  {
    var p := Prune(s, now);
    hide Inv, Prune, SameRest, Carries;
    PruneTakesExpired(s, now);
    SameRestParts(s, now, p);
    OwnedMaySpeak(s, t, id, now);
    hide Owned, MaySpeak, Without;
  }
}
