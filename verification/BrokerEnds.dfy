/**
 How waits end, who is told to cancel, and what sweeps, disconnections and
 claims change, in terms of what the broker finds.
 */
module BrokerEnds {
  import opened Common
  import opened OrderedMaps
  import opened Broker
  import opened BrokerInvariant
  import opened BrokerSteps
  import opened BrokerPruning
  import opened BrokerLaws

  // ---------- Tombstones ----------

  /** A cancellation is forgotten a minute after it was made. */
  predicate Asked(s: State, id: Id, now: int) {
    id in s.cancellations.at && now - s.cancellations.at[id].createdAt < 60_000
  }

  ghost predicate AskedStill(s: State, now: int, s': State) {
    && (forall k :: k in s'.cancellations.at <==> Asked(s, k, now))
    && (forall k :: k in s'.cancellations.at ==> s'.cancellations.at[k] == s.cancellations.at[k])
  }

  lemma NoneTrimmed(s: State)
    requires |s.cancellations.order| <= 4096
    ensures TrimCancellations(s) == s
  {}

  lemma FilteredTombstones(s: State, now: int)
    requires |s.cancellations.order| <= 4096
    ensures AskedStill(s, now, PruneCancellations(s, now))
    ensures |PruneCancellations(s, now).cancellations.order| <= |s.cancellations.order|
  {
    var gone := set id | id in s.cancellations.at
        && now - s.cancellations.at[id].createdAt >= CANCELLATION_TOMBSTONE_TTL_MS;
    var s1 := s.(clock := now, cancellations := s.cancellations.DeleteAll(gone));
    WithoutMembers(s.cancellations.order, gone);
    hide Without;
    NoneTrimmed(s1);
  }

  lemma WithoutFirst(order: seq<Id>)
    requires NoDup(order) && order != []
    ensures Without(order, {order[0]}) == order[1..]
    decreases |order|
  {
    var n := |order| - 1;
    if n == 0 {
      assert order[..0] == [];
    } else {
      WithoutFirst(order[..n]);
      assert order[..n][1..] + [order[n]] == order[1..];
    }
  }

  /** One tombstone too many costs the oldest. */
  lemma OneTooMany(s: State)
    requires s.cancellations.Valid() && |s.cancellations.order| == 4097
    ensures TrimCancellations(s) == s.(cancellations := s.cancellations.Delete(s.cancellations.order[0]))
    ensures |TrimCancellations(s).cancellations.order| == 4096
  {
    WithoutFirst(s.cancellations.order);
    NoneTrimmed(s.(cancellations := s.cancellations.Delete(s.cancellations.order[0])));
  }

  /** The new cancellation is there, unclaimed; every other is an old one still asked for, and one that was is missing
      only for want of room, the oldest of them. */
  ghost predicate AsksToo(s: State, id: Id, t: PeerId, now: int, s': State) {
    && id in s'.cancellations.at && s'.cancellations.at[id] == Cancellation(t, now, None)
    && (forall k :: k in s'.cancellations.at && k != id ==>
          Asked(s, k, now) && s'.cancellations.at[k] == s.cancellations.at[k])
    && (forall k :: Asked(s, k, now) && k !in s'.cancellations.at ==>
          && |s'.cancellations.order| == 4096
          && forall x :: x in s'.cancellations.at ==>
               s.cancellations.at[k].createdAt <= s'.cancellations.at[x].createdAt)
  }

  lemma NothingDeleted(m: OMap<Id, Cancellation>)
    ensures m.DeleteAll({}) == m
  {
    WithoutNothing(m.order, {});
    assert m.at - {} == m.at;
  }

  lemma FreshStay(q: State, now: int)
    requires q.clock == now
    requires forall k :: k in q.cancellations.at ==> now - q.cancellations.at[k].createdAt < 60_000
    ensures PruneCancellations(q, now) == TrimCancellations(q)
  {
    var gone := set id | id in q.cancellations.at
        && now - q.cancellations.at[id].createdAt >= CANCELLATION_TOMBSTONE_TTL_MS;
    assert gone == {};
    assert PruneCancellations(q, now)
        == TrimCancellations(q.(clock := now, cancellations := q.cancellations.DeleteAll(gone)));
    hide TrimCancellations, PruneCancellations, Without;
    NothingDeleted(q.cancellations);
  }

  lemma OldestGoes(q: State, k: Id)
    requires TombstonesOk(q) && q.cancellations.order != [] && k in q.cancellations.at
    ensures q.cancellations.at[q.cancellations.order[0]].createdAt <= q.cancellations.at[k].createdAt
  {
    var i :| 0 <= i < |q.cancellations.order| && q.cancellations.order[i] == k;
    assert q.cancellations.order[0] in TombstoneTimes(q) && q.cancellations.order[i] in TombstoneTimes(q);
  }

  lemma OldestOfAll(q: State)
    requires TombstonesOk(q) && q.cancellations.order != []
    ensures forall k :: k in q.cancellations.at ==>
              q.cancellations.at[q.cancellations.order[0]].createdAt <= q.cancellations.at[k].createdAt
  {
    assert q.cancellations.order[0] in q.cancellations.at;
    hide TombstonesOk;
    forall k | k in q.cancellations.at
      ensures q.cancellations.at[q.cancellations.order[0]].createdAt <= q.cancellations.at[k].createdAt {
      OldestGoes(q, k);
    }
  }

  lemma AddedAndAllThere(s: State, p: State, q: State, id: Id, t: PeerId, now: int)
    requires AskedStill(s, now, p) && id !in p.cancellations.at
    requires q.cancellations.at == p.cancellations.at[id := Cancellation(t, now, None)]
    ensures AsksToo(s, id, t, now, q)
  {}

  lemma AddedAndOldestGone(s: State, p: State, q: State, q': State, first: Id, id: Id, t: PeerId, now: int)
    requires AskedStill(s, now, p) && id !in p.cancellations.at && first != id && first in p.cancellations.at
    requires q.cancellations.at == p.cancellations.at[id := Cancellation(t, now, None)]
    requires forall k :: k in q.cancellations.at ==>
        q.cancellations.at[first].createdAt <= q.cancellations.at[k].createdAt
    requires q'.cancellations.at == q.cancellations.at - {first} && |q'.cancellations.order| == 4096
    ensures AsksToo(s, id, t, now, q')
  {}

  lemma SetLast(m: OMap<Id, Cancellation>, id: Id, c: Cancellation)
    requires m.Valid() && id !in m.at
    ensures var n := m.Set(id, c);
            && n.Valid() && n.at == m.at[id := c] && n.order == m.order + [id]
            && (|m.order| > 0 ==> n.order[0] in m.at && n.order[0] != id)
  {}

  lemma AddedTombstone(s: State, p: State, q: State, id: Id, t: PeerId, now: int)
    requires AskedStill(s, now, p) && id !in p.cancellations.at && |p.cancellations.order| <= 4096
    requires q == p.(cancellations := p.cancellations.Set(id, Cancellation(t, now, None)))
    requires TombstonesOk(q) && p.cancellations.Valid()
    ensures AsksToo(s, id, t, now, TrimCancellations(q))
  {
    hide *;
    SetLast(p.cancellations, id, Cancellation(t, now, None));
    if |q.cancellations.order| <= 4096 {
      NoneTrimmed(q);
      AddedAndAllThere(s, p, q, id, t, now);
    } else {
      OneTooMany(q);
      OldestOfAll(q);
      DeletedOne(q.cancellations, q.cancellations.order[0]);
      AddedAndOldestGone(s, p, q, TrimCancellations(q), q.cancellations.order[0], id, t, now);
    }
  }

  lemma DeletedOne(m: OMap<Id, Cancellation>, k: Id)
    ensures m.Delete(k).at == m.at - {k}
  {}

  lemma TombstonesFacts(s: State)
    requires TombstonesOk(s)
    ensures s.cancellations.Valid()
  {}

  lemma CancelAsks(s: State, id: Id, t: PeerId, now: int)
    requires Core(s) && s.clock <= now && |s.cancellations.order| <= 4096 && id !in s.cancellations.at
    ensures AsksToo(s, id, t, now, Cancel(s, id, Some(t), now))
  {
    var p := PruneCancellations(s, now);
    var q := p.(cancellations := p.cancellations.Set(id, Cancellation(t, now, None)));
    hide Core, PruneCancellations, TrimCancellations, Leads, SameRequests, Ascending, Within, NoDup, AsksToo;
    FilteredTombstones(s, now);
    PruneCancellationsKeeps(s, now);
    TombstonesAre(p);
    TombstonesFacts(p);
    TombstonesWith(p, id, Cancellation(t, now, None));
    assert q.clock == now;
    AddedTombstone(s, p, q, id, t, now);
    FreshStay(q, now);
  }

  // ---------- The end of a wait ----------

  /** What the record of an ended wait says: it did not run if no transport had it, or if one reported so. */
  predicate EndedAs(o: Operation, how: Ending, now: int, n: Operation) {
    && n.standing == Over(how) && n.updatedAt == now && n.stage == o.stage && n.transport == o.transport
    && n.serial == o.serial && n.fingerprint == o.fingerprint && n.target == o.target
    && n.stored == o.stored && n.unavailable == o.unavailable
    && (if o.stage.Queued? || o.execution.NotExecuted? then n.outcome.NotExecuted? else n.outcome.Unknown?)
    && (if o.stage.Queued? then n.execution.NotExecuted? else n.execution == o.execution)
  }

  /** Exactly the waits on `ids` have ended. */
  ghost predicate Ends(s: State, ids: set<Id>, how: Ending, now: int, s': State) {
    && s'.pending.at == s.pending.at - ids
    && s'.operations.at.Keys == s.operations.at.Keys
    && (forall k :: k in s.pending.at && k in ids ==>
          k in s.operations.at && EndedAs(s.operations.at[k], how, now, s'.operations.at[k]))
    && (forall k :: k in s.operations.at && !(k in s.pending.at && k in ids) ==>
          s'.operations.at[k] == s.operations.at[k])
  }

  lemma WaiterRetires(s: State, id: Id, how: Ending, now: int)
    requires Inv(s) && s.clock <= now && id in s.pending.at
    ensures var r := Retire(s, id, Ended(s.operations.at[id], how, now), now);
            && id in s.operations.at && Ends(s, {id}, how, now, r) && r.cancellations == s.cancellations
            && Core(r) && r.clock == now && r.transportOf == s.transportOf
            && EndWaiter(s, id, how, now)
               == if how.Disconnected? then r else Cancel(r, id, s.pending.at[id].delivery, now)
  {
    hide Inv, Core, Leads, Cancel, Follows, RecordOk, Without, Fits;
    InvParts(s);
    PendingRecord(s, id);
    RecordsValid(s);
    var o := s.operations.at[id];
    var next := Ended(o, how, now);
    MoveShape(s.operations, id, next);
    EndedFollows(o, how, now, s);
    RetireKeeps(s, id, next, now);
  }

  lemma CancelAside(s: State, id: Id, delivery: Option<PeerId>, now: int)
    requires Core(s) && s.clock <= now
    ensures var s' := Cancel(s, id, delivery, now);
            s'.pending == s.pending && s'.operations == s.operations
  {
    hide Core, Cancel, Leads;
    CancelKeeps(s, id, delivery, now);
  }

  lemma EndsAside(s: State, ids: set<Id>, how: Ending, now: int, r: State, s': State)
    requires Ends(s, ids, how, now, r) && s'.pending == r.pending && s'.operations == r.operations
    ensures Ends(s, ids, how, now, s')
  {
    hide EndedAs;
  }

  /** The end of one wait: the record says how, and a transport that has the request is told to cancel it, unless the
      wait ended with its connection. */
  lemma {:induction false} EndLaw(s: State, id: Id, how: Ending, now: int)
    requires Inv(s) && s.clock <= now
    ensures var s' := EndWaiter(s, id, how, now);
            && Ends(s, {id}, how, now, s')
            && if id in s.pending.at && !how.Disconnected? && s.pending.at[id].delivery.Some?
                  && id !in s.cancellations.at
               then AsksToo(s, id, s.pending.at[id].delivery.value, now, s')
               else s'.cancellations == s.cancellations
  {
    if id in s.pending.at {
      hide *;
      WaiterRetires(s, id, how, now);
      InvParts(s);
      FitsParts(s);
      var r := Retire(s, id, Ended(s.operations.at[id], how, now), now);
      CancelAside(r, id, s.pending.at[id].delivery, now);
      EndsAside(s, {id}, how, now, r, EndWaiter(s, id, how, now));
      NotCancelled(r, id, s.pending.at[id].delivery, now);
      if s.pending.at[id].delivery.Some? && id !in s.cancellations.at {
        CancelLimit(s);
        CancelAsks(r, id, s.pending.at[id].delivery.value, now);
        AsksSame(s, r, id, s.pending.at[id].delivery.value, now, Cancel(r, id, s.pending.at[id].delivery, now));
      }
    } else {
      hide Inv;
      assert s.pending.at - {id} == s.pending.at;
    }
  }

  lemma CancelLimit(s: State)
    requires |s.cancellations.order| <= MAX_CANCELLATION_TOMBSTONES
    ensures |s.cancellations.order| <= 4096
  {}

  lemma NotCancelled(s: State, id: Id, delivery: Option<PeerId>, now: int)
    ensures delivery.None? || id in s.cancellations.at ==> Cancel(s, id, delivery, now) == s
  {
    hide PruneCancellations;
  }

  lemma AsksSame(s: State, r: State, id: Id, t: PeerId, now: int, s': State)
    requires r.cancellations == s.cancellations && AsksToo(r, id, t, now, s')
    ensures AsksToo(s, id, t, now, s')
  {}

  // ---------- Many ends ----------

  function Members(ids: seq<Id>): set<Id> {
    set k | k in ids
  }

  function RequestsTo(s: State, p: PeerId): set<Id> {
    set k | k in s.pending.at && s.pending.at[k].target == p
  }

  lemma OneMember(front: seq<Id>, id: Id, at: map<Id, Request>)
    ensures Members(front + [id]) == Members(front) + {id}
    ensures at - Members(front) - {id} == at - Members(front + [id])
    ensures id !in front ==> id !in Members(front)
  {
    assert Members(front + [id]) == Members(front) + {id};
  }

  lemma EndsOneMore(s: State, a: State, b: State, front: set<Id>, id: Id, how: Ending, now: int)
    requires Ends(s, front, how, now, a) && Ends(a, {id}, how, now, b) && id !in front
    requires id in s.pending.at ==> id in s.operations.at
    requires s.pending.at - front - {id} == s.pending.at - (front + {id})
    ensures Ends(s, front + {id}, how, now, b)
  {
    hide EndedAs;
    assert forall k :: k in a.pending.at <==> k in s.pending.at && k !in front;
    assert forall k :: k in a.operations.at <==> k in s.operations.at;
  }

  lemma PendingKnown(s: State, id: Id)
    requires Inv(s)
    ensures id in s.pending.at ==> id in s.operations.at
  {
    hide *;
    InvParts(s);
    if id in s.pending.at {
      PendingRecord(s, id);
    }
  }

  lemma LastOne(ids: seq<Id>)
    requires NoDup(ids) && ids != []
    ensures ids == ids[..|ids| - 1] + [ids[|ids| - 1]] && ids[|ids| - 1] !in ids[..|ids| - 1]
    ensures NoDup(ids[..|ids| - 1])
  {}

  lemma NoneEnd(s: State, how: Ending, now: int)
    ensures Ends(s, Members([]), how, now, s)
  {
    assert Members([]) == {};
    assert s.pending.at - {} == s.pending.at;
  }

  lemma EndAllIs(s: State, ids: seq<Id>, how: Ending, now: int)
    ensures ids == [] ==> EndAll(s, ids, how, now) == s
    ensures ids != [] ==>
        EndAll(s, ids, how, now) == EndWaiter(EndAll(s, ids[..|ids| - 1], how, now), ids[|ids| - 1], how, now)
  {
    hide EndWaiter;
  }

  lemma {:induction false} EndAllEnds(s: State, ids: seq<Id>, how: Ending, now: int)
    requires Inv(s) && s.clock <= now && NoDup(ids)
    ensures Ends(s, Members(ids), how, now, EndAll(s, ids, how, now))
    ensures how.Disconnected? ==> EndAll(s, ids, how, now).cancellations == s.cancellations
  {
    hide *;
    EndAllIs(s, ids, how, now);
    if ids == [] {
      NoneEnd(s, how, now);
    } else {
      var n := |ids| - 1;
      var front, a := ids[..n], EndAll(s, ids[..n], how, now);
      LastOne(ids);
      EndAllEnds(s, front, how, now);
      EndAllInv(s, front, how, now);
      TicksClock(s, a, now);
      EndLaw(a, ids[n], how, now);
      PendingKnown(s, ids[n]);
      OneMember(front, ids[n], s.pending.at);
      EndsOneMore(s, a, EndAll(s, ids, how, now), Members(front), ids[n], how, now);
    }
  }

  /** A request is overdue once its time since admission is up. */
  predicate Overdue(s: State, id: Id, now: int) {
    id in s.pending.at && now - s.pending.at[id].timestamp >= s.pending.at[id].timeoutMs
  }

  lemma NoDupAppend(order: seq<Id>, id: Id)
    requires NoDup(order) && id !in order
    ensures NoDup(order + [id])
  {}

  lemma {:induction false} OverdueIds(s: State, order: seq<Id>, now: int)
    requires NoDup(order)
    ensures forall k :: k in TimedOutIds(s, order, now) <==> k in order && Overdue(s, k, now)
    ensures NoDup(TimedOutIds(s, order, now))
  {
    if order != [] {
      var n := |order| - 1;
      LastOne(order);
      OverdueIds(s, order[..n], now);
      hide NoDup;
      if order[n] !in TimedOutIds(s, order[..n], now) {
        NoDupAppend(TimedOutIds(s, order[..n], now), order[n]);
      }
    }
  }

  lemma {:induction false} TargetIds(s: State, order: seq<Id>, p: PeerId)
    requires NoDup(order)
    ensures forall k :: k in TargetedIds(s, order, p) <==>
              k in order && k in s.pending.at && s.pending.at[k].target == p
    ensures NoDup(TargetedIds(s, order, p))
  {
    if order != [] {
      var n := |order| - 1;
      LastOne(order);
      TargetIds(s, order[..n], p);
      hide NoDup;
      if order[n] !in TargetedIds(s, order[..n], p) {
        NoDupAppend(TargetedIds(s, order[..n], p), order[n]);
      }
    }
  }

  lemma PendingValid(s: State)
    requires Inv(s)
    ensures s.pending.Valid()
  {
    InvParts(s);
    CoreParts(s);
    hide Core, Inv, Linked, Retaining, Distinct, Ordered, Bounded, Records, Orders;
  }

  /** A sweep ends exactly the overdue waits, as timed out, and each of their records is on file. */
  lemma {:induction false} SweepLaw(s: State, now: int)
    requires Inv(s) && s.clock <= now
    ensures var s' := CleanupOld(s, now);
            && (forall k :: k in s'.pending.at <==> k in s.pending.at && !Overdue(s, k, now))
            && (forall k :: k in s'.pending.at ==> s'.pending.at[k] == s.pending.at[k])
            && (forall k :: Overdue(s, k, now) ==>
                  k in s'.operations.at && EndedAs(s.operations.at[k], TimedOut, now, s'.operations.at[k]))
            && (forall k :: !Overdue(s, k, now) ==> (k in s'.operations.at <==> Recorded(s, k, now)))
            && (forall k :: !Overdue(s, k, now) && k in s'.operations.at ==>
                  s'.operations.at[k] == s.operations.at[k])
  {
    var ids := TimedOutIds(s, s.pending.order, now);
    var e := EndAll(s, ids, TimedOut, now);
    assert CleanupOld(s, now) == Prune(e, now);
    hide *;
    PendingValid(s);
    ValidMembers(s);
    OverdueIds(s, s.pending.order, now);
    EndAllEnds(s, ids, TimedOut, now);
    EndAllInv(s, ids, TimedOut, now);
    TicksClock(s, e, now);
    PruneTakesExpired(e, now);
    SweptPending(s, Members(ids), e, now);
    SweptRecords(s, Members(ids), e, now, Prune(e, now));
  }

  lemma TicksClock(s: State, s': State, now: int)
    requires Ticks(s, s', now)
    ensures s'.clock <= now
  {}

  lemma ValidMembers(s: State)
    requires s.pending.Valid()
    ensures NoDup(s.pending.order) && forall k :: k in s.pending.at <==> k in s.pending.order
  {}

  lemma SweptPending(s: State, ids: set<Id>, e: State, now: int)
    requires Ends(s, ids, TimedOut, now, e)
    requires forall k :: k in ids <==> k in s.pending.order && Overdue(s, k, now)
    requires forall k :: k in s.pending.at <==> k in s.pending.order
    ensures forall k :: k in ids <==> Overdue(s, k, now)
    ensures forall k :: k in e.pending.at <==> k in s.pending.at && !Overdue(s, k, now)
    ensures forall k :: k in e.pending.at ==> e.pending.at[k] == s.pending.at[k]
  {
    hide EndedAs;
  }

  lemma SweptRecords(s: State, ids: set<Id>, e: State, now: int, s': State)
    requires Ends(s, ids, TimedOut, now, e) && Remembers(e, now, s')
    requires forall k :: k in ids <==> Overdue(s, k, now)
    requires forall k :: k in e.pending.at <==> k in s.pending.at && !Overdue(s, k, now)
    ensures forall k :: Overdue(s, k, now) ==>
              k in s'.operations.at && EndedAs(s.operations.at[k], TimedOut, now, s'.operations.at[k])
    ensures forall k :: !Overdue(s, k, now) ==> (k in s'.operations.at <==> Recorded(s, k, now))
    ensures forall k :: !Overdue(s, k, now) && k in s'.operations.at ==> s'.operations.at[k] == s.operations.at[k]
  {
    forall k | Overdue(s, k, now)
      ensures k in s'.operations.at && EndedAs(s.operations.at[k], TimedOut, now, s'.operations.at[k]) {
      assert k in s.pending.at && k in ids;
      assert Recorded(e, k, now);
    }
    forall k | !Overdue(s, k, now) ensures Recorded(e, k, now) <==> Recorded(s, k, now) {}
  }

  // ---------- Connections ----------

  /** A Peer is registered under the transport given first. */
  lemma RegisterLaw(s: State, p: PeerId, t: PeerId)
    ensures var s' := Register(s, p, t);
            && s' == s.(transportOf := s'.transportOf) && p in s'.transportOf
            && s'.transportOf[p] == (if p in s.transportOf then s.transportOf[p] else t)
            && (forall q :: q != p ==> (q in s'.transportOf <==> q in s.transportOf))
            && (forall q :: q != p && q in s.transportOf ==> s'.transportOf[q] == s.transportOf[q])
  {}

  /** A Peer that leaves ends exactly the waits on its requests, as disconnected, and asks nobody to cancel. */
  lemma {:induction false} UnregisterLaw(s: State, p: PeerId, now: int)
    requires Inv(s) && s.clock <= now
    ensures var s' := Unregister(s, p, now);
            && s'.transportOf == s.transportOf - {p} && s'.cancellations == s.cancellations
            && Ends(s, RequestsTo(s, p), Disconnected, now, s')
  {
    var s1 := s.(transportOf := s.transportOf - {p});
    var ids := TargetedIds(s, s.pending.order, p);
    assert Unregister(s, p, now) == EndAll(s1, ids, Disconnected, now) && s1.clock == s.clock;
    hide *;
    PeersInv(s, s.transportOf - {p});
    PendingValid(s);
    ValidMembers(s);
    TargetIds(s, s.pending.order, p);
    TargetsAre(s, ids, p);
    EndAllEnds(s1, ids, Disconnected, now);
    EndAllPeers(s1, ids, Disconnected, now);
    EndsSame(s, s1, Members(ids), Disconnected, now, EndAll(s1, ids, Disconnected, now));
  }

  lemma TargetsAre(s: State, ids: seq<Id>, p: PeerId)
    requires forall k :: k in ids <==> k in s.pending.order && k in s.pending.at && s.pending.at[k].target == p
    requires forall k :: k in s.pending.at <==> k in s.pending.order
    ensures Members(ids) == RequestsTo(s, p)
  {}

  lemma EndsSame(s: State, s1: State, ids: set<Id>, how: Ending, now: int, s': State)
    requires s1.pending == s.pending && s1.operations == s.operations && Ends(s1, ids, how, now, s')
    ensures Ends(s, ids, how, now, s')
  {
    hide EndedAs;
  }

  lemma CancellationsKeepPeers(s: State, now: int)
    ensures PruneCancellations(s, now).transportOf == s.transportOf
  {
    var gone := set id | id in s.cancellations.at
        && now - s.cancellations.at[id].createdAt >= CANCELLATION_TOMBSTONE_TTL_MS;
    TrimKeepsPeers(s.(clock := now, cancellations := s.cancellations.DeleteAll(gone)));
  }

  lemma {:induction false} TrimKeepsPeers(s: State)
    ensures TrimCancellations(s).transportOf == s.transportOf
    decreases |s.cancellations.order|
  {
    if |s.cancellations.order| > MAX_CANCELLATION_TOMBSTONES {
      WithoutPresentShrinks(s.cancellations.order, s.cancellations.order[0]);
      TrimKeepsPeers(s.(cancellations := s.cancellations.Delete(s.cancellations.order[0])));
    }
  }

  lemma WaiterKeepsPeers(s: State, id: Id, how: Ending, now: int)
    ensures EndWaiter(s, id, how, now).transportOf == s.transportOf
  {
    forall p: State ensures PruneCancellations(p, now).transportOf == p.transportOf {
      CancellationsKeepPeers(p, now);
    }
    hide PruneCancellations, Ended, Without;
  }

  lemma {:induction false} EndAllPeers(s: State, ids: seq<Id>, how: Ending, now: int)
    ensures EndAll(s, ids, how, now).transportOf == s.transportOf
  {
    if ids != [] {
      EndAllPeers(s, ids[..|ids| - 1], how, now);
      WaiterKeepsPeers(EndAll(s, ids[..|ids| - 1], how, now), ids[|ids| - 1], how, now);
      hide EndWaiter;
    }
  }

  /** Clearing ends every wait, as disconnected, and forgets every cancellation. */
  lemma {:induction false} ClearLaw(s: State, now: int)
    requires Inv(s) && s.clock <= now
    ensures var s' := ClearAll(s, now);
            && s'.pending.at == map[] && s'.cancellations.at == map[] && s'.cancellations.order == []
            && s'.transportOf == s.transportOf && Ends(s, s.pending.at.Keys, Disconnected, now, s')
  {
    var e := EndAll(s, s.pending.order, Disconnected, now);
    assert ClearAll(s, now) == e.(cancellations := OMap([], map[]));
    hide *;
    PendingValid(s);
    ValidMembers(s);
    EndAllEnds(s, s.pending.order, Disconnected, now);
    EndAllPeers(s, s.pending.order, Disconnected, now);
    ClearedAll(s, e);
    EndsAside(s, s.pending.at.Keys, Disconnected, now, e, ClearAll(s, now));
    NonePending(s, now, ClearAll(s, now));
  }

  lemma NonePending(s: State, now: int, s': State)
    requires Ends(s, s.pending.at.Keys, Disconnected, now, s')
    ensures s'.pending.at == map[]
  {
    hide EndedAs;
  }

  lemma ClearedAll(s: State, e: State)
    requires forall k :: k in s.pending.at <==> k in s.pending.order
    ensures Members(s.pending.order) == s.pending.at.Keys
  {}

  // ---------- Claims ----------

  /** A claim marks the chosen request and its record and changes nothing else. */
  lemma {:induction false} ClaimLaw(s: State, t: PeerId, owner: Owner, now: int)
    requires Inv(s)
    ensures var s', id := Claim(s, t, owner, now), Choice(s, t);
            if id.None? then s' == s else
              && id.value in s.pending.at && id.value in s.operations.at
              && s'.pending.order == s.pending.order && s'.operations.order == s.operations.order
              && s'.pending.at == s.pending.at[id.value :=
                   s.pending.at[id.value].(owner := Some(owner), delivery := Some(t))]
              && s'.operations.at == s.operations.at[id.value :=
                   s.operations.at[id.value].(transport := Some(t), stage := Dispatched, updatedAt := now)]
              && s'.cancellations == s.cancellations && s'.transportOf == s.transportOf
              && s'.retained == s.retained
  {
    if Choice(s, t).Some? {
      var id := Choice(s, t).value;
      InvParts(s);
      hide Inv, Core, Choice;
      PendingRecord(s, id);
    }
  }

  /** The deliveries a transport has outstanding are the requests marked with it. */
  lemma {:induction false} OutstandingCounts(s: State, t: PeerId)
    requires Inv(s)
    ensures Outstanding(s, t) == |set k | k in s.pending.at && s.pending.at[k].delivery == Some(t)|
  {
    hide Inv, Total, NoDup;
    PendingValid(s);
    ValidMembers(s);
    CountedDeliveries(s, s.pending.order, t);
    assert Marked(s, s.pending.order, t) == (set k | k in s.pending.at && s.pending.at[k].delivery == Some(t));
  }

  function Marked(s: State, order: seq<Id>, t: PeerId): set<Id> {
    set k | k in order && k in s.pending.at && s.pending.at[k].delivery == Some(t)
  }

  lemma MarkedLast(s: State, front: seq<Id>, id: Id, t: PeerId)
    requires id !in front && id in s.pending.at
    ensures |Marked(s, front + [id], t)|
        == |Marked(s, front, t)| + if s.pending.at[id].delivery == Some(t) then 1 else 0
  {
    assert Marked(s, front + [id], t)
        == Marked(s, front, t) + if s.pending.at[id].delivery == Some(t) then {id} else {};
  }

  lemma {:induction false} CountedDeliveries(s: State, order: seq<Id>, t: PeerId)
    requires NoDup(order) && forall k :: k in order ==> k in s.pending.at
    ensures Total(order, DeliveredTo(s.pending.at, t)) == |Marked(s, order, t)|
  {
    if order == [] {
      assert Marked(s, order, t) == {};
    } else {
      var n := |order| - 1;
      LastOne(order);
      CountedDeliveries(s, order[..n], t);
      hide NoDup, Marked;
      MarkedLast(s, order[..n], order[n], t);
    }
  }

  /** The cancellation at place p of the order is the first the transport may take. */
  predicate FirstFree(s: State, t: PeerId, p: nat) {
    && p < |s.cancellations.order| && Free(s, s.cancellations.order[p], t)
    && forall q :: 0 <= q < p ==> !Free(s, s.cancellations.order[q], t)
  }

  predicate Free(s: State, id: Id, t: PeerId) {
    && id in s.cancellations.at && s.cancellations.at[id].transport == t && s.cancellations.at[id].owner.None?
  }

  lemma {:induction false} FirstIsFree(s: State, order: seq<Id>, t: PeerId) returns (p: nat)
    ensures var id := FirstCancellation(s, order, t);
            && (id.None? ==> forall k :: k in order ==> !Free(s, k, t))
            && (id.Some? ==> p < |order| && order[p] == id.value && Free(s, id.value, t)
                             && forall q :: 0 <= q < p ==> !Free(s, order[q], t))
  {
    p := 0;
    if order != [] && !Free(s, order[0], t) {
      var q := FirstIsFree(s, order[1..], t);
      assert order == [order[0]] + order[1..];
      assert forall i :: 0 < i < q + 1 && i < |order| ==> order[i] == order[1..][i - 1];
      p := q + 1;
    }
  }

  /** A transport takes the first cancellation that is its own, still asked for and unclaimed, and only that. */
  lemma {:induction false} CancellationClaimLaw(s: State, t: PeerId, owner: Owner, now: int)
    requires Inv(s) && s.clock <= now
    ensures var p, s' := PruneCancellations(s, now), ClaimCancellation(s, t, owner, now);
            && AskedStill(s, now, p) && SameRequests(s, s')
            && if forall k :: Asked(s, k, now) ==> !Free(s, k, t) then s' == p else
                 exists i: nat :: FirstFree(p, t, i) && Takes(p, p.cancellations.order[i], owner, s')
  {
    var p := PruneCancellations(s, now);
    hide *;
    InvParts(s);
    FitsParts(s);
    CancelLimit(s);
    FilteredTombstones(s, now);
    PruneCancellationsKeeps(s, now);
    TombstonesAre(p);
    TombstonesFacts(p);
    FreeStill(s, p, t, now);
    ClaimsFirst(p, t, owner);
    ClaimIs(s, t, owner, now);
    if exists k :: Free(p, k, t) {
      SameRequestsOn(s, p, Claimed(p, t, owner));
    }
  }

  function Claimed(p: State, t: PeerId, owner: Owner): State {
    var id := FirstCancellation(p, p.cancellations.order, t);
    if id.None? then p else
    p.(cancellations := p.cancellations.Set(id.value, p.cancellations.at[id.value].(owner := Some(owner))))
  }

  lemma ClaimIs(s: State, t: PeerId, owner: Owner, now: int)
    ensures ClaimCancellation(s, t, owner, now) == Claimed(PruneCancellations(s, now), t, owner)
  {
    hide PruneCancellations, FirstCancellation;
  }

  lemma FreeStill(s: State, p: State, t: PeerId, now: int)
    requires AskedStill(s, now, p)
    ensures (forall k :: Asked(s, k, now) ==> !Free(s, k, t)) <==> (forall k :: !Free(p, k, t))
  {
    forall k ensures Free(p, k, t) <==> Asked(s, k, now) && Free(s, k, t) {}
  }

  lemma ClaimsFirst(p: State, t: PeerId, owner: Owner)
    requires p.cancellations.Valid()
    ensures var s' := Claimed(p, t, owner);
            && SameRequests(p, s')
            && ((forall k :: !Free(p, k, t)) ==> s' == p)
            && ((exists k :: Free(p, k, t)) ==>
                  exists i: nat :: FirstFree(p, t, i) && Takes(p, p.cancellations.order[i], owner, s'))
  {
    var i := FirstIsFree(p, p.cancellations.order, t);
    hide FirstCancellation, NoDup;
    if FirstCancellation(p, p.cancellations.order, t).Some? {
      assert FirstFree(p, t, i) && Takes(p, p.cancellations.order[i], owner, Claimed(p, t, owner));
    }
  }

  predicate Takes(p: State, id: Id, owner: Owner, s': State) {
    && id in p.cancellations.at && s'.cancellations.order == p.cancellations.order
    && s'.cancellations.at == p.cancellations.at[id := p.cancellations.at[id].(owner := Some(owner))]
  }

  /** A lost socket gives its cancellations back, and nobody else's; a request it had claimed stays claimed. */
  lemma {:induction false} ReleaseLaw(s: State, owner: Owner)
    ensures var s' := ReleaseClaims(s, owner);
            && s' == s.(cancellations := s'.cancellations) && s'.cancellations.order == s.cancellations.order
            && s'.cancellations.at.Keys == s.cancellations.at.Keys
            && (forall k :: k in s.cancellations.at ==>
                  && s'.cancellations.at[k].transport == s.cancellations.at[k].transport
                  && s'.cancellations.at[k].createdAt == s.cancellations.at[k].createdAt
                  && s'.cancellations.at[k].owner
                     == if s.cancellations.at[k].owner == Some(owner) then None else s.cancellations.at[k].owner)
  {}
}
