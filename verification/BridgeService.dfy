/** The request broker of the bridge, its maps and counters updated in place. */
module Bridge {
  import opened Common
  import opened OrderedMaps
  import opened Broker
  import opened BrokerInvariant
  import opened BrokerSteps

  function ResultBytes(o: Operation): nat {
    if o.stored.Some? then o.stored.value else 0
  }

  // ---------- Counters ----------

  lemma ForgetOneBytes(s: State, id: Id)
    requires Core(s) && id in s.operations.at
    ensures RetainedBytes(Forget(s, {id})) == RetainedBytes(s) - ResultBytes(s.operations.at[id])
  {
    var s' := Forget(s, {id});
    CoreParts(s);
    assert NoDup(s.retained);
    assert id in s.retained <==> s.operations.at[id].stored.Some?;
    WithoutMembers(s.retained, {id});
    hide Core, Records, Orders, Linked, Retaining, Distinct, Shaped, Ordered, Bounded, Without, Total, NoDup;
    TotalAgrees(s'.retained, StoredSizes(s'.operations.at), StoredSizes(s.operations.at));
    if id in s.retained {
      TotalWithoutOne(s.retained, id, StoredSizes(s.operations.at));
    } else {
      WithoutNothing(s.retained, {id});
    }
  }

  lemma DropFirstBytes(s: State)
    requires Core(s) && s.retained != []
    ensures s.retained[0] in s.operations.at
    ensures RetainedBytes(DropFirstResult(s)) == RetainedBytes(s) - ResultBytes(s.operations.at[s.retained[0]])
  {
    var id, rest := s.retained[0], s.retained[1..];
    var s' := DropFirstResult(s);
    DropFirstShape(s);
    CoreParts(s);
    assert NoDup(s.retained) && id !in rest;
    hide Core, Records, Orders, Linked, Retaining, Distinct, Shaped, Ordered, Bounded, DropFirstResult, Without,
        Total, NoDup, Unstored;
    TotalAgrees(rest, StoredSizes(s'.operations.at), StoredSizes(s.operations.at));
    TotalWithoutOne(s.retained, id, StoredSizes(s.operations.at));
    WithoutFirst(s.retained);
  }

  lemma WithoutFirst(s: seq<Id>)
    requires s != [] && s[0] !in s[1..]
    ensures Without(s, {s[0]}) == s[1..]
  {
    WithoutCons(s[0], s[1..]);
    assert s == [s[0]] + s[1..];
  }

  lemma {:induction false} WithoutCons(x: Id, s: seq<Id>)
    requires x !in s
    ensures Without([x] + s, {x}) == s
  {
    if s == [] {
      assert [x] + s == [x] && [x][..0] == [];
    } else {
      var n := |s| - 1;
      assert s == s[..n] + [s[n]];
      assert ([x] + s)[..n + 1] == [x] + s[..n];
      WithoutCons(x, s[..n]);
    }
  }

  lemma ForgetShape(s: State, gone: set<Id>)
    ensures Forget(s, gone) == State(s.pending, s.operations.DeleteAll(gone), Without(s.retained, gone),
        s.cancellations,
                                     s.transportOf, s.nextSerial, s.clock)
    ensures PendingBytes(Forget(s, gone)) == PendingBytes(s)
  {
    hide Total;
  }

  lemma ForgetTwice(s: State, a: set<Id>, b: set<Id>)
    ensures Forget(Forget(s, a), b) == Forget(s, a + b)
  {
    WithoutTwice(s.operations.order, a, b);
    WithoutTwice(s.retained, a, b);
    assert (s.operations.at - a) - b == s.operations.at - (a + b);
  }

  lemma ForgetNothing(s: State)
    ensures Forget(s, {}) == s
  {
    WithoutNothing(s.operations.order, {});
    WithoutNothing(s.retained, {});
    assert s.operations.at - {} == s.operations.at;
  }

  // ---------- The early exit of the first pruning loop ----------

  function ExpiredIn(s: State, now: int, ids: seq<Id>): set<Id> {
    set id | id in ids && id in Expired(s, now)
  }

  lemma FreshOrder(order: seq<Id>, times: map<Id, int>, gone: set<Id>, now: int, i: nat)
    requires Ascending(order, times) && i < |order| && order[i] in times
        && now - times[order[i]] < OPERATION_RETENTION_MS
    requires forall id :: id in gone ==> id in order && id in times && now - times[id] >= OPERATION_RETENTION_MS
    ensures forall id :: id in gone ==> id in order[..i]
  {
    forall id | id in gone ensures id in order[..i] {
      var j :| 0 <= j < |order| && order[j] == id;
      assert j < i;
      assert order[..i][j] == id;
    }
  }

  /** Nothing after a fresh idle record is stale. */
  lemma FreshFromHere(s: State, now: int, i: nat)
    requires Core(s) && i < |s.operations.order|
    requires s.operations.order[i] !in s.pending.at && s.operations.order[i] !in Expired(s, now)
    ensures ExpiredIn(s, now, s.operations.order[..i]) == Expired(s, now)
  {
    CoreParts(s);
    hide Core, Records, Orders, Linked, Retaining, Distinct, Bounded;
    assert s.operations.Valid() && Ascending(s.operations.order, IdleTimes(s));
    hide Ordered, Shaped, Ascending, NoDup;
    assert s.operations.order[i] in IdleTimes(s);
    FreshOrder(s.operations.order, IdleTimes(s), Expired(s, now), now, i);
    hide IdleTimes, Expired;
  }

  lemma SeenOneMore(s: State, now: int, i: nat)
    requires i < |s.operations.order|
    ensures var order := s.operations.order;
            ExpiredIn(s, now, order[..i + 1]) ==
            if order[i] in Expired(s, now) then ExpiredIn(s, now, order[..i]) + {order[i]}
                else ExpiredIn(s, now, order[..i])
  {
    assert s.operations.order[..i + 1] == s.operations.order[..i] + [s.operations.order[i]];
  }

  lemma AllSeen(s: State, now: int, i: nat)
    requires i <= |s.operations.order| && Core(s)
    ensures i == |s.operations.order| ==> ExpiredIn(s, now, s.operations.order[..i]) == Expired(s, now)
  {
    RecordsValid(s);
    hide Core;
    assert s.operations.order[..|s.operations.order|] == s.operations.order;
  }

  lemma NothingSeen(s: State, now: int)
    ensures Forget(s, ExpiredIn(s, now, s.operations.order[..0])) == s
  {
    assert ExpiredIn(s, now, s.operations.order[..0]) == {};
    hide Forget;
    ForgetNothing(s);
  }

  /** The record at position i has not been touched by the removals before it. */
  lemma StillThere(s: State, now: int, i: nat)
    requires Core(s) && i < |s.operations.order|
    ensures var s' := Forget(s, ExpiredIn(s, now, s.operations.order[..i]));
            var id := s.operations.order[i];
            && id in s.operations.at && id in s'.operations.at && s'.operations.at[id] == s.operations.at[id]
                && s'.pending == s.pending
            && (id in Expired(s, now) <==>
                id !in s.pending.at && now - s.operations.at[id].updatedAt >= OPERATION_RETENTION_MS)
  {
    CoreParts(s);
    hide Core, Records, Orders, Linked, Retaining, Distinct, Bounded, Ordered;
    assert s.operations.order[i] !in s.operations.order[..i];
    hide Without;
  }

  lemma ExpiredSame(s: State, now: int)
    ensures Expired(s.(clock := now), now) == Expired(s, now)
  {}

  lemma SameSums(s: State, s': State)
    requires s'.pending == s.pending && s'.operations == s.operations && s'.retained == s.retained
    ensures PendingBytes(s') == PendingBytes(s) && RetainedBytes(s') == RetainedBytes(s)
  {
    hide Total;
  }

  lemma SamePendingBytes(s: State, s': State)
    requires s'.pending == s.pending
    ensures PendingBytes(s') == PendingBytes(s)
  {
    hide Total;
  }

  lemma FirstIdleSkips(order: seq<Id>, at: map<Id, Request>)
    requires order != [] && order[0] in at
    ensures FirstIdle(order, at) == FirstIdle(order[1..], at)
  {}

  lemma FirstIdleHere(order: seq<Id>, at: map<Id, Request>)
    requires order == [] || order[0] !in at
    ensures FirstIdle(order, at) == if order == [] then None else Some(order[0])
  {}

  lemma TrimStep(s: State, id: Id)
    requires |s.operations.order| > MAX_OPERATION_RECORDS && FirstIdle(s.operations.order, s.pending.at) == Some(id)
    requires id in s.operations.order
    ensures Trim(s) == Trim(Forget(s, {id})) && |Forget(s, {id}).operations.order| < |s.operations.order|
  {
    ForgetShrinks(s, id);
    hide Forget, FirstIdle;
  }

  lemma TrimDone(s: State)
    ensures |s.operations.order| <= MAX_OPERATION_RECORDS || FirstIdle(s.operations.order, s.pending.at).None? ==>
        Trim(s) == s
  {
    hide FirstIdle, Forget;
  }

  lemma DropResultsStep(s: State)
    ensures s.retained == [] || ResultsFit(s) ==> DropResults(s) == s
    ensures s.retained != [] && !ResultsFit(s) ==> DropResults(s) == DropResults(DropFirstResult(s))
  {
    hide DropFirstResult, RetainedBytes;
  }

  // ---------- Admission, claims and ends ----------

  lemma AddSums(s: State, id: Id, target: PeerId, fingerprint: Fingerprint, bytes: nat, timeoutMs: int, now: int)
    requires Core(s) && id !in s.operations.at
    ensures var s' := AddRequest(s, id, target, fingerprint, bytes, timeoutMs, now);
            PendingBytes(s') == PendingBytes(s) + bytes && RetainedBytes(s') == RetainedBytes(s)
  {
    var s' := AddRequest(s, id, target, fingerprint, bytes, timeoutMs, now);
    CoreParts(s);
    assert id !in s.pending.at && id !in s.retained && s.pending.Valid();
    hide Core, Records, Orders, Linked, Retaining, Distinct, Shaped, Ordered, Bounded, Total;
    AddTotal(s.pending.order, id, RequestSizes(s.pending.at), RequestSizes(s'.pending.at));
    TotalAgrees(s.retained, StoredSizes(s.operations.at), StoredSizes(s'.operations.at));
  }

  lemma DispatchSums(s: State, id: Id, t: PeerId, owner: Owner, now: int)
    requires id in s.pending.at && id in s.operations.at
    ensures PendingBytes(Dispatch(s, id, t, owner, now)) == PendingBytes(s)
    ensures RetainedBytes(Dispatch(s, id, t, owner, now)) == RetainedBytes(s)
  {
    var s' := Dispatch(s, id, t, owner, now);
    hide Total;
    TotalAgrees(s.pending.order, RequestSizes(s.pending.at), RequestSizes(s'.pending.at));
    TotalAgrees(s.retained, StoredSizes(s.operations.at), StoredSizes(s'.operations.at));
  }

  lemma PendingWithout(s: State, id: Id)
    requires Shaped(s)
    ensures PendingBytes(s.(pending := s.pending.Delete(id))) ==
            PendingBytes(s) - (if id in s.pending.at then s.pending.at[id].bytes else 0)
  {
    if id in s.pending.at {
      SumsWithout(s, id, PeerId(""));
    } else {
      WithoutNothing(s.pending.order, {id});
      assert s.pending.at - {id} == s.pending.at;
    }
  }

  lemma RetainedAfter(s: State, id: Id, next: Operation, at: map<Id, Operation>)
    requires id in s.operations.at && id !in s.retained && at == s.operations.at[id := next]
    ensures Total(if next.stored.Some? then s.retained + [id] else s.retained, StoredSizes(at)) ==
        RetainedBytes(s) + ResultBytes(next)
  {
    hide Total;
    TotalAgrees(s.retained, StoredSizes(s.operations.at), StoredSizes(at));
    if next.stored.Some? {
      TotalAppend(s.retained, id, StoredSizes(at));
    }
  }

  lemma RetireSums(s: State, id: Id, next: Operation, now: int)
    requires Core(s) && id in s.operations.at && s.operations.at[id].stored.None?
    ensures var s' := Retire(s, id, next, now);
            && PendingBytes(s') == PendingBytes(s) - (if id in s.pending.at then s.pending.at[id].bytes else 0)
            && RetainedBytes(s') == RetainedBytes(s) + ResultBytes(next)
  {
    var s' := Retire(s, id, next, now);
    CoreParts(s);
    RecordsValid(s);
    assert id !in s.retained;
    hide Core, Records, Orders, Linked, Retaining, Distinct, Ordered, Bounded, Total, Shaped, ResultBytes;
    PendingWithout(s, id);
    SamePendingBytes(s.(pending := s.pending.Delete(id)), s');
    MoveShape(s.operations, id, next);
    RetainedAfter(s, id, next, s'.operations.at);
  }

  lemma TouchSums(s: State, id: Id, next: Operation, now: int)
    requires Core(s) && id in s.operations.at && s.operations.at[id].stored == next.stored
    ensures PendingBytes(Touch(s, id, next, now)) == PendingBytes(s)
        && RetainedBytes(Touch(s, id, next, now)) == RetainedBytes(s)
  {
    var s' := Touch(s, id, next, now);
    RecordsValid(s);
    hide Core, Total;
    MoveShape(s.operations, id, next);
    hide Without, NoDup;
    TotalAgrees(s.retained, StoredSizes(s.operations.at), StoredSizes(s'.operations.at));
  }

  lemma RequestsValid(s: State)
    requires Core(s)
    ensures s.pending.Valid()
    ensures forall t :: Oldest(s, s.pending.order, t).Some? ==> Oldest(s, s.pending.order, t).value in s.pending.at
  {
    CoreParts(s);
    hide Core, Linked, Retaining, Distinct, Ordered, Bounded;
  }

  lemma EligibleHere(s: State, order: seq<Id>, t: PeerId, i: nat)
    requires i < |order|
    ensures Oldest(s, order[..i + 1], t) ==
            if Eligible(s, order[i], t)
               && (Oldest(s, order[..i], t).None? ||
                   s.pending.at[order[i]].timestamp < s.pending.at[Oldest(s, order[..i], t).value].timestamp)
            then Some(order[i]) else Oldest(s, order[..i], t)
  {
    assert order[..i + 1][..i] == order[..i];
  }

  lemma CountOneMore(order: seq<Id>, w: map<Id, nat>, i: nat)
    requires i < |order|
    ensures Total(order[..i + 1], w) == Total(order[..i], w) + WeightOf(w, order[i])
  {
    assert order[..i + 1][..i] == order[..i];
  }

  lemma ClockIs(s: State, now: int)
    requires SameRest(s.(clock := now), Prune(s, now))
    ensures Prune(s, now).clock == now && Prune(s, now).cancellations == s.cancellations
  {
    hide Prune;
  }

  lemma ProgressedStored(o: Operation, phase: Phase, now: int)
    ensures Progressed(o, phase, now).stored == o.stored
  {}

  lemma KeptPending(s: State, id: Id)
    requires s.pending.Valid()
    ensures id !in s.pending.at ==> s.pending.Delete(id) == s.pending
  {
    if id !in s.pending.at {
      WithoutNothing(s.pending.order, {id});
      assert s.pending.at - {id} == s.pending.at;
    }
  }

  // ---------- Sweeps ----------

  lemma {:induction false} TrimCancellationsSpares(s: State)
    ensures TrimCancellations(s).pending == s.pending
    decreases |s.cancellations.order|
  {
    if |s.cancellations.order| > MAX_CANCELLATION_TOMBSTONES {
      WithoutPresentShrinks(s.cancellations.order, s.cancellations.order[0]);
      TrimCancellationsSpares(s.(cancellations := s.cancellations.Delete(s.cancellations.order[0])));
    }
  }

  lemma PruneCancellationsSpares(s: State, now: int)
    ensures PruneCancellations(s, now).pending == s.pending
  {
    var gone := set id | id in s.cancellations.at
        && now - s.cancellations.at[id].createdAt >= CANCELLATION_TOMBSTONE_TTL_MS;
    TrimCancellationsSpares(s.(clock := now, cancellations := s.cancellations.DeleteAll(gone)));
    hide TrimCancellations;
  }

  lemma CancelSpares(s: State, id: Id, delivery: Option<PeerId>, now: int)
    ensures Cancel(s, id, delivery, now).pending == s.pending
  {
    hide PruneCancellations;
    if delivery.Some? && id !in s.cancellations.at {
      var p := PruneCancellations(s, now);
      PruneCancellationsSpares(s, now);
      PruneCancellationsSpares(p.(cancellations := p.cancellations.Set(id, Cancellation(delivery.value, now, None))),
          now);
    }
  }

  /** Ending a wait takes its request and no other. */
  lemma EndOneElsewhere(s: State, id: Id, how: Ending, now: int)
    ensures EndWaiter(s, id, how, now).pending.at == s.pending.at - {id}
  {
    hide Cancel;
    if id in s.pending.at {
      var r := if id in s.operations.at then Retire(s, id, Ended(s.operations.at[id], how, now), now)
               else s.(pending := s.pending.Delete(id));
      CancelSpares(r, id, s.pending.at[id].delivery, now);
      assert r.pending == s.pending.Delete(id);
    } else {
      assert s.pending.at - {id} == s.pending.at;
    }
    hide Ended, Retire;
  }

  /** Ending the waits of other requests leaves a request as it was. */
  lemma {:induction false} EndAllElsewhere(s: State, ids: seq<Id>, how: Ending, now: int, id: Id)
    requires id !in ids
    ensures var e := EndAll(s, ids, how, now);
            && (id in e.pending.at <==> id in s.pending.at)
                && (id in s.pending.at ==> e.pending.at[id] == s.pending.at[id])
  {
    if ids != [] {
      var n := |ids| - 1;
      hide EndWaiter;
      EndAllElsewhere(s, ids[..n], how, now, id);
      EndOneElsewhere(EndAll(s, ids[..n], how, now), ids[n], how, now);
    }
  }

  lemma EndOneMore(s: State, ids: seq<Id>, id: Id, how: Ending, now: int)
    ensures EndAll(s, ids + [id], how, now) == EndWaiter(EndAll(s, ids, how, now), id, how, now)
  {
    assert (ids + [id])[..|ids|] == ids;
    hide EndWaiter;
  }

  lemma TimedOutOneMore(s: State, order: seq<Id>, now: int, i: nat)
    requires i < |order| && (forall k :: k in order ==> k in s.pending.at) && NoDup(order)
    ensures TimedOutIds(s, order[..i + 1], now) ==
            if now - s.pending.at[order[i]].timestamp >= s.pending.at[order[i]].timeoutMs
            then TimedOutIds(s, order[..i], now) + [order[i]] else TimedOutIds(s, order[..i], now)
    ensures order[i] !in TimedOutIds(s, order[..i], now)
  {
    assert order[..i + 1][..i] == order[..i];
    TimedOutAmong(s, order[..i], now);
    assert order[i] !in order[..i];
  }

  lemma {:induction false} TimedOutAmong(s: State, order: seq<Id>, now: int)
    ensures forall k :: k in TimedOutIds(s, order, now) ==> k in order
  {
    if order != [] {
      TimedOutAmong(s, order[..|order| - 1], now);
    }
  }

  lemma TargetedOneMore(s: State, order: seq<Id>, p: PeerId, i: nat)
    requires i < |order| && (forall k :: k in order ==> k in s.pending.at)
    ensures TargetedIds(s, order[..i + 1], p) ==
            if s.pending.at[order[i]].target == p then TargetedIds(s, order[..i], p) + [order[i]]
                else TargetedIds(s, order[..i], p)
  {
    assert order[..i + 1][..i] == order[..i];
  }

  lemma AllOf(order: seq<Id>)
    ensures order[..|order|] == order
  {}

  // ---------- Cancellations ----------

  function OldCancellations(s: State, now: int, ids: seq<Id>): set<Id> {
    set id | id in ids && id in s.cancellations.at
        && now - s.cancellations.at[id].createdAt >= CANCELLATION_TOMBSTONE_TTL_MS
  }

  function DropIn(s: State, now: int, ids: seq<Id>): State {
    s.(clock := now, cancellations := s.cancellations.DeleteAll(OldCancellations(s, now, ids)))
  }

  /** No tombstone after a fresh one is old. */
  lemma FreshTombstone(s: State, now: int, i: nat)
    requires TombstonesOk(s) && i < |s.cancellations.order|
    requires now - s.cancellations.at[s.cancellations.order[i]].createdAt < CANCELLATION_TOMBSTONE_TTL_MS
    ensures TrimCancellations(DropIn(s, now, s.cancellations.order[..i])) == PruneCancellations(s, now)
  {
    hide TrimCancellations;
    var order := s.cancellations.order;
    forall j | i < j < |order| ensures TombstoneTimes(s)[order[i]] <= TombstoneTimes(s)[order[j]] {
    }
    var gone := set id | id in s.cancellations.at
        && now - s.cancellations.at[id].createdAt >= CANCELLATION_TOMBSTONE_TTL_MS;
    forall id | id in gone ensures id in order[..i] {
      var j :| 0 <= j < |order| && order[j] == id;
      assert j < i;
      assert order[..i][j] == id;
    }
    assert OldCancellations(s, now, order[..i]) == gone;
  }

  lemma AllTombstones(s: State, now: int)
    requires TombstonesOk(s)
    ensures TrimCancellations(DropIn(s, now, s.cancellations.order[..|s.cancellations.order|])) ==
        PruneCancellations(s, now)
  {
    hide TrimCancellations;
    assert s.cancellations.order[..|s.cancellations.order|] == s.cancellations.order;
    assert OldCancellations(s, now, s.cancellations.order) ==
           set id | id in s.cancellations.at && now - s.cancellations.at[id].createdAt >= CANCELLATION_TOMBSTONE_TTL_MS;
  }

  lemma NextTombstone(s: State, now: int, i: nat)
    requires TombstonesOk(s) && i < |s.cancellations.order|
    ensures var order := s.cancellations.order; var d := DropIn(s, now, order[..i]);
            && order[i] in s.cancellations.at && order[i] in d.cancellations.at
            && d.cancellations.at[order[i]] == s.cancellations.at[order[i]]
            && (now - s.cancellations.at[order[i]].createdAt >= CANCELLATION_TOMBSTONE_TTL_MS ==>
                  DropIn(s, now, order[..i + 1]).cancellations == d.cancellations.DeleteAll({order[i]}))
  {
    var order := s.cancellations.order;
    var gone := OldCancellations(s, now, order[..i]);
    assert order[i] !in order[..i] && order[..i + 1] == order[..i] + [order[i]];
    WithoutTwice(order, gone, {order[i]});
    assert (s.cancellations.at - gone) - {order[i]} == s.cancellations.at - (gone + {order[i]});
    if now - s.cancellations.at[order[i]].createdAt >= CANCELLATION_TOMBSTONE_TTL_MS {
      assert OldCancellations(s, now, order[..i + 1]) == gone + {order[i]};
    }
  }

  lemma TombstonesValid(s: State)
    requires TombstonesOk(s)
    ensures s.cancellations.Valid()
  {}

  lemma InvTombstones(s: State)
    requires Inv(s)
    ensures s.cancellations.Valid()
  {
    InvParts(s);
    hide Inv, Core, TombstonesOk;
    TombstonesAre(s);
    TombstonesValid(s);
  }

  lemma FirstCancellationStep(s: State, order: seq<Id>, t: PeerId)
    ensures order == [] ==> FirstCancellation(s, order, t).None?
    ensures order != [] && order[0] in s.cancellations.at ==>
              FirstCancellation(s, order, t) ==
              if s.cancellations.at[order[0]].transport == t && s.cancellations.at[order[0]].owner.None?
                  then Some(order[0])
              else FirstCancellation(s, order[1..], t)
  {}

  /** Pruning tombstones leaves those that stay as they were. */
  lemma PrunedTombstones(s: State, now: int)
    ensures forall id :: id in PruneCancellations(s, now).cancellations.at ==>
              id in s.cancellations.at && PruneCancellations(s, now).cancellations.at[id] == s.cancellations.at[id]
  {
    var gone := set id | id in s.cancellations.at
        && now - s.cancellations.at[id].createdAt >= CANCELLATION_TOMBSTONE_TTL_MS;
    hide Without, TrimCancellations;
    TrimmedTombstones(s.(clock := now, cancellations := s.cancellations.DeleteAll(gone)));
  }

  lemma {:induction false} TrimmedTombstones(s: State)
    ensures forall id :: id in TrimCancellations(s).cancellations.at ==>
              id in s.cancellations.at && TrimCancellations(s).cancellations.at[id] == s.cancellations.at[id]
    decreases |s.cancellations.order|
  {
    if |s.cancellations.order| > MAX_CANCELLATION_TOMBSTONES {
      WithoutPresentShrinks(s.cancellations.order, s.cancellations.order[0]);
      TrimmedTombstones(s.(cancellations := s.cancellations.Delete(s.cancellations.order[0])));
    }
  }

  /** The claims of `owner` among the listed cancellations are given back, the others untouched. */
  ghost predicate Released(was: map<Id, Cancellation>, at: map<Id, Cancellation>, ids: seq<Id>, owner: Owner) {
    && at.Keys == was.Keys
    && (forall id :: id in was && id in ids && was[id].owner == Some(owner) ==> at[id] == was[id].(owner := None))
    && (forall id :: id in was && (id !in ids || was[id].owner != Some(owner)) ==> at[id] == was[id])
  }

  lemma ReleasedAll(s: State, at: map<Id, Cancellation>, owner: Owner)
    requires s.cancellations.Valid() && Released(s.cancellations.at, at, s.cancellations.order, owner)
    ensures ReleaseClaims(s, owner).cancellations.at == at
  {}

  lemma NothingEnded(s: State, order: seq<Id>, now: int)
    ensures EndAll(s, TimedOutIds(s, order[..0], now), TimedOut, now) == s
  {}

  lemma NoneEnded(s: State, how: Ending, now: int)
    ensures EndAll(s, [], how, now) == s
  {}

  lemma NoneTargeted(s: State, p: PeerId)
    ensures TargetedIds(s, [], p) == []
  {}

  lemma DropInShape(s: State, now: int, ids: seq<Id>)
    ensures var d := DropIn(s, now, ids);
            d == State(s.pending, s.operations, s.retained, d.cancellations, s.transportOf, s.nextSerial, now)
  {}

  lemma NoTombstones(s: State, now: int)
    ensures DropIn(s, now, s.cancellations.order[..0]) == s.(clock := now)
  {
    assert OldCancellations(s, now, s.cancellations.order[..0]) == {};
    WithoutNothing(s.cancellations.order, {});
    assert s.cancellations.at - {} == s.cancellations.at;
  }

  lemma TrimCancellationsStep(s: State)
    ensures |s.cancellations.order| <= MAX_CANCELLATION_TOMBSTONES ==> TrimCancellations(s) == s
    ensures |s.cancellations.order| > MAX_CANCELLATION_TOMBSTONES ==>
              var s' := s.(cancellations := s.cancellations.Delete(s.cancellations.order[0]));
              TrimCancellations(s) == TrimCancellations(s') && |s'.cancellations.order| < |s.cancellations.order|
  {
    if |s.cancellations.order| > MAX_CANCELLATION_TOMBSTONES {
      WithoutPresentShrinks(s.cancellations.order, s.cancellations.order[0]);
    }
    hide Without;
  }

  class BridgeService {
    var pending: OMap<Id, Request>
    var operations: OMap<Id, Operation>
    var retained: seq<Id>
    var cancellations: OMap<Id, Cancellation>
    var transportOf: map<PeerId, PeerId>
    var pendingRequestBytes: int
    var retainedResultBytes: int
    var nextSerial: nat
    ghost var clock: int

    ghost function Abs(): State
      reads this
    {
      State(pending, operations, retained, cancellations, transportOf, nextSerial, clock)
    }

    /** The byte counters are the sums they stand for. */
    ghost predicate Counted()
      reads this
    {
      pendingRequestBytes == PendingBytes(Abs()) && retainedResultBytes == RetainedBytes(Abs())
    }

    ghost predicate Valid()
      reads this
    {
      Inv(Abs()) && Counted()
    }

    constructor ()
      ensures Valid() && Abs() == INITIAL
    {
      pending, operations, cancellations := OMap([], map[]), OMap([], map[]), OMap([], map[]);
      retained, transportOf := [], map[];
      pendingRequestBytes, retainedResultBytes := 0, 0;
      nextSerial, clock := 0, 0;
      new;
      InitialInv();
    }

    // ---------- pruneOperations ----------

    method Remove(id: Id)
      requires Core(Abs()) && Counted() && id in operations.at && id !in pending.at
      modifies this`operations, this`retained, this`retainedResultBytes
      ensures Abs() == Forget(old(Abs()), {id}) && Core(Abs()) && Counted()
    {
      hide Core, PendingBytes, RetainedBytes, Forget, Leads, Without, ResultBytes;
      ghost var s := Abs();
      ForgetShape(s, {id});
      ForgetOneBytes(s, id);
      ForgetKeeps(s, {id});
      retainedResultBytes := retainedResultBytes - ResultBytes(operations.at[id]);
      operations := operations.DeleteAll({id});
      retained := Without(retained, {id});
      assert Abs() == Forget(s, {id});
    }

    method ForgetExpired(now: int)
      requires Core(Abs()) && Counted() && clock <= now
      modifies this`operations, this`retained, this`retainedResultBytes, this`clock
      ensures Abs() == Forget(old(Abs()).(clock := now), Expired(old(Abs()), now)) && Core(Abs()) && Counted()
    {
      hide Core, PendingBytes, RetainedBytes, Forget, Leads, Without, ResultBytes, Expired, ExpiredIn;
      ghost var s0 := Abs().(clock := now);
      SameSums(Abs(), s0);
      SetClock(Abs(), now);
      ExpiredSame(Abs(), now);
      NothingSeen(s0, now);
      clock := now;
      var order := operations.order;
      var i := 0;
      while i < |order|
        invariant 0 <= i <= |order| && order == s0.operations.order && clock == now
        invariant Abs() == Forget(s0, ExpiredIn(s0, now, order[..i])) && Core(Abs()) && Counted()
      {
        var id := order[i];
        StillThere(s0, now, i);
        SeenOneMore(s0, now, i);
        if id !in pending.at {
          if now - operations.at[id].updatedAt < OPERATION_RETENTION_MS {
            FreshFromHere(s0, now, i);
            break;
          }
          Remove(id);
          ForgetTwice(s0, ExpiredIn(s0, now, order[..i]), {id});
        }
        i := i + 1;
      }
      AllSeen(s0, now, i);
    }

    method TrimRecords()
      requires Core(Abs()) && Counted()
      modifies this`operations, this`retained, this`retainedResultBytes
      ensures Abs() == Trim(old(Abs())) && Core(Abs()) && Counted()
    {
      hide Core, PendingBytes, RetainedBytes, Forget, Trim, Leads, Without, FirstIdle;
      ghost var s1 := Abs();
      while |operations.order| > MAX_OPERATION_RECORDS
        invariant Trim(Abs()) == Trim(s1) && Core(Abs()) && Counted()
        decreases |operations.order|
      {
        var order := operations.order;
        var j := 0;
        while j < |order| && order[j] in pending.at
          invariant 0 <= j <= |order| && FirstIdle(order, pending.at) == FirstIdle(order[j..], pending.at)
          modifies {}
        {
          FirstIdleSkips(order[j..], pending.at);
          assert order[j..][1..] == order[j + 1..];
          j := j + 1;
        }
        FirstIdleHere(order[j..], pending.at);
        if j == |order| {
          break;
        }
        TrimStep(Abs(), order[j]);
        RecordsValid(Abs());
        Remove(order[j]);
      }
      TrimDone(Abs());
    }

    method DropOldResults()
      requires Core(Abs()) && Counted()
      modifies this`operations, this`retained, this`retainedResultBytes
      ensures Abs() == DropResults(old(Abs())) && Core(Abs()) && Counted()
    {
      hide Core, PendingBytes, RetainedBytes, DropResults, DropFirstResult, Leads, Unstored;
      ghost var s2 := Abs();
      if |retained| <= MAX_RETAINED_RESULTS && retainedResultBytes <= MAX_RETAINED_RESULT_BYTES {
        DropResultsStep(Abs());
        return;
      }
      while retained != []
        invariant DropResults(Abs()) == DropResults(s2) && Core(Abs()) && Counted()
        invariant !ResultsFit(Abs()) || retained == []
        decreases |retained|
      {
        var id := retained[0];
        ghost var s := Abs();
        DropResultsStep(s);
        DropFirstShape(s);
        DropFirstBytes(s);
        DropFirstKeeps(s);
        SamePendingBytes(s, DropFirstResult(s));
        retainedResultBytes := retainedResultBytes - ResultBytes(operations.at[id]);
        operations := operations.Set(id, Unstored(operations.at[id]));
        retained := retained[1..];
        assert Abs() == DropFirstResult(s);
        if |retained| <= MAX_RETAINED_RESULTS && retainedResultBytes <= MAX_RETAINED_RESULT_BYTES {
          break;
        }
      }
      DropResultsStep(Abs());
    }

    method PruneOperations(now: int)
      requires Core(Abs()) && Counted() && clock <= now
      modifies this`operations, this`retained, this`retainedResultBytes, this`clock
      ensures Abs() == Prune(old(Abs()), now) && Core(Abs()) && Counted()
    {
      hide Core, Expired, Forget, Trim, DropResults, Counted;
      ForgetExpired(now);
      TrimRecords();
      DropOldResults();
    }

    // ---------- Admission and claims ----------

    method AdmitRequest(id: Id, target: PeerId, fingerprint: Fingerprint, bytes: nat, timeoutMs: int, now: int)
      returns (a: Admission)
      requires Valid() && clock <= now
      modifies this
      ensures Valid() && (Abs(), a) == Admit(old(Abs()), id, target, fingerprint, bytes, timeoutMs, now)
    {
      hide Core, Inv, Leads, Prune, AddRequest, PendingBytes, RetainedBytes;
      InvParts(Abs());
      AdmitInv(Abs(), id, target, fingerprint, bytes, timeoutMs, now);
      PruneInv(Abs(), now);
      PruneOperations(now);
      if id in operations.at {
        a := if operations.at[id].fingerprint != fingerprint then Rejected(Collision)
             else if id in pending.at then JoinedPending else JoinedRetained;
      } else if bytes > MAX_REQUEST_BYTES {
        a := Rejected(TooLarge);
      } else if |pending.order| >= MAX_PENDING_REQUESTS || pendingRequestBytes + bytes > MAX_PENDING_REQUEST_BYTES {
        a := Rejected(CapacityExceeded);
      } else {
        Add(id, target, fingerprint, bytes, timeoutMs, now);
        PruneOperations(now);
        a := Admitted;
      }
    }

    method Add(id: Id, target: PeerId, fingerprint: Fingerprint, bytes: nat, timeoutMs: int, now: int)
      requires Core(Abs()) && Counted() && clock == now && id !in operations.at
      requires |pending.order| < MAX_PENDING_REQUESTS && pendingRequestBytes + bytes <= MAX_PENDING_REQUEST_BYTES
      modifies this
      ensures Abs() == AddRequest(old(Abs()), id, target, fingerprint, bytes, timeoutMs, now) && Core(Abs())
          && Counted()
      ensures clock == now
    {
      hide Core, Leads, PendingBytes, RetainedBytes;
      AddSums(Abs(), id, target, fingerprint, bytes, timeoutMs, now);
      AddKeeps(Abs(), id, target, fingerprint, bytes, timeoutMs);
      pending := pending.Set(id, Request(target, now, timeoutMs, bytes, None, None));
      pendingRequestBytes := pendingRequestBytes + bytes;
      operations := operations.Set(id, Operation(nextSerial, fingerprint, target, Queued, Pending, Undecided, Unknown,
          None, now, None, false));
      nextSerial := nextSerial + 1;
    }

    /** How many requests the transport was given and has not answered. */
    method CountOutstanding(t: PeerId) returns (count: nat)
      requires pending.Valid()
      ensures count == Outstanding(Abs(), t)
    {
      count := 0;
      var order := pending.order;
      for i := 0 to |order|
        invariant count == Total(order[..i], DeliveredTo(pending.at, t))
      {
        CountOneMore(order, DeliveredTo(pending.at, t), i);
        if pending.at[order[i]].delivery == Some(t) {
          count := count + 1;
        }
      }
      assert order[..|order|] == order;
    }

    method FindOldest(t: PeerId) returns (oldest: Option<Id>)
      requires pending.Valid()
      ensures oldest == Oldest(Abs(), pending.order, t)
    {
      oldest := None;
      var order := pending.order;
      for i := 0 to |order|
        invariant oldest == Oldest(Abs(), order[..i], t)
      {
        EligibleHere(Abs(), order, t, i);
        var request := pending.at[order[i]];
        if request.owner.None? && request.target in transportOf && transportOf[request.target] == t {
          if oldest.None? || request.timestamp < pending.at[oldest.value].timestamp {
            oldest := Some(order[i]);
          }
        }
      }
      assert order[..|order|] == order;
    }

    method ClaimNextRequestForTransport(t: PeerId, owner: Owner, now: int) returns (id: Option<Id>)
      requires Valid() && clock <= now
      modifies this
      ensures Valid() && Abs() == Claim(old(Abs()), t, owner, now) && id == Choice(old(Abs()), t)
    {
      hide Core, Inv, Leads, PendingBytes, RetainedBytes, Outstanding, Oldest, Eligible;
      ClaimInv(Abs(), t, owner, now);
      InvParts(Abs());
      RequestsValid(Abs());
      var count := CountOutstanding(t);
      if count >= MAX_OUTSTANDING_REQUESTS_PER_TRANSPORT {
        return None;
      }
      id := FindOldest(t);
      if id.Some? {
        ghost var s := Abs();
        PendingRecord(s, id.value);
        DispatchSums(s, id.value, t, owner, now);
        clock := now;
        pending := pending.Set(id.value, pending.at[id.value].(owner := Some(owner), delivery := Some(t)));
        if id.value in operations.at {
          operations := operations.Set(id.value,
              operations.at[id.value].(transport := Some(t), stage := Dispatched, updatedAt := now));
        }
        assert Abs() == Dispatch(s, id.value, t, owner, now);
      }
    }

    // ---------- Cancellations ----------

    method PrunePendingCancellations(now: int)
      requires TombstonesOk(Abs())
      modifies this`cancellations, this`clock
      ensures Abs() == PruneCancellations(old(Abs()), now)
    {
      hide PruneCancellations, TrimCancellations, TombstonesOk, DropIn;
      ghost var s := Abs();
      var order := cancellations.order;
      var i := 0;
      clock := now;
      NoTombstones(s, now);
      DropInShape(s, now, order[..0]);
      while i < |order|
        invariant 0 <= i <= |order| && order == s.cancellations.order && Abs() == DropIn(s, now, order[..i])
      {
        var id := order[i];
        DropInShape(s, now, order[..i]);
        NextTombstone(s, now, i);
        if now - cancellations.at[id].createdAt < CANCELLATION_TOMBSTONE_TTL_MS {
          FreshTombstone(s, now, i);
          break;
        }
        cancellations := cancellations.DeleteAll({id});
        i := i + 1;
        DropInShape(s, now, order[..i]);
      }
      if i == |order| {
        AllTombstones(s, now);
      }
      while |cancellations.order| > MAX_CANCELLATION_TOMBSTONES
        invariant TrimCancellations(Abs()) == PruneCancellations(s, now)
        decreases |cancellations.order|
      {
        TrimCancellationsStep(Abs());
        cancellations := cancellations.Delete(cancellations.order[0]);
      }
      TrimCancellationsStep(Abs());
    }

    method NotifyRequestCancelled(id: Id, delivery: Option<PeerId>, now: int)
      requires Core(Abs()) && Counted() && clock <= now
      modifies this`cancellations, this`clock
      ensures Abs() == Cancel(old(Abs()), id, delivery, now) && Core(Abs()) && Counted()
    {
      hide Core, PruneCancellations, Leads, PendingBytes, RetainedBytes, TombstonesOk;
      ghost var s := Abs();
      CancelKeeps(s, id, delivery, now);
      SameSums(s, Cancel(s, id, delivery, now));
      if delivery.None? || id in cancellations.at {
        return;
      }
      TombstonesAre(s);
      PrunePendingCancellations(now);
      ghost var c := Cancellation(delivery.value, now, None);
      PruneCancellationsKeeps(s, now);
      NewCancellation(Abs(), id, c);
      cancellations := cancellations.Set(id, Cancellation(delivery.value, now, None));
      TombstonesAre(Abs());
      PrunePendingCancellations(now);
    }

    // ---------- Ends ----------

    method RemovePendingRequest(id: Id) returns (removed: bool)
      modifies this`pending, this`pendingRequestBytes
      ensures removed <==> id in old(pending.at)
      ensures pending == if removed then old(pending).Delete(id) else old(pending)
      ensures pendingRequestBytes == old(pendingRequestBytes) - if removed then old(pending.at[id].bytes) else 0
    {
      hide Core, PendingBytes, RetainedBytes;
      if id !in pending.at {
        return false;
      }
      pendingRequestBytes := pendingRequestBytes - pending.at[id].bytes;
      pending := pending.Delete(id);
      removed := true;
    }

    method EndRequestWaiter(id: Id, how: Ending, now: int)
      requires Valid() && clock <= now
      modifies this
      ensures Valid() && Abs() == EndWaiter(old(Abs()), id, how, now) && clock <= now
    {
      hide Core, Inv, Leads, PendingBytes, RetainedBytes, Cancel, Ended, Follows, RecordOk;
      ghost var s := Abs();
      EndWaiterInv(s, id, how, now);
      InvParts(s);
      if id !in pending.at {
        return;
      }
      var delivery := pending.at[id].delivery;
      PendingRecord(s, id);
      EndedFollows(operations.at[id], how, now, s);
      ghost var next := Ended(operations.at[id], how, now);
      RetireSums(s, id, next, now);
      RetireKeeps(s, id, next, now);
      var removed := RemovePendingRequest(id);
      operations := operations.Move(id, Ended(operations.at[id], how, now));
      clock := now;
      assert Abs() == Retire(s, id, next, now);
      if !how.Disconnected? {
        NotifyRequestCancelled(id, delivery, now);
      }
    }

    // ---------- Progress and settlement ----------

    /** ownedOperation */
    method OwnedOperation(t: PeerId, id: Id, now: int) returns (owned: bool)
      requires Valid() && clock <= now
      modifies this`operations, this`retained, this`retainedResultBytes, this`clock
      ensures Valid() && Abs() == Prune(old(Abs()), now) && clock == now && owned == Owned(Abs(), t, id)
    {
      hide Core, Inv, Leads, Prune, PendingBytes, RetainedBytes, Fits;
      InvParts(Abs());
      FitsCancellations(Abs());
      PruneInv(Abs(), now);
      ClockIs(Abs(), now);
      PruneOperations(now);
      owned := Owned(State(pending, operations, retained, cancellations, transportOf, nextSerial, 0), t, id);
    }

    method ObserveTransportProgress(t: PeerId, id: Id, phase: Phase, now: int)
      requires Valid() && clock <= now
      modifies this
      ensures Valid() && Abs() == Observe(old(Abs()), t, id, phase, now)
    {
      hide Core, Inv, Leads, Prune, PendingBytes, RetainedBytes, Progressed;
      ObserveInv(Abs(), t, id, phase, now);
      var owned := OwnedOperation(t, id, now);
      if !owned || operations.at[id].standing.Settled? || operations.at[id].stage.ResponseDelivery?
         || (phase.ExecutingPhase? && !operations.at[id].stage.Dispatched?) {
        return;
      }
      ghost var s := Abs();
      var next := Progressed(operations.at[id], phase, now);
      InvParts(s);
      ProgressedStored(operations.at[id], phase, now);
      TouchSums(s, id, next, now);
      clock := now;
      operations := operations.Move(id, next);
      assert Abs() == Touch(s, id, next, now);
    }

    /** recordResponse */
    method RecordResponse(id: Id, r: Response, now: int) returns (d: Disposition)
      requires Valid() && clock <= now
      modifies this
      ensures Valid() && (Abs(), d) == Record(old(Abs()), id, r, now)
    {
      hide Core, Inv, Leads, Prune, PendingBytes, RetainedBytes, Fits, SettledAs;
      ghost var s0 := Abs();
      RecordInv(s0, id, r, now);
      InvParts(s0);
      FitsCancellations(s0);
      PruneInv(s0, now);
      ClockIs(s0, now);
      PruneOperations(now);
      if id !in operations.at {
        return UnknownOperation;
      }
      if operations.at[id].standing.Settled? {
        return AlreadySettled;
      }
      ghost var s := Abs();
      Settlement(id, r, now);
      assert Abs() == Settle(s, id, r, now);
      d := Accepted;
    }

    method Settlement(id: Id, r: Response, now: int)
      requires Valid() && clock == now && id in operations.at && !operations.at[id].standing.Settled?
      modifies this
      ensures Valid() && Abs() == Settle(old(Abs()), id, r, now)
    {
      hide Core, Inv, Leads, Prune, PendingBytes, RetainedBytes, Fits, SettledAs, Follows, RecordOk, Without;
      ghost var s := Abs();
      var next := SettledAs(operations.at[id], r, now);
      SettleInv(s, id, r, now);
      InvParts(s);
      OwnedRecord(s, id);
      SettledFollows(operations.at[id], r, now, s);
      RetireSums(s, id, next, now);
      RetireKeeps(s, id, next, now);
      ghost var settled := Retire(s, id, next, now);
      DropCancellations(settled, {id});
      retainedResultBytes := retainedResultBytes + ResultBytes(next);
      retained := if next.stored.Some? then retained + [id] else retained;
      operations := operations.Move(id, next);
      var removed := RemovePendingRequest(id);
      RequestsValid(s);
      KeptPending(s, id);
      assert Abs() == settled;
      cancellations := cancellations.Delete(id);
      SameSums(settled, Abs());
      PruneOperations(now);
    }

    /** settleTransportResponse */
    method SettleTransportResponse(t: PeerId, id: Id, r: Response, now: int) returns (d: Disposition)
      requires Valid() && clock <= now
      modifies this
      ensures Valid() && (Abs(), d) == SettleTransport(old(Abs()), t, id, r, now)
    {
      hide Inv, Prune, Record, Owned, PendingBytes, RetainedBytes;
      var owned := OwnedOperation(t, id, now);
      if !owned {
        return UnknownOperation;
      }
      d := RecordResponse(id, if r.hasError && r.explicit.Some? then r.(local := false) else r, now);
    }

    // ---------- Sweeps ----------

    method CleanupOldRequests(now: int)
      requires Valid() && clock <= now
      modifies this
      ensures Valid() && Abs() == CleanupOld(old(Abs()), now)
    {
      hide Inv, Core, EndWaiter, Leads, EndAll, TimedOutIds, PendingBytes, RetainedBytes, Prune;
      ghost var s := Abs();
      InvParts(s);
      RequestsValid(s);
      var order := pending.order;
      NothingEnded(s, order, now);
      var i := 0;
      while i < |order|
        invariant 0 <= i <= |order| && Valid() && clock <= now
        invariant Abs() == EndAll(s, TimedOutIds(s, order[..i], now), TimedOut, now)
      {
        var id := order[i];
        TimedOutOneMore(s, order, now, i);
        EndAllElsewhere(s, TimedOutIds(s, order[..i], now), TimedOut, now, id);
        if now - pending.at[id].timestamp >= pending.at[id].timeoutMs {
          EndOneMore(s, TimedOutIds(s, order[..i], now), id, TimedOut, now);
          EndRequestWaiter(id, TimedOut, now);
        }
        i := i + 1;
      }
      AllOf(order);
      InvParts(Abs());
      FitsCancellations(Abs());
      PruneInv(Abs(), now);
      PruneOperations(now);
    }

    /** Ends the waits of the listed requests, in order. */
    method EndRequests(ids: seq<Id>, how: Ending, now: int)
      requires Valid() && clock <= now
      modifies this
      ensures Valid() && Abs() == EndAll(old(Abs()), ids, how, now) && clock <= now
    {
      hide Inv, EndWaiter, EndAll, PendingBytes, RetainedBytes;
      ghost var s := Abs();
      NoneEnded(s, how, now);
      for i := 0 to |ids|
        invariant Valid() && clock <= now && Abs() == EndAll(s, ids[..i], how, now)
      {
        EndOneMore(s, ids[..i], ids[i], how, now);
        assert ids[..i + 1] == ids[..i] + [ids[i]];
        EndRequestWaiter(ids[i], how, now);
      }
      AllOf(ids);
    }

    method ClearAllPendingRequests(now: int)
      requires Valid() && clock <= now
      modifies this
      ensures Valid() && Abs() == ClearAll(old(Abs()), now)
    {
      hide Inv, EndAll, PendingBytes, RetainedBytes, Leads;
      ghost var s := Abs();
      EndRequests(pending.order, Disconnected, now);
      NoCancellations(Abs());
      SameSums(Abs(), Abs().(cancellations := OMap([], map[])));
      cancellations := OMap([], map[]);
    }

    /** The part of unregisterPeerInternal that concerns requests. */
    method UnregisterPeer(p: PeerId, now: int)
      requires Valid() && clock <= now
      modifies this
      ensures Valid() && Abs() == Unregister(old(Abs()), p, now)
    {
      hide Inv, Core, EndAll, PendingBytes, RetainedBytes, Leads, TargetedIds;
      ghost var s := Abs();
      PeersInv(s, transportOf - {p});
      SameSums(s, s.(transportOf := transportOf - {p}));
      transportOf := transportOf - {p};
      InvParts(s);
      RequestsValid(s);
      var order := pending.order;
      var ids := [];
      NoneTargeted(s, p);
      for i := 0 to |order|
        invariant ids == TargetedIds(s, order[..i], p)
        modifies {}
      {
        TargetedOneMore(s, order, p, i);
        if pending.at[order[i]].target == p {
          ids := ids + [order[i]];
        }
      }
      AllOf(order);
      EndRequests(ids, Disconnected, now);
    }

    method RegisterPeer(p: PeerId, t: PeerId)
      requires Valid()
      modifies this`transportOf
      ensures Valid() && Abs() == Register(old(Abs()), p, t)
    {
      hide Inv, PendingBytes, RetainedBytes, Leads;
      ghost var s := Abs();
      PeersInv(s, transportOf[p := t]);
      SameSums(s, s.(transportOf := transportOf[p := t]));
      if p !in transportOf || transportOf[p] == t {
        transportOf := transportOf[p := t];
      }
    }

    method ClaimNextCancellationForTransport(t: PeerId, owner: Owner, now: int) returns (id: Option<Id>)
      requires Valid() && clock <= now
      modifies this
      ensures Valid() && Abs() == ClaimCancellation(old(Abs()), t, owner, now)
      ensures id.Some? ==> id.value in old(cancellations.at) && old(cancellations.at[id.value].transport) == t
    {
      hide Inv, Core, PendingBytes, RetainedBytes, Leads, PruneCancellations, FirstCancellation, TombstonesOk;
      ghost var s0 := Abs();
      InvParts(s0);
      ClaimCancellationInv(s0, t, owner, now);
      TombstonesAre(s0);
      PruneCancellationsKeeps(s0, now);
      PrunedTombstones(s0, now);
      SameSums(s0, PruneCancellations(s0, now));
      PrunePendingCancellations(now);
      ghost var s := Abs();
      TombstonesAre(s);
      TombstonesValid(s);
      var order := cancellations.order;
      var i := 0;
      while i < |order| && (cancellations.at[order[i]].transport != t || cancellations.at[order[i]].owner.Some?)
        invariant 0 <= i <= |order| && FirstCancellation(s, order, t) == FirstCancellation(s, order[i..], t)
        modifies {}
      {
        FirstCancellationStep(s, order[i..], t);
        assert order[i..][1..] == order[i + 1..];
        i := i + 1;
      }
      FirstCancellationStep(s, order[i..], t);
      if i == |order| {
        return None;
      }
      id := Some(order[i]);
      SameSums(s, s.(cancellations := cancellations.Set(order[i], cancellations.at[order[i]].(owner := Some(owner)))));
      cancellations := cancellations.Set(order[i], cancellations.at[order[i]].(owner := Some(owner)));
    }

    /** Claims on cancellations are given back; no claimed request becomes claimable again. */
    method ReleaseDeliveryClaims(owner: Owner)
      requires Valid()
      modifies this`cancellations
      ensures Valid() && Abs() == ReleaseClaims(old(Abs()), owner)
    {
      hide Inv, PendingBytes, RetainedBytes, Leads;
      ghost var s := Abs();
      ReleaseInv(s, owner);
      SameSums(s, ReleaseClaims(s, owner));
      InvTombstones(s);
      var order := cancellations.order;
      for i := 0 to |order|
        invariant cancellations.order == order && Released(s.cancellations.at, cancellations.at, order[..i], owner)
      {
        assert order[..i + 1] == order[..i] + [order[i]] && order[i] !in order[..i];
        if cancellations.at[order[i]].owner == Some(owner) {
          cancellations := OMap(order, cancellations.at[order[i] := cancellations.at[order[i]].(owner := None)]);
        }
      }
      AllOf(order);
      ReleasedAll(s, cancellations.at, owner);
    }
  }
}
