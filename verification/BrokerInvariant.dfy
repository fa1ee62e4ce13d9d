/** What every step of the broker keeps, and how one version of a record follows another. */
module BrokerInvariant {
  import opened Common
  import opened OrderedMaps
  import opened Broker

  function IdleTimes(s: State): map<Id, int> {
    map id | id in s.operations.at && id !in s.pending.at :: s.operations.at[id].updatedAt
  }

  function AdmissionTimes(s: State): map<Id, int> {
    map id | id in s.pending.at :: s.pending.at[id].timestamp
  }

  function TombstoneTimes(s: State): map<Id, int> {
    map id | id in s.cancellations.at :: s.cancellations.at[id].createdAt
  }

  // ---------- The invariant ----------

  ghost predicate Shaped(s: State) {
    s.pending.Valid() && s.operations.Valid() && s.cancellations.Valid() && NoDup(s.retained)
  }

  /** A record no transport was given is queued, unless an answer came from inside the server. */
  predicate RecordOk(o: Operation, s: State) {
    && (o.transport.Some? ==> !o.stage.Queued?)
    && (o.transport.None? && !o.standing.Settled? ==> o.stage.Queued?)
    && (o.standing.Settled? ==> (o.stored.Some? <==> !o.unavailable))
    && (o.stored.Some? ==> o.standing.Settled?)
    && (o.standing.Over? && o.stage.Queued? ==> o.outcome.NotExecuted? && o.execution.NotExecuted?)
    && o.updatedAt <= s.clock && o.serial < s.nextSerial
  }

  predicate RequestOk(r: Request, o: Operation, s: State) {
    && o.standing.Pending? && o.target == r.target && o.transport == r.delivery
    && (r.owner.Some? <==> r.delivery.Some?) && r.timestamp <= s.clock
  }

  /** A request is pending exactly while its record says so. */
  ghost predicate Linked(s: State) {
    && (forall id :: id in s.operations.at ==> RecordOk(s.operations.at[id], s))
    && (forall id :: id in s.pending.at ==>
        id in s.operations.at && RequestOk(s.pending.at[id], s.operations.at[id], s))
    && (forall id :: id in s.operations.at && s.operations.at[id].standing.Pending? ==> id in s.pending.at)
  }

  /** The retained results are exactly those the records store. */
  ghost predicate Retaining(s: State) {
    && (forall id :: id in s.retained ==> id in s.operations.at && s.operations.at[id].stored.Some?)
    && (forall id :: id in s.operations.at && s.operations.at[id].stored.Some? ==> id in s.retained)
  }

  ghost predicate Ordered(s: State) {
    && Ascending(s.operations.order, IdleTimes(s))
    && Ascending(s.pending.order, AdmissionTimes(s))
    && Ascending(s.cancellations.order, TombstoneTimes(s))
    && Within(TombstoneTimes(s), s.clock)
  }

  ghost predicate Bounded(s: State) {
    && |s.pending.order| <= MAX_PENDING_REQUESTS
    && PendingBytes(s) <= MAX_PENDING_REQUEST_BYTES
    && (forall t :: Outstanding(s, t) <= MAX_OUTSTANDING_REQUESTS_PER_TRANSPORT)
  }

  ghost predicate Distinct(s: State) {
    forall a, b :: a in s.operations.at && b in s.operations.at && a != b ==>
        s.operations.at[a].serial != s.operations.at[b].serial
  }

  ghost predicate Records(s: State) {
    Linked(s) && Retaining(s) && Distinct(s)
  }

  ghost predicate Orders(s: State) {
    Shaped(s) && Ordered(s) && Bounded(s)
  }

  /** Holds throughout an operation. */
  ghost predicate Core(s: State) {
    Records(s) && Orders(s)
  }

  /** Holds between operations. */
  ghost predicate Inv(s: State) {
    && Core(s)
    && |s.operations.order| <= MAX_OPERATION_RECORDS && ResultsFit(s)
    && |s.cancellations.order| <= MAX_CANCELLATION_TOMBSTONES
  }

  // ---------- How records evolve ----------

  lemma CoreParts(s: State)
    requires Core(s)
    ensures Linked(s) && Retaining(s) && Distinct(s) && Shaped(s) && Ordered(s) && Bounded(s)
    ensures Records(s) && Orders(s)
  {}

  lemma CoreFrom(s: State)
    requires Records(s) && Orders(s)
    ensures Core(s)
  {}

  lemma OrdersFrom(s: State)
    requires Shaped(s) && Ordered(s) && Bounded(s)
    ensures Orders(s)
  {}

  /** n is the same record as o, no earlier: stages only advance and what is settled stays. */
  predicate Follows(o: Operation, n: Operation) {
    && n.serial == o.serial && n.target == o.target && n.fingerprint == o.fingerprint
    && o.stage.Rank() <= n.stage.Rank() && o.updatedAt <= n.updatedAt
    && (o.transport.Some? ==> n.transport == o.transport)
    && (!o.standing.Pending? ==> !n.standing.Pending? && n.transport == o.transport)
    && (o.standing.Settled? ==>
          && n.standing.Settled? && n.stage == o.stage && n.outcome == o.outcome && n.execution == o.execution
          && (n.stored == o.stored || n.stored.None?))
  }

  /** Every record of the later state is a later version of one of the earlier state's, or new. */
  ghost predicate Leads(s: State, s': State) {
    && s.nextSerial <= s'.nextSerial && s.clock <= s'.clock
    && (forall id :: id in s'.operations.at ==>
          || s.nextSerial <= s'.operations.at[id].serial
          || (id in s.operations.at && Follows(s.operations.at[id], s'.operations.at[id])))
  }

  lemma LeadsOn(a: State, b: State, c: State)
    requires Leads(a, b) && Leads(b, c)
    ensures Leads(a, c)
  {
    forall id | id in c.operations.at
      ensures a.nextSerial <= c.operations.at[id].serial
              || (id in a.operations.at && Follows(a.operations.at[id], c.operations.at[id])) {
    }
  }

  /** The records of s are all still there unchanged, but possibly that of id, which `next` follows. */
  lemma LeadsByOne(s: State, s': State, id: Id)
    requires s.clock <= s'.clock && s.nextSerial <= s'.nextSerial
    requires forall k :: k in s'.operations.at && k != id ==>
        k in s.operations.at && s'.operations.at[k] == s.operations.at[k]
    requires id in s'.operations.at ==>
               || s.nextSerial <= s'.operations.at[id].serial
               || (id in s.operations.at && Follows(s.operations.at[id], s'.operations.at[id]))
    ensures Leads(s, s')
  {
    forall k | k in s'.operations.at && k != id ensures Follows(s.operations.at[k], s'.operations.at[k]) {
    }
    hide Follows;
  }

  // ---------- Sums under one change ----------

  lemma SumsWithout(s: State, id: Id, t: PeerId)
    requires Shaped(s)
    ensures var d := s.pending.Delete(id);
            && Total(d.order, RequestSizes(d.at)) <= PendingBytes(s)
            && (id in s.pending.at ==> Total(d.order, RequestSizes(d.at)) == PendingBytes(s) - s.pending.at[id].bytes)
            && Total(d.order, DeliveredTo(d.at, t)) <= Outstanding(s, t)
  {
    var d := s.pending.Delete(id);
    WithoutMembers(s.pending.order, {id});
    TotalAgrees(d.order, RequestSizes(d.at), RequestSizes(s.pending.at));
    TotalAgrees(d.order, DeliveredTo(d.at, t), DeliveredTo(s.pending.at, t));
    TotalWithoutLess(s.pending.order, {id}, RequestSizes(s.pending.at));
    TotalWithoutLess(s.pending.order, {id}, DeliveredTo(s.pending.at, t));
    if id in s.pending.at {
      TotalWithoutOne(s.pending.order, id, RequestSizes(s.pending.at));
    }
  }

  // ---------- The clock, Peers and cancellations ----------

  /** States that agree on requests and records, the later one with a later clock. */
  predicate SameRequests(s: State, s': State) {
    && s'.pending == s.pending && s'.operations == s.operations && s'.retained == s.retained
    && s'.nextSerial == s.nextSerial && s.clock <= s'.clock
  }

  lemma AsideRecords(s: State, s': State)
    requires Records(s) && SameRequests(s, s')
    ensures Records(s') && Leads(s, s')
  {
    forall id | id in s'.operations.at ensures RecordOk(s'.operations.at[id], s') {
      assert RecordOk(s.operations.at[id], s);
    }
    forall id | id in s'.pending.at ensures id in s'.operations.at
        && RequestOk(s'.pending.at[id], s'.operations.at[id], s') {
      assert RequestOk(s.pending.at[id], s.operations.at[id], s);
    }
  }

  lemma AsideBounded(s: State, s': State)
    requires Bounded(s) && s'.pending == s.pending
    ensures Bounded(s')
  {
    hide Total;
    assert PendingBytes(s') == PendingBytes(s);
    forall t ensures Outstanding(s', t) <= MAX_OUTSTANDING_REQUESTS_PER_TRANSPORT {
      assert Outstanding(s', t) == Outstanding(s, t);
    }
  }

  lemma AsideOrders(s: State, s': State)
    requires Orders(s) && SameRequests(s, s') && s'.cancellations.Valid()
    requires Ascending(s'.cancellations.order, TombstoneTimes(s')) && Within(TombstoneTimes(s'), s'.clock)
    ensures Orders(s')
  {
    hide Ascending, Within, NoDup;
    AsideBounded(s, s');
    hide Bounded;
    assert IdleTimes(s') == IdleTimes(s) && AdmissionTimes(s') == AdmissionTimes(s);
  }

  // ---------- Forgetting records ----------

  lemma ForgetLinked(s: State, gone: set<Id>)
    requires Linked(s) && (forall id :: id in gone ==> id !in s.pending.at)
    ensures Linked(Forget(s, gone))
  {
    var s' := Forget(s, gone);
    hide Without;
    forall id | id in s'.operations.at ensures RecordOk(s'.operations.at[id], s') {
      assert RecordOk(s.operations.at[id], s);
    }
    forall id | id in s'.pending.at ensures id in s'.operations.at
        && RequestOk(s'.pending.at[id], s'.operations.at[id], s') {
      assert RequestOk(s.pending.at[id], s.operations.at[id], s);
    }
  }

  lemma ForgetRecords(s: State, gone: set<Id>)
    requires Records(s) && (forall id :: id in gone ==> id !in s.pending.at)
    ensures Records(Forget(s, gone)) && Leads(s, Forget(s, gone))
  {
    ForgetLinked(s, gone);
    WithoutMembers(s.retained, gone);
    hide Without, Linked;
  }

  lemma ForgetOrders(s: State, gone: set<Id>)
    requires Orders(s)
    ensures Orders(Forget(s, gone))
    ensures |Forget(s, gone).retained| <= |s.retained|
  {
    var s' := Forget(s, gone);
    DeleteAllValid(s.operations, gone);
    WithoutMembers(s.retained, gone);
    WithoutNoDup(s.retained, gone);
    AscendingWithout(s.operations.order, gone, IdleTimes(s));
    AsideBounded(s, s');
    hide Ascending, Within, NoDup, Bounded, Without;
    assert AdmissionTimes(s') == AdmissionTimes(s) && TombstoneTimes(s') == TombstoneTimes(s);
    AscendingFewer(s'.operations.order, IdleTimes(s), IdleTimes(s'));
  }

  lemma ForgetKeeps(s: State, gone: set<Id>)
    requires Core(s) && (forall id :: id in gone ==> id !in s.pending.at)
    ensures Core(Forget(s, gone)) && Leads(s, Forget(s, gone))
  {
    hide Records, Orders, Leads, Forget;
    ForgetRecords(s, gone);
    ForgetOrders(s, gone);
  }

  lemma {:induction false} TrimKeeps(s: State)
    requires Core(s)
    ensures Core(Trim(s)) && Leads(s, Trim(s))
    ensures |Trim(s).operations.order| <= MAX_OPERATION_RECORDS
    ensures SameRest(s, Trim(s))
    decreases |s.operations.order|
  {
    var f := FirstIdle(s.operations.order, s.pending.at);
    FirstIdleIs(s.operations.order, s.pending.at);
    hide Core, FirstIdle;
    if f.None? {
      RecordsFit(s);
    }
    if |s.operations.order| > MAX_OPERATION_RECORDS {
      var s1 := Forget(s, {f.value});
      ForgetShrinks(s, f.value);
      assert SameRest(s, s1) && Trim(s) == Trim(s1);
      hide *;
      ForgetKeeps(s, {f.value});
      TrimKeeps(s1);
      LeadsOn(s, s1, Trim(s1));
      SameRestOn(s, s1, Trim(s1));
    } else {
      assert Trim(s) == s;
      hide *;
      LeadsSelf(s);
    }
  }

  lemma SameRestOn(a: State, b: State, c: State)
    requires SameRest(a, b) && SameRest(b, c)
    ensures SameRest(a, c)
  {}

  lemma LeadsSelf(s: State)
    ensures Leads(s, s)
  {}

  lemma RecordsFit(s: State)
    requires Core(s) && (forall id :: id in s.operations.order ==> id in s.pending.at)
    ensures |s.operations.order| <= MAX_PENDING_REQUESTS
  {
    hide Ordered, Records;
    MembersFit(s.operations.order, s.pending.order);
  }

  predicate SameRest(s: State, s': State) {
    && s'.pending == s.pending && s'.cancellations == s.cancellations && s'.transportOf == s.transportOf
    && s'.clock == s.clock && s'.nextSerial == s.nextSerial
  }

  /** A sequence without repeats is no longer than one that has all its members. */
  lemma MembersFit(a: seq<Id>, b: seq<Id>)
    requires NoDup(a) && (forall k :: k in a ==> k in b)
    ensures |a| <= |b|
  {
    NoDupCount(a);
    MembersCount(b);
    var x := set k | k in a;
    var y := set k | k in b;
    assert x <= y;
    SubsetCount(x, y);
  }

  lemma SubsetCount<T>(x: set<T>, y: set<T>)
    requires x <= y
    ensures |x| <= |y|
  {
    assert y == x + (y - x);
  }

  lemma {:induction false} NoDupCount(a: seq<Id>)
    requires NoDup(a)
    ensures |set k | k in a| == |a|
  {
    if a != [] {
      var n := |a| - 1;
      NoDupCount(a[..n]);
      assert a == a[..n] + [a[n]];
      assert (set k | k in a) == (set k | k in a[..n]) + {a[n]};
    }
  }

  lemma {:induction false} MembersCount(b: seq<Id>)
    ensures |set k | k in b| <= |b|
  {
    if b != [] {
      var n := |b| - 1;
      MembersCount(b[..n]);
      assert b == b[..n] + [b[n]];
      assert (set k | k in b) == (set k | k in b[..n]) + {b[n]};
    }
  }

  // ---------- One record replaced ----------

  /** s' has `next` for the record of id and differs at no other identity. */
  ghost predicate OnlyAt(s: State, s': State, id: Id, next: Operation) {
    && id in s.operations.at && s'.operations.at == s.operations.at[id := next]
    && s.clock <= s'.clock && s'.nextSerial == s.nextSerial
    && (forall k :: k != id ==> (k in s'.pending.at <==> k in s.pending.at))
    && (forall k :: k != id && k in s'.pending.at ==> s'.pending.at[k] == s.pending.at[k])
    && (forall k :: k != id ==> (k in s'.retained <==> k in s.retained))
  }

  /** `next` is a sound later version, in step with the request and the retained result. */
  predicate Fitting(s: State, s': State, id: Id, next: Operation) {
    && id in s.operations.at && Follows(s.operations.at[id], next) && RecordOk(next, s')
    && (id in s'.pending.at <==> next.standing.Pending?)
    && (id in s'.pending.at ==> RequestOk(s'.pending.at[id], next, s'))
    && (id in s'.retained <==> next.stored.Some?)
  }

  lemma ReplacedLinked(s: State, s': State, id: Id, next: Operation)
    requires Linked(s) && OnlyAt(s, s', id, next) && Fitting(s, s', id, next)
    ensures Linked(s')
  {
    hide Follows;
    forall k | k in s'.operations.at ensures RecordOk(s'.operations.at[k], s') {
      if k != id {
        assert RecordOk(s.operations.at[k], s);
      }
    }
    forall k | k in s'.pending.at ensures k in s'.operations.at
        && RequestOk(s'.pending.at[k], s'.operations.at[k], s') {
      if k != id {
        assert RequestOk(s.pending.at[k], s.operations.at[k], s);
      }
    }
    hide RecordOk, RequestOk;
  }

  lemma ReplacedRecords(s: State, s': State, id: Id, next: Operation)
    requires Records(s) && OnlyAt(s, s', id, next) && Fitting(s, s', id, next)
    ensures Records(s') && Leads(s, s')
  {
    hide RecordOk, RequestOk, Linked, Leads;
    ReplacedLinked(s, s', id, next);
    LeadsByOne(s, s', id);
    hide Follows;
  }

  /** The usual way to the invariant of a state that replaced one record. */
  lemma ReplacedKeeps(s: State, s': State, id: Id, next: Operation)
    requires Core(s) && OnlyAt(s, s', id, next) && Fitting(s, s', id, next) && Orders(s')
    ensures Core(s') && Leads(s, s')
  {
    hide Records, Orders, Leads, OnlyAt, Fitting;
    ReplacedRecords(s, s', id, next);
  }

  // ---------- Dropping results ----------

  lemma DropFirstShape(s: State)
    requires Core(s) && s.retained != []
    ensures var id := s.retained[0];
            && id in s.operations.at && s.operations.at[id].standing.Settled? && id !in s.pending.at
            && DropFirstResult(s) == s.(retained := s.retained[1..],
                 operations := OMap(s.operations.order, s.operations.at[id := Unstored(s.operations.at[id])]))
            && DropFirstResult(s).operations.at == s.operations.at[id := Unstored(s.operations.at[id])]
            && (forall k :: k in DropFirstResult(s).retained <==> k in s.retained && k != id)
            && SameRest(s, DropFirstResult(s)) && DropFirstResult(s).operations.order == s.operations.order
            && NoDup(s.retained[1..]) && RecordOk(s.operations.at[id], s)
            && (forall k :: k in s.retained[1..] <==> k in s.retained && k != id)
  {
    hide Ordered, Bounded, Distinct, Unstored;
    var id := s.retained[0];
    assert id in s.operations.at && RecordOk(s.operations.at[id], s);
    assert id !in s.pending.at by {
      assert forall k :: k in s.pending.at ==> RequestOk(s.pending.at[k], s.operations.at[k], s);
    }
    assert s.retained == [id] + s.retained[1..];
  }

  lemma SameTimes(s: State, s': State)
    requires s'.pending == s.pending && s'.cancellations == s.cancellations
    requires forall k :: k in s'.operations.at <==> k in s.operations.at
    requires forall k :: k in s.operations.at ==> s'.operations.at[k].updatedAt == s.operations.at[k].updatedAt
    ensures IdleTimes(s') == IdleTimes(s) && AdmissionTimes(s') == AdmissionTimes(s)
        && TombstoneTimes(s') == TombstoneTimes(s)
  {}

  lemma DropFirstOrders(s: State)
    requires Core(s) && s.retained != []
    ensures Orders(DropFirstResult(s))
  {
    var s' := DropFirstResult(s);
    DropFirstShape(s);
    assert forall o :: Unstored(o).updatedAt == o.updatedAt;
    hide Core, NoDup, RecordOk, DropFirstResult, Unstored;
    SameTimes(s, s');
    CoreParts(s);
    AsideBounded(s, s');
    hide Orders, Records, Bounded, Ascending, Within, Linked, Retaining, Distinct, IdleTimes, AdmissionTimes,
        TombstoneTimes;
    assert Ordered(s') && Shaped(s');
    hide *;
    OrdersFrom(s');
  }

  lemma UnstoredFollows(o: Operation, s: State)
    requires RecordOk(o, s) && o.standing.Settled?
    ensures Follows(o, Unstored(o)) && Unstored(o).standing.Settled? && Unstored(o).stored.None?
    ensures forall s': State :: s'.clock == s.clock && s'.nextSerial == s.nextSerial ==> RecordOk(Unstored(o), s')
  {}

  lemma UnstoredFits(s: State, s': State, id: Id)
    requires id in s.operations.at && s.operations.at[id].standing.Settled? && id !in s.pending.at
        && RecordOk(s.operations.at[id], s)
    requires SameRest(s, s') && s'.operations.at == s.operations.at[id := Unstored(s.operations.at[id])]
    requires forall k :: k in s'.retained <==> k in s.retained && k != id
    ensures OnlyAt(s, s', id, Unstored(s.operations.at[id])) && Fitting(s, s', id, Unstored(s.operations.at[id]))
  {
    UnstoredFollows(s.operations.at[id], s);
    hide Unstored, Follows, RecordOk;
  }

  lemma DropFirstKeeps(s: State)
    requires Core(s) && s.retained != []
    ensures Core(DropFirstResult(s)) && Leads(s, DropFirstResult(s))
    ensures SameRest(s, DropFirstResult(s)) && DropFirstResult(s).operations.order == s.operations.order
  {
    hide *;
    DropFirstShape(s);
    DropFirstOrders(s);
    UnstoredFits(s, DropFirstResult(s), s.retained[0]);
    ReplacedKeeps(s, DropFirstResult(s), s.retained[0], Unstored(s.operations.at[s.retained[0]]));
  }

  lemma {:induction false} DropResultsKeeps(s: State)
    requires Core(s)
    ensures Core(DropResults(s)) && Leads(s, DropResults(s)) && ResultsFit(DropResults(s))
    ensures SameRest(s, DropResults(s)) && DropResults(s).operations.order == s.operations.order
    decreases |s.retained|
  {
    if s.retained == [] || ResultsFit(s) {
      hide Core;
      LeadsSelf(s);
    } else {
      var s1 := DropFirstResult(s);
      assert |s1.retained| == |s.retained| - 1 && DropResults(s) == DropResults(s1);
      hide *;
      DropFirstKeeps(s);
      DropResultsKeeps(s1);
      LeadsOn(s, s1, DropResults(s1));
      SameRestOn(s, s1, DropResults(s1));
    }
  }

  // ---------- Pruning ----------

  lemma PruneKeeps(s: State, now: int)
    requires Core(s) && s.clock <= now
    ensures Core(Prune(s, now)) && Leads(s, Prune(s, now))
    ensures |Prune(s, now).operations.order| <= MAX_OPERATION_RECORDS && ResultsFit(Prune(s, now))
    ensures SameRest(s.(clock := now), Prune(s, now))
  {
    var s0 := s.(clock := now);
    assert TombstoneTimes(s0) == TombstoneTimes(s);
    AsideRecords(s, s0);
    AsideOrders(s, s0);
    var s1 := Forget(s0, Expired(s, now));
    assert Expired(s, now) == Expired(s0, now) && SameRest(s0, s1);
    var s2 := Trim(s1);
    assert Prune(s, now) == DropResults(s2);
    assert forall id :: id in Expired(s0, now) ==> id !in s0.pending.at;
    assert Core(s0);
    hide *;
    ForgetKeeps(s0, Expired(s, now));
    TrimKeeps(s1);
    DropResultsKeeps(s2);
    LeadsOn(s, s0, s1);
    LeadsOn(s, s1, s2);
    LeadsOn(s, s2, DropResults(s2));
    SameRestOn(s0, s1, s2);
    SameRestOn(s0, s2, DropResults(s2));
  }

  // ---------- Admission ----------

  lemma AddRecords(s: State, id: Id, target: PeerId, fingerprint: Fingerprint, bytes: nat, timeoutMs: int)
    requires Records(s) && id !in s.operations.at
    ensures var s' := AddRequest(s, id, target, fingerprint, bytes, timeoutMs, s.clock);
            Records(s') && Leads(s, s')
  {
    hide Leads;
    var s' := AddRequest(s, id, target, fingerprint, bytes, timeoutMs, s.clock);
    LeadsByOne(s, s', id);
    forall k | k in s'.operations.at ensures RecordOk(s'.operations.at[k], s') {
      if k != id {
        assert RecordOk(s.operations.at[k], s);
      }
    }
    forall k | k in s'.pending.at ensures k in s'.operations.at
        && RequestOk(s'.pending.at[k], s'.operations.at[k], s') {
      if k != id {
        assert RequestOk(s.pending.at[k], s.operations.at[k], s);
      }
    }
  }

  lemma AddTotal(order: seq<Id>, id: Id, w: map<Id, nat>, w': map<Id, nat>)
    requires id !in order && forall k :: k in order ==> WeightOf(w, k) == WeightOf(w', k)
    ensures Total(order + [id], w') == Total(order, w) + WeightOf(w', id)
  {
    TotalAppend(order, id, w');
    TotalAgrees(order, w, w');
  }

  lemma AddBounded(s: State, id: Id, r: Request)
    requires s.pending.Valid() && Bounded(s) && id !in s.pending.at && r.delivery.None?
    requires |s.pending.order| < MAX_PENDING_REQUESTS && PendingBytes(s) + r.bytes <= MAX_PENDING_REQUEST_BYTES
    ensures Bounded(s.(pending := s.pending.Set(id, r)))
  {
    var s' := s.(pending := s.pending.Set(id, r));
    hide Total, NoDup;
    AddTotal(s.pending.order, id, RequestSizes(s.pending.at), RequestSizes(s'.pending.at));
    forall t ensures Outstanding(s', t) <= MAX_OUTSTANDING_REQUESTS_PER_TRANSPORT {
      assert Outstanding(s, t) <= MAX_OUTSTANDING_REQUESTS_PER_TRANSPORT;
      AddTotal(s.pending.order, id, DeliveredTo(s.pending.at, t), DeliveredTo(s'.pending.at, t));
    }
  }

  lemma AdmittedBefore(s: State)
    requires Records(s)
    ensures Within(AdmissionTimes(s), s.clock)
  {
    forall k | k in s.pending.at ensures AdmissionTimes(s)[k] <= s.clock {
      assert RequestOk(s.pending.at[k], s.operations.at[k], s);
    }
  }

  lemma AddTimes(s: State, id: Id, target: PeerId, fingerprint: Fingerprint, bytes: nat, timeoutMs: int)
    requires Within(AdmissionTimes(s), s.clock) && id !in s.operations.at && id !in s.pending.at
    ensures var s' := AddRequest(s, id, target, fingerprint, bytes, timeoutMs, s.clock);
            && IdleTimes(s') == IdleTimes(s) && TombstoneTimes(s') == TombstoneTimes(s)
            && AdmissionTimes(s') == AdmissionTimes(s)[id := s.clock] && Within(AdmissionTimes(s'), s.clock)
  {
    var s' := AddRequest(s, id, target, fingerprint, bytes, timeoutMs, s.clock);
    assert IdleTimes(s') == IdleTimes(s);
    assert AdmissionTimes(s') == AdmissionTimes(s)[id := s.clock];
  }

  lemma AddOrdered(s: State, id: Id, target: PeerId, fingerprint: Fingerprint, bytes: nat, timeoutMs: int)
    requires Shaped(s) && Ordered(s) && Within(AdmissionTimes(s), s.clock) && id !in s.operations.at
        && id !in s.pending.at
    ensures var s' := AddRequest(s, id, target, fingerprint, bytes, timeoutMs, s.clock);
            Shaped(s') && Ordered(s')
  {
    var s' := AddRequest(s, id, target, fingerprint, bytes, timeoutMs, s.clock);
    hide NoDup, Ascending;
    SetValid(s.operations, id, s'.operations.at[id]);
    SetValid(s.pending, id, s'.pending.at[id]);
    assert Shaped(s');
    AddTimes(s, id, target, fingerprint, bytes, timeoutMs);
    hide Shaped;
    AscendingFewer(s.pending.order, AdmissionTimes(s), AdmissionTimes(s'));
    AscendingAppend(s.pending.order, id, AdmissionTimes(s'));
    AscendingAppend(s.operations.order, id, IdleTimes(s));
  }

  lemma AddKeeps(s: State, id: Id, target: PeerId, fingerprint: Fingerprint, bytes: nat, timeoutMs: int)
    requires Core(s) && id !in s.operations.at
    requires |s.pending.order| < MAX_PENDING_REQUESTS && PendingBytes(s) + bytes <= MAX_PENDING_REQUEST_BYTES
    ensures var s' := AddRequest(s, id, target, fingerprint, bytes, timeoutMs, s.clock);
            Core(s') && Leads(s, s')
  {
    var s' := AddRequest(s, id, target, fingerprint, bytes, timeoutMs, s.clock);
    assert id !in s.pending.at && s.pending.Valid();
    hide Core, Records, Orders, Leads, Linked, Ordered, Shaped, Bounded, Retaining, Distinct, Within, NoDup, Total;
    CoreParts(s);
    AdmittedBefore(s);
    AddBounded(s, id, s'.pending.at[id]);
    AsideBounded(s.(pending := s'.pending), s');
    AddOrdered(s, id, target, fingerprint, bytes, timeoutMs);
    AddRecords(s, id, target, fingerprint, bytes, timeoutMs);
    hide AddRequest;
    OrdersFrom(s');
    CoreFrom(s');
  }

  // ---------- Delivery ----------

  lemma DispatchBounded(s: State, id: Id, t: PeerId, owner: Owner)
    requires s.pending.Valid() && Bounded(s) && id in s.pending.at && s.pending.at[id].delivery.None?
    requires Outstanding(s, t) < MAX_OUTSTANDING_REQUESTS_PER_TRANSPORT
    ensures Bounded(s.(pending := s.pending.Set(id, s.pending.at[id].(owner := Some(owner), delivery := Some(t)))))
  {
    var s' := s.(pending := s.pending.Set(id, s.pending.at[id].(owner := Some(owner), delivery := Some(t))));
    hide Total;
    forall u ensures Outstanding(s', u) <= MAX_OUTSTANDING_REQUESTS_PER_TRANSPORT {
      assert Outstanding(s, u) <= MAX_OUTSTANDING_REQUESTS_PER_TRANSPORT;
      hide Bounded;
      TotalChanges(s.pending.order, id, DeliveredTo(s.pending.at, u), DeliveredTo(s'.pending.at, u));
      assert WeightOf(DeliveredTo(s.pending.at, u), id) == 0;
    }
    TotalAgrees(s.pending.order, RequestSizes(s.pending.at), RequestSizes(s'.pending.at));
  }

  lemma DispatchTimes(s: State, id: Id, t: PeerId, owner: Owner, now: int)
    requires id in s.pending.at && id in s.operations.at
    ensures var s' := Dispatch(s, id, t, owner, now);
            IdleTimes(s') == IdleTimes(s) && AdmissionTimes(s') == AdmissionTimes(s)
                && TombstoneTimes(s') == TombstoneTimes(s)
  {}

  lemma DispatchOrders(s: State, id: Id, t: PeerId, owner: Owner, now: int)
    requires Shaped(s) && Ordered(s) && Bounded(s) && s.clock <= now
    requires id in s.pending.at && s.pending.at[id].delivery.None? && id in s.operations.at
    requires Outstanding(s, t) < MAX_OUTSTANDING_REQUESTS_PER_TRANSPORT
    ensures Orders(Dispatch(s, id, t, owner, now))
  {
    var s' := Dispatch(s, id, t, owner, now);
    hide Bounded, NoDup, Ascending, Total;
    DispatchTimes(s, id, t, owner, now);
    assert Shaped(s') && Ordered(s');
    hide Shaped, Ordered;
    DispatchBounded(s, id, t, owner);
    AsideBounded(s.(pending := s'.pending), s');
    hide Dispatch;
    OrdersFrom(s');
  }

  lemma DispatchFits(s: State, id: Id, t: PeerId, owner: Owner, now: int)
    requires Linked(s) && Retaining(s) && s.clock <= now && Eligible(s, id, t)
    ensures id in s.operations.at && s.pending.at[id].delivery.None? && s.operations.at[id].stage.Queued?
    ensures var s' := Dispatch(s, id, t, owner, now);
            id in s'.operations.at && OnlyAt(s, s', id, s'.operations.at[id])
                && Fitting(s, s', id, s'.operations.at[id])
  {
    assert RequestOk(s.pending.at[id], s.operations.at[id], s) && RecordOk(s.operations.at[id], s);
    assert id in s.retained <==> s.operations.at[id].stored.Some?;
    hide Linked, Retaining;
  }

  lemma DispatchKeeps(s: State, id: Id, t: PeerId, owner: Owner, now: int)
    requires Core(s) && s.clock <= now && Eligible(s, id, t)
    requires Outstanding(s, t) < MAX_OUTSTANDING_REQUESTS_PER_TRANSPORT
    ensures Core(Dispatch(s, id, t, owner, now)) && Leads(s, Dispatch(s, id, t, owner, now))
  {
    var s' := Dispatch(s, id, t, owner, now);
    hide *;
    CoreParts(s);
    DispatchFits(s, id, t, owner, now);
    DispatchOrders(s, id, t, owner, now);
    ReplacedKeeps(s, s', id, s'.operations.at[id]);
  }

  // ---------- Moving a record to the end ----------

  lemma MovedOrder(s: State, s': State, id: Id, next: Operation)
    requires Shaped(s) && Ordered(s) && id in s.operations.at && s'.operations == s.operations.Move(id, next)
    requires forall k :: k != id ==> (k in s'.pending.at <==> k in s.pending.at)
    requires (forall k :: k in IdleTimes(s) ==> IdleTimes(s)[k] <= next.updatedAt)
    ensures s'.operations.Valid() && s'.operations.at == s.operations.at[id := next]
    ensures Ascending(s'.operations.order, IdleTimes(s')) && |s'.operations.order| == |s.operations.order|
  {
    MoveShape(s.operations, id, next);
    var rest := Without(s.operations.order, {id});
    AscendingWithout(s.operations.order, {id}, IdleTimes(s));
    WithoutMembers(s.operations.order, {id});
    hide Without;
    AscendingFewer(rest, IdleTimes(s), IdleTimes(s'));
    AscendingAppend(rest, id, IdleTimes(s'));
  }

  lemma DeletedPending(s: State, id: Id)
    requires Shaped(s) && Bounded(s) && Ascending(s.pending.order, AdmissionTimes(s))
    ensures var s' := s.(pending := s.pending.Delete(id));
            s'.pending.Valid() && Bounded(s') && Ascending(s'.pending.order, AdmissionTimes(s'))
  {
    var s' := s.(pending := s.pending.Delete(id));
    DeleteAllValid(s.pending, {id});
    WithoutMembers(s.pending.order, {id});
    AscendingWithout(s.pending.order, {id}, AdmissionTimes(s));
    AscendingFewer(s'.pending.order, AdmissionTimes(s), AdmissionTimes(s'));
    forall t ensures Outstanding(s', t) <= MAX_OUTSTANDING_REQUESTS_PER_TRANSPORT {
      SumsWithout(s, id, t);
    }
    SumsWithout(s, id, PeerId(""));
  }

  lemma IdleWithin(s: State)
    requires Records(s)
    ensures Within(IdleTimes(s), s.clock)
  {
    forall k | k in IdleTimes(s) ensures IdleTimes(s)[k] <= s.clock {
      assert RecordOk(s.operations.at[k], s);
    }
  }

  lemma RetireShaped(s: State, id: Id, next: Operation, now: int)
    requires Shaped(s) && id in s.operations.at && id !in s.retained
    ensures Shaped(Retire(s, id, next, now)) && |Retire(s, id, next, now).operations.order| == |s.operations.order|
    ensures Retire(s, id, next, now).operations.at == s.operations.at[id := next]
  {
    MoveShape(s.operations, id, next);
    DeleteAllValid(s.pending, {id});
  }

  lemma RetireOrdered(s: State, id: Id, next: Operation, now: int)
    requires Shaped(s) && Ordered(s) && Bounded(s) && Within(IdleTimes(s), s.clock) && s.clock <= now
    requires id in s.operations.at && next.updatedAt == now
    ensures Ordered(Retire(s, id, next, now)) && Bounded(Retire(s, id, next, now))
  {
    var s', sp := Retire(s, id, next, now), s.(pending := s.pending.Delete(id));
    assert TombstoneTimes(s') == TombstoneTimes(s) && AdmissionTimes(s') == AdmissionTimes(sp);
    hide Bounded, Without, Ascending, Shaped;
    MovedOrder(s, s', id, next);
    DeletedPending(s, id);
    AsideBounded(sp, s');
  }

  lemma RetireOrders(s: State, id: Id, next: Operation, now: int)
    requires Shaped(s) && Ordered(s) && Bounded(s) && Within(IdleTimes(s), s.clock) && s.clock <= now
    requires id in s.operations.at && next.updatedAt == now && id !in s.retained
    ensures Orders(Retire(s, id, next, now)) && |Retire(s, id, next, now).operations.order| == |s.operations.order|
    ensures Retire(s, id, next, now).operations.at == s.operations.at[id := next]
  {
    hide *;
    RetireShaped(s, id, next, now);
    RetireOrdered(s, id, next, now);
    OrdersFrom(Retire(s, id, next, now));
  }

  lemma RetireFits(s: State, id: Id, next: Operation, now: int)
    requires id in s.operations.at && s.clock <= now && id !in s.retained && !next.standing.Pending?
    requires Follows(s.operations.at[id], next) && RecordOk(next, s.(clock := now))
    requires Retire(s, id, next, now).operations.at == s.operations.at[id := next]
    ensures Fitting(s, Retire(s, id, next, now), id, next) && OnlyAt(s, Retire(s, id, next, now), id, next)
  {
    hide Follows, Without;
  }

  lemma RetireKeeps(s: State, id: Id, next: Operation, now: int)
    requires Core(s) && s.clock <= now && id in s.operations.at && next.updatedAt == now
    requires Follows(s.operations.at[id], next) && !next.standing.Pending?
    requires s.operations.at[id].stored.None? && RecordOk(next, s.(clock := now))
    ensures Core(Retire(s, id, next, now)) && Leads(s, Retire(s, id, next, now))
    ensures |Retire(s, id, next, now).operations.order| == |s.operations.order|
    ensures id in Retire(s, id, next, now).operations.at
  {
    assert id !in s.retained by { CoreParts(s); }
    hide *;
    CoreParts(s);
    IdleWithin(s);
    RetireOrders(s, id, next, now);
    RetireFits(s, id, next, now);
    ReplacedKeeps(s, Retire(s, id, next, now), id, next);
  }

  lemma TouchOrders(s: State, id: Id, next: Operation, now: int)
    requires Shaped(s) && Ordered(s) && Bounded(s) && Within(IdleTimes(s), s.clock) && s.clock <= now
    requires id in s.operations.at && next.updatedAt == now
    ensures Orders(Touch(s, id, next, now)) && |Touch(s, id, next, now).operations.order| == |s.operations.order|
    ensures Touch(s, id, next, now).operations.at == s.operations.at[id := next]
  {
    var s' := Touch(s, id, next, now);
    assert TombstoneTimes(s') == TombstoneTimes(s) && Within(TombstoneTimes(s'), s'.clock);
    hide Bounded, Without, Ascending, NoDup;
    MovedOrder(s, s', id, next);
    AsideBounded(s, s');
    assert AdmissionTimes(s') == AdmissionTimes(s);
    hide Within;
    assert Shaped(s') && Ordered(s');
    hide Shaped, Ordered, Touch;
    OrdersFrom(s');
  }

  lemma TouchFits(s: State, id: Id, next: Operation, now: int)
    requires Linked(s) && Retaining(s) && s.clock <= now && id in s.operations.at
    requires Follows(s.operations.at[id], next) && RecordOk(next, s.(clock := now))
    requires next.standing == s.operations.at[id].standing && next.stored == s.operations.at[id].stored
    requires next.transport == s.operations.at[id].transport
    requires Touch(s, id, next, now).operations.at == s.operations.at[id := next]
    ensures Fitting(s, Touch(s, id, next, now), id, next) && OnlyAt(s, Touch(s, id, next, now), id, next)
  {
    assert id in s.pending.at ==> RequestOk(s.pending.at[id], s.operations.at[id], s);
    assert id in s.retained <==> next.stored.Some?;
    hide Without;
  }

  lemma TouchKeeps(s: State, id: Id, next: Operation, now: int)
    requires Core(s) && s.clock <= now && id in s.operations.at && next.updatedAt == now
    requires Follows(s.operations.at[id], next) && RecordOk(next, s.(clock := now))
    requires next.standing == s.operations.at[id].standing && next.stored == s.operations.at[id].stored
    requires next.transport == s.operations.at[id].transport
    ensures Core(Touch(s, id, next, now)) && Leads(s, Touch(s, id, next, now))
    ensures |Touch(s, id, next, now).operations.order| == |s.operations.order|
  {
    hide *;
    CoreParts(s);
    IdleWithin(s);
    TouchOrders(s, id, next, now);
    TouchFits(s, id, next, now);
    ReplacedKeeps(s, Touch(s, id, next, now), id, next);
  }
}
