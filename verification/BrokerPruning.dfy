/** Which request a claim takes, and which records and results pruning drops. */
module BrokerPruning {
  import opened Common
  import opened OrderedMaps
  import opened Broker
  import opened BrokerInvariant
  import opened BrokerSteps

  // ---------- Claims ----------

  /** The first member of the order that the transport may take. */
  predicate FirstEligible(s: State, order: seq<Id>, t: PeerId, p: nat) {
    && p < |order| && Eligible(s, order[p], t)
    && forall q :: 0 <= q < p ==> !Eligible(s, order[q], t)
  }

  lemma {:induction false} OldestIsFirst(s: State, order: seq<Id>, t: PeerId)
    requires Ascending(order, AdmissionTimes(s))
    ensures Oldest(s, order, t).None? ==> forall id :: id in order ==> !Eligible(s, id, t)
    ensures Oldest(s, order, t).Some? ==>
        exists p: nat :: FirstEligible(s, order, t, p) && order[p] == Oldest(s, order, t).value
  {
    if order != [] {
      var n := |order| - 1;
      var front, id := order[..n], order[n];
      assert order == front + [id];
      AscendingFront(order, AdmissionTimes(s));
      OldestIsFirst(s, front, t);
      var best := Oldest(s, front, t);
      if best.Some? {
        var p: nat :| FirstEligible(s, front, t, p) && front[p] == best.value;
        assert order[p] == best.value && order[p] in AdmissionTimes(s);
        assert Eligible(s, id, t) ==> AdmissionTimes(s)[order[p]] <= AdmissionTimes(s)[order[n]];
        assert Oldest(s, order, t) == best;
        hide Ascending, Oldest, Eligible;
        assert FirstEligible(s, order, t, p);
      } else {
        assert Oldest(s, order, t) == if Eligible(s, id, t) then Some(id) else None;
        hide Ascending, Oldest, Eligible;
        if Eligible(s, id, t) {
          assert forall q :: 0 <= q < n ==> order[q] in front;
          assert FirstEligible(s, order, t, n);
        }
      }
    }
  }

  lemma AscendingFront(order: seq<Id>, times: map<Id, int>)
    requires order != [] && Ascending(order, times)
    ensures Ascending(order[..|order| - 1], times)
  {}

  lemma ClaimFacts(s: State, t: PeerId)
    requires Inv(s)
    ensures s.pending.Valid() && Ascending(s.pending.order, AdmissionTimes(s))
    ensures Outstanding(s, t) <= MAX_OUTSTANDING_REQUESTS_PER_TRANSPORT
  {
    InvParts(s);
    CoreParts(s);
    hide Inv, Core, Records, Orders, Linked, Retaining, Distinct, Total;
  }

  lemma ChosenIsEarliest(s: State, t: PeerId, p: nat, id: Id)
    requires s.pending.Valid() && Ascending(s.pending.order, AdmissionTimes(s))
    requires FirstEligible(s, s.pending.order, t, p) && Eligible(s, id, t)
    ensures s.pending.at[s.pending.order[p]].timestamp <= s.pending.at[id].timestamp
  {
    var q :| 0 <= q < |s.pending.order| && s.pending.order[q] == id;
    assert AdmissionTimes(s)[s.pending.order[p]] <= AdmissionTimes(s)[s.pending.order[q]];
  }

  /** A claim takes the earliest-admitted request the transport may have, unless it already has four. */
  lemma {:induction false} ClaimTakesEarliest(s: State, t: PeerId)
    requires Inv(s)
    ensures Choice(s, t).None? <==>
              Outstanding(s, t) == 4
                  || (forall id :: id in s.pending.at ==> !Eligible(s, id, t))
    ensures Choice(s, t).Some? ==>
              && (exists p: nat :: FirstEligible(s, s.pending.order, t, p) && s.pending.order[p] == Choice(s, t).value)
              && (forall id :: Eligible(s, id, t) ==>
                  s.pending.at[Choice(s, t).value].timestamp <= s.pending.at[id].timestamp)
  {
    assert forall id :: Eligible(s, id, t) ==> id in s.pending.at;
    ClaimFacts(s, t);
    hide Inv, Outstanding, Oldest, Ascending, Eligible, FirstEligible;
    OldestIsFirst(s, s.pending.order, t);
    if Choice(s, t).Some? {
      var p: nat :| FirstEligible(s, s.pending.order, t, p) && s.pending.order[p] == Choice(s, t).value;
      forall id | Eligible(s, id, t) ensures s.pending.at[Choice(s, t).value].timestamp <= s.pending.at[id].timestamp {
        ChosenIsEarliest(s, t, p, id);
      }
    }
  }

  // ---------- Records ----------

  predicate Idle(s: State, id: Id) {
    id in s.operations.at && id !in s.pending.at
  }

  /** Whatever idle key is left came after every key that was dropped. */
  predicate OldestDropped(order: seq<Id>, left: set<Id>, pending: set<Id>) {
    forall i, j ::
      (0 <= i < |order| && 0 <= j < |order| && order[i] !in left && order[j] in left && order[j] !in pending) ==> i < j
  }

  function Kept(order: seq<Id>, gone: set<Id>): set<Id> {
    set k | k in order && k !in gone
  }

  /** Dropping a set that comes first, and then more in order, drops in order. */
  lemma DroppedTogether(order: seq<Id>, gone: set<Id>, left: set<Id>, pending: set<Id>)
    requires NoDup(order) && (forall k :: k in left ==> k !in gone)
    requires OldestDropped(order, Kept(order, gone), pending)
    requires OldestDropped(Without(order, gone), left, pending)
    ensures OldestDropped(order, left, pending)
  {
    var order1 := Without(order, gone);
    WithoutMembers(order, gone);
    forall i, j | 0 <= i < |order| && 0 <= j < |order| && order[i] !in left && order[j] in left
        && order[j] !in pending ensures i < j {
      if order[i] !in gone {
        assert order[i] in order1 && order[j] in order1;
        var i' :| 0 <= i' < |order1| && order1[i'] == order[i];
        var j' :| 0 <= j' < |order1| && order1[j'] == order[j];
        assert i' < j';
        WithoutOrder(order, gone, i, j, i', j');
      } else {
        assert order[j] in Kept(order, gone);
      }
    }
  }

  lemma FirstIdleAt(order: seq<Id>, pending: map<Id, Request>) returns (p: nat)
    requires FirstIdle(order, pending).Some?
    ensures p < |order| && order[p] == FirstIdle(order, pending).value
    ensures forall q :: 0 <= q < p ==> order[q] in pending
  {
    if order[0] in pending {
      p := FirstIdleAt(order[1..], pending);
      assert forall q :: 0 < q < p + 1 ==> order[q] == order[1..][q - 1];
      p := p + 1;
    } else {
      p := 0;
    }
  }

  /** Filtering keeps the order of any two survivors. */
  lemma WithoutOrder(order: seq<Id>, gone: set<Id>, i: nat, j: nat, i': nat, j': nat)
    requires NoDup(order) && i < |order| && j < |order| && i' < j' < |Without(order, gone)|
    requires Without(order, gone)[i'] == order[i] && Without(order, gone)[j'] == order[j]
    ensures i < j
  {
    var a, b := WithoutPositions(order, gone, i', j');
  }

  /** The later state's records are the earlier state's, unchanged, the pending ones all there. */
  ghost predicate Subset(s: State, s': State) {
    && s'.pending == s.pending
    && (forall id :: id in s'.operations.at ==> id in s.operations.at && s'.operations.at[id] == s.operations.at[id])
    && (forall id :: id in s.operations.at && id in s.pending.at ==> id in s'.operations.at)
  }

  lemma TrimUnfolds(s: State, id: Id)
    requires |s.operations.order| > MAX_OPERATION_RECORDS && FirstIdle(s.operations.order, s.pending.at) == Some(id)
    ensures var s1 := Forget(s, {id});
            && Trim(s) == Trim(s1) && s1.pending == s.pending
                && s1.operations.order == Without(s.operations.order, {id})
            && (forall k :: k in s1.operations.at ==> k != id)
            && id in s.operations.order && id !in s.pending.at && |s1.operations.order| < |s.operations.order|
  {
    FirstIdleIs(s.operations.order, s.pending.at);
    ForgetShrinks(s, id);
    hide FirstIdle, Without;
  }

  lemma {:induction false} TrimDropsOldest(s: State)
    requires Core(s)
    ensures OldestDropped(s.operations.order, Trim(s).operations.at.Keys, s.pending.at.Keys) && Subset(s, Trim(s))
    ensures Trim(s) != s ==> |Trim(s).operations.order| == MAX_OPERATION_RECORDS
    decreases |s.operations.order|
  {
    hide *;
    var f := FirstIdle(s.operations.order, s.pending.at);
    RecordsValid(s);
    if |s.operations.order| <= MAX_OPERATION_RECORDS || f.None? {
      NothingDropped(s);
    } else {
      var s1 := Forget(s, {f.value});
      TrimUnfolds(s, f.value);
      TrimOne(s, f.value);
      ForgetKeeps(s, {f.value});
      TrimKeeps(s);
      TrimDropsOldest(s1);
      SubsetOn(s, s1, Trim(s1), f.value);
      FirstIdleFirst(s.operations.order, s.pending.at, f.value);
      DroppedTogether(s.operations.order, {f.value}, Trim(s1).operations.at.Keys, s.pending.at.Keys);
    }
  }

  lemma NothingDropped(s: State)
    requires s.operations.Valid()
    requires |s.operations.order| <= MAX_OPERATION_RECORDS || FirstIdle(s.operations.order, s.pending.at).None?
    ensures Trim(s) == s
    ensures OldestDropped(s.operations.order, s.operations.at.Keys, s.pending.at.Keys) && Subset(s, s)
  {}

  lemma TrimOne(s: State, id: Id)
    requires s.operations.Valid() && id in s.operations.order && id !in s.pending.at
    ensures |Forget(s, {id}).operations.order| == |s.operations.order| - 1
    ensures Subset(s, Forget(s, {id})) && NoDup(s.operations.order)
  {
    WithoutOneLength(s.operations.order, id);
  }

  lemma SubsetOn(s: State, s1: State, s': State, id: Id)
    requires Subset(s, s1) && Subset(s1, s') && (forall k :: k in s1.operations.at ==> k != id)
    ensures Subset(s, s') && (forall k :: k in s'.operations.at.Keys ==> k !in {id})
  {}

  lemma FirstIdleFirst(order: seq<Id>, pending: map<Id, Request>, id: Id)
    requires NoDup(order) && FirstIdle(order, pending) == Some(id)
    ensures OldestDropped(order, Kept(order, {id}), pending.Keys)
  {
    var p := FirstIdleAt(order, pending);
    hide FirstIdle;
  }

  lemma DropFirstRecords(s: State)
    requires Core(s) && s.retained != []
    ensures DropFirstResult(s).operations.at.Keys == s.operations.at.Keys
    ensures |DropFirstResult(s).retained| == |s.retained| - 1
  {
    DropFirstShape(s);
    hide Core, DropFirstResult, Unstored;
  }

  lemma {:induction false} DropResultsRecords(s: State)
    requires Core(s)
    ensures DropResults(s).operations.at.Keys == s.operations.at.Keys
    decreases |s.retained|
  {
    if s.retained != [] && !ResultsFit(s) {
      assert DropResults(s) == DropResults(DropFirstResult(s));
      hide *;
      DropFirstRecords(s);
      DropFirstKeeps(s);
      DropResultsRecords(DropFirstResult(s));
    }
  }

  // ---------- The prune ----------

  predicate Stale(o: Operation, now: int) {
    now - o.updatedAt >= 300_000
  }

  /** Pruning keeps every pending record, drops every stale idle one, and drops a fresh one only to make room,
      the oldest first. */
  lemma {:induction false} PruneIsFilter(s: State, now: int)
    requires Core(s) && s.clock <= now
    ensures var s' := Prune(s, now);
            && s'.pending == s.pending
            && (forall id :: id in s'.operations.at ==> id in s.operations.at)
            && (forall id :: id in s.pending.at ==> id in s'.operations.at)
            && (forall id :: Idle(s', id) ==> !Stale(s.operations.at[id], now))
            && (forall id :: Idle(s, id) && id !in s'.operations.at && !Stale(s.operations.at[id], now) ==>
                  |s'.operations.order| == 32768)
            && OldestDropped(s.operations.order, s'.operations.at.Keys, s.pending.at.Keys)
  {
    var s0 := s.(clock := now);
    var gone := Expired(s, now);
    var s1 := Forget(s0, gone);
    var s2 := Trim(s1);
    var s' := Prune(s, now);
    PruneUnfolds(s, now);
    hide *;
    ExpiredAre(s, now);
    SetClock(s, now);
    ForgetKeeps(s0, gone);
    TrimDropsOldest(s1);
    TrimKeeps(s1);
    DropResultsKeeps(s2);
    DropResultsRecords(s2);
    assert s'.operations.at.Keys == s2.operations.at.Keys;
    PruneKeeps(s, now);
    SameRestPending(s, now);
    PrunedTogether(s, s1, s2, s', now);
  }

  lemma PruneUnfolds(s: State, now: int)
    ensures var s0 := s.(clock := now);
            var s1 := Forget(s0, Expired(s, now));
            && Prune(s, now) == DropResults(Trim(s1)) && s0.pending == s.pending
            && s1.pending == s.pending && s1.operations == s.operations.DeleteAll(Expired(s, now))
  {
    hide DropResults, Trim, Expired, Without;
  }

  lemma SameRestPending(s: State, now: int)
    requires SameRest(s.(clock := now), Prune(s, now))
    ensures Prune(s, now).pending == s.pending
  {
    hide Prune;
  }

  lemma ExpiredAre(s: State, now: int)
    requires Core(s)
    ensures forall id :: id in Expired(s, now) <==> Idle(s, id) && Stale(s.operations.at[id], now)
    ensures forall id :: id in Expired(s, now) ==> id !in s.pending.at
    ensures NoDup(s.operations.order) && (forall id :: id in s.pending.at ==> id in s.operations.at)
    ensures OldestDropped(s.operations.order, Kept(s.operations.order, Expired(s, now)), s.pending.at.Keys)
  {
    CoreParts(s);
    hide Core, Records, Orders, Retaining, Distinct, Bounded, OldestDropped;
    assert s.operations.Valid() && Ascending(s.operations.order, IdleTimes(s));
    assert forall id :: id in s.pending.at ==> id in s.operations.at;
    hide Linked, Shaped, Ordered, Ascending;
    ExpiredFirst(s, now);
  }

  /** In a sound state the stale idle records come before every fresh idle one. */
  lemma ExpiredFirst(s: State, now: int)
    requires s.operations.Valid() && Ascending(s.operations.order, IdleTimes(s))
    ensures OldestDropped(s.operations.order, Kept(s.operations.order, Expired(s, now)), s.pending.at.Keys)
  {
    var order, left := s.operations.order, Kept(s.operations.order, Expired(s, now));
    forall i, j | 0 <= i < |order| && 0 <= j < |order| && order[i] !in left && order[j] in left
        && order[j] !in s.pending.at
      ensures i < j {
      assert order[i] in IdleTimes(s) && order[j] in IdleTimes(s);
    }
  }

  lemma PrunedTogether(s: State, s1: State, s2: State, s': State, now: int)
    requires s1.operations == s.operations.DeleteAll(Expired(s, now)) && s1.pending == s.pending
        && s'.pending == s.pending
    requires forall id :: id in Expired(s, now) <==> Idle(s, id) && Stale(s.operations.at[id], now)
    requires NoDup(s.operations.order) && (forall id :: id in s.pending.at ==> id in s.operations.at)
    requires OldestDropped(s.operations.order, Kept(s.operations.order, Expired(s, now)), s.pending.at.Keys)
    requires OldestDropped(s1.operations.order, s2.operations.at.Keys, s.pending.at.Keys) && Subset(s1, s2)
    requires s2 != s1 ==> |s2.operations.order| == MAX_OPERATION_RECORDS
    requires s'.operations.at.Keys == s2.operations.at.Keys && |s'.operations.order| == |s2.operations.order|
    ensures forall id :: id in s'.operations.at ==> id in s.operations.at
    ensures forall id :: id in s.pending.at ==> id in s'.operations.at
    ensures forall id :: Idle(s', id) ==> !Stale(s.operations.at[id], now)
    ensures forall id :: Idle(s, id) && id !in s'.operations.at && !Stale(s.operations.at[id], now) ==>
              |s'.operations.order| == 32768
    ensures OldestDropped(s.operations.order, s'.operations.at.Keys, s.pending.at.Keys)
  {
    var gone := Expired(s, now);
    hide Expired, Stale, NoDup, OldestDropped, Without;
    assert forall id :: id in s'.operations.at <==> id in s2.operations.at;
    assert forall id :: id in s1.operations.at <==> id in s.operations.at && id !in gone;
    DroppedTogether(s.operations.order, gone, s2.operations.at.Keys, s.pending.at.Keys);
  }

  // ---------- Results ----------

  /** Dropping results takes as few as fit, the oldest first. */
  lemma {:induction false} DropResultsTakesFewest(s: State)
    requires Core(s)
    ensures ResultsFit(DropResults(s))
    ensures exists n: nat :: n <= |s.retained| && DropResults(s).retained == s.retained[n..] && FewestDropped(s, n)
    decreases |s.retained|
  {
    if s.retained == [] || ResultsFit(s) {
      DropResultsKeeps(s);
      assert s.retained[0..] == s.retained && FewestDropped(s, 0);
    } else {
      var s1 := DropFirstResult(s);
      DropFirstShape(s);
      assert s1.retained == s.retained[1..] && DropResults(s) == DropResults(s1);
      assert !ResultsFit(s);
      hide Core, DropResults, DropFirstResult;
      DropFirstKeeps(s);
      DropResultsTakesFewest(s1);
      var n: nat :| n <= |s1.retained| && DropResults(s1).retained == s1.retained[n..] && FewestDropped(s1, n);
      assert s1.retained[n..] == s.retained[n + 1..];
      OneMoreResult(s, s1, n);
    }
  }

  /** With one result fewer dropped the rest would not fit. */
  predicate FewestDropped(s: State, n: nat) {
    n <= |s.retained| &&
    (n > 0 ==>
       || |s.retained| - (n - 1) > 1024
       || Total(s.retained[n - 1..], StoredSizes(s.operations.at)) > 67_108_864)
  }

  lemma OneMoreResult(s: State, s1: State, n: nat)
    requires Core(s) && s.retained != [] && !ResultsFit(s) && s1 == DropFirstResult(s) && FewestDropped(s1, n)
    ensures n + 1 <= |s.retained| && FewestDropped(s, n + 1)
  {
    DropFirstShape(s);
    var id := s.retained[0];
    hide Core, DropFirstResult, Total;
    assert |s1.retained| == |s.retained| - 1;
    if n == 0 {
      assert s.retained[0..] == s.retained;
    } else {
      assert s1.retained[n - 1..] == s.retained[n..];
      assert forall k :: k in s.retained[n..] ==> k in s.retained[1..] && k != id;
      TotalAgrees(s.retained[n..], StoredSizes(s1.operations.at), StoredSizes(s.operations.at));
    }
  }
}
