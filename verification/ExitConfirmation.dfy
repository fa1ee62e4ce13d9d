/** When a managed Studio process counts as gone: the two implementations and what a trace of observations must show. */
module ExitConfirmation {
  import opened Common

  datatype Status = Unknown | Running | NotRunning(mismatch: bool)

  datatype Observation = Observation(at: int, status: Status)

  /** `closedBy` is the time of the observation that closed the record. */
  datatype Record = Record(closedBy: Option<int>, lastAt: Option<int>, misses: nat, firstMissAt: Option<int>)

  const FRESH := Record(None, None, 0, None)

  predicate Outdated(r: Record, o: Observation) {
    r.lastAt.Some? && o.at < r.lastAt.value
  }

  predicate IsNew(r: Record, o: Observation) {
    r.lastAt != Some(o.at)
  }

  /** The record after one more confirmed miss, or after a repeated one. */
  function Missed(r: Record, o: Observation): Record {
    var seen := r.(lastAt := Some(o.at));
    if IsNew(r, o) then seen.(misses := r.misses + 1, firstMissAt := if r.firstMissAt.None? then Some(o.at)
        else r.firstMissAt) else seen
  }

  predicate LongEnough(r: Record, at: int, k: int, grace: int) {
    r.misses >= k && at - (if r.firstMissAt.Some? then r.firstMissAt.value else at) >= grace
  }

  /** applyProcessObservation */
  function Apply(r: Record, o: Observation, k: int, grace: int): Record {
    if r.closedBy.Some? || Outdated(r, o) then r
    else if !o.status.NotRunning? then Record(None, Some(o.at), 0, None)
    else
      var m := Missed(r, o);
      if o.status.mismatch || LongEnough(m, o.at, k, grace) then m.(closedBy := Some(o.at)) else m
  }

  /** The observation part of sweepUnlocked: only a new observation confirms by count. */
  function Sweep(r: Record, o: Observation, k: int, grace: int): Record {
    if r.closedBy.Some? || Outdated(r, o) then r
    else if !o.status.NotRunning? then Record(None, Some(o.at), 0, None)
    else
      var m := Missed(r, o);
      if o.status.mismatch || (IsNew(r, o) && LongEnough(m, o.at, k, grace)) then m.(closedBy := Some(o.at)) else m
  }

  function Run(trace: seq<Observation>, k: int, grace: int): Record {
    if trace == [] then FRESH else Apply(Run(trace[..|trace| - 1], k, grace), trace[|trace| - 1], k, grace)
  }

  function SweepRun(trace: seq<Observation>, k: int, grace: int): Record {
    if trace == [] then FRESH else Sweep(SweepRun(trace[..|trace| - 1], k, grace), trace[|trace| - 1], k, grace)
  }

  // ---------- What the trace shows ----------

  /** No earlier observation is newer: this one is not outdated. */
  predicate Accepted(trace: seq<Observation>, j: nat)
    requires j < |trace|
  {
    forall i :: 0 <= i < j ==> trace[i].at <= trace[j].at
  }

  predicate Newest(trace: seq<Observation>, j: nat)
    requires j < |trace|
  {
    forall i :: 0 <= i < j ==> trace[i].at < trace[j].at
  }

  /** A first sight of the process missing at its time, with no accepted running or unknown observation since. */
  predicate Counts(trace: seq<Observation>, i: nat) {
    && i < |trace| && trace[i].status.NotRunning? && Newest(trace, i)
    && forall m :: i < m < |trace| && Accepted(trace, m) ==> trace[m].status.NotRunning?
  }

  /** The misses below b that count at the end of the trace, in order. */
  function StreakTo(trace: seq<Observation>, b: nat): seq<nat> {
    if b == 0 then [] else if Counts(trace, b - 1) then StreakTo(trace, b - 1) + [b - 1] else StreakTo(trace, b - 1)
  }

  lemma {:induction false} StreakToIs(trace: seq<Observation>, b: nat)
    ensures forall i: nat :: i in StreakTo(trace, b) <==> i < b && Counts(trace, i)
    ensures forall x, y :: 0 <= x < y < |StreakTo(trace, b)| ==> StreakTo(trace, b)[x] < StreakTo(trace, b)[y]
  {
    hide Counts;
    if b > 0 {
      StreakToIs(trace, b - 1);
      var front := StreakTo(trace, b - 1);
      forall x, y | 0 <= x < y < |StreakTo(trace, b)| ensures StreakTo(trace, b)[x] < StreakTo(trace, b)[y] {
        assert front[x] in front;
      }
    }
  }

  function Streak(trace: seq<Observation>): seq<nat> {
    StreakTo(trace, |trace|)
  }

  /** The misses that count have strictly increasing times. */
  lemma {:induction false} StreakTimes(trace: seq<Observation>, x: nat, y: nat)
    requires x < y < |Streak(trace)|
    ensures Streak(trace)[x] < Streak(trace)[y] < |trace| && trace[Streak(trace)[x]].at < trace[Streak(trace)[y]].at
  {
    StreakToIs(trace, |trace|);
    assert Streak(trace)[x] in Streak(trace) && Streak(trace)[y] in Streak(trace);
    assert Newest(trace, Streak(trace)[y]);
  }

  lemma {:induction false} SameStreak(a: seq<Observation>, b: seq<Observation>, n: nat)
    requires forall i: nat :: i < n ==> (Counts(a, i) <==> Counts(b, i))
    ensures StreakTo(a, n) == StreakTo(b, n)
  {
    if n > 0 {
      SameStreak(a, b, n - 1);
    }
  }

  lemma {:induction false} EmptyStreak(a: seq<Observation>, n: nat)
    requires forall i: nat :: i < n ==> !Counts(a, i)
    ensures StreakTo(a, n) == []
  {
    if n > 0 {
      EmptyStreak(a, n - 1);
    }
  }

  lemma SamePast(trace: seq<Observation>, o: Observation, j: nat)
    requires j < |trace|
    ensures Accepted(trace + [o], j) <==> Accepted(trace, j)
    ensures Newest(trace + [o], j) <==> Newest(trace, j)
  {
    assert forall k :: 0 <= k <= j ==> (trace + [o])[k] == trace[k];
  }

  lemma CountsOn(trace: seq<Observation>, o: Observation, i: nat)
    requires i < |trace|
    ensures Counts(trace + [o], i) <==> Counts(trace, i) && (Accepted(trace + [o], |trace|) ==> o.status.NotRunning?)
  {
    var all := trace + [o];
    SamePast(trace, o, i);
    forall m: nat | m < |trace| ensures Accepted(all, m) <==> Accepted(trace, m) {
      SamePast(trace, o, m);
    }
    hide Newest, Accepted;
    assert forall m :: i < m < |trace| ==> all[m] == trace[m];
  }

  /** What one more observation does to the misses that count. */
  lemma StreakStep(trace: seq<Observation>, o: Observation)
    ensures var all := trace + [o];
            var accepted := Accepted(all, |trace|);
            Streak(all) ==
            if !accepted then Streak(trace)
            else if !o.status.NotRunning? then []
            else if Newest(all, |trace|) then Streak(trace) + [|trace|] else Streak(trace)
  {
    var all, n := trace + [o], |trace|;
    forall i: nat | i < n ensures Counts(all, i) <==> Counts(trace, i) && (Accepted(all, n) ==> o.status.NotRunning?) {
      CountsOn(trace, o, i);
    }
    assert Counts(all, n) <==> o.status.NotRunning? && Newest(all, n);
    assert Newest(all, n) ==> Accepted(all, n);
    if Accepted(all, n) && !o.status.NotRunning? {
      EmptyStreak(all, n);
    } else {
      SameStreak(all, trace, n);
    }
    hide Counts, Accepted, Newest;
    assert Streak(all) == StreakTo(all, n) + if Counts(all, n) then [n] else [];
  }

  /** The time of the first miss that counts, if any. */
  function FirstMiss(trace: seq<Observation>): Option<int> {
    if Streak(trace) == [] || Streak(trace)[0] >= |trace| then None else Some(trace[Streak(trace)[0]].at)
  }

  /** lastAt is the newest time seen. */
  predicate Latest(trace: seq<Observation>, lastAt: Option<int>) {
    if trace == [] then lastAt.None?
    else lastAt.Some? && (forall i :: 0 <= i < |trace| ==> trace[i].at <= lastAt.value)
         && exists i :: 0 <= i < |trace| && trace[i].at == lastAt.value
  }

  /** The record says what the trace shows. */
  predicate Reflects(r: Record, trace: seq<Observation>) {
    Latest(trace, r.lastAt) && r.misses == |Streak(trace)| && r.firstMissAt == FirstMiss(trace)
  }

  lemma LatestMeans(trace: seq<Observation>, r: Record, o: Observation)
    requires Latest(trace, r.lastAt)
    ensures Accepted(trace + [o], |trace|) <==> !Outdated(r, o)
    ensures !Outdated(r, o) ==> (Newest(trace + [o], |trace|) <==> IsNew(r, o)) && Latest(trace + [o], Some(o.at))
    ensures Outdated(r, o) ==> Latest(trace + [o], r.lastAt)
  {
    var all := trace + [o];
    if trace != [] {
      var i :| 0 <= i < |trace| && trace[i].at == r.lastAt.value;
      assert all[i].at == r.lastAt.value;
    }
    assert all[|trace|].at == o.at;
  }

  lemma FirstMissStep(trace: seq<Observation>, o: Observation)
    ensures Streak(trace) != [] && Streak(trace + [o]) != [] && Streak(trace + [o])[0] == Streak(trace)[0] ==>
              FirstMiss(trace + [o]) == FirstMiss(trace)
    ensures Streak(trace) == [] && Streak(trace + [o]) == [|trace|] ==> FirstMiss(trace + [o]) == Some(o.at)
    ensures Streak(trace + [o]) == [] ==> FirstMiss(trace + [o]).None?
  {
    StreakToIs(trace, |trace|);
    hide Counts, StreakTo;
    if Streak(trace) != [] {
      assert Streak(trace)[0] in Streak(trace);
    }
  }

  /** An observation keeps an open record in step with the trace, but for its closing. */
  lemma ReflectsStep(r: Record, trace: seq<Observation>, o: Observation)
    requires Reflects(r, trace)
    ensures Outdated(r, o) ==> Reflects(r, trace + [o])
    ensures !Outdated(r, o) && !o.status.NotRunning? ==> Reflects(Record(None, Some(o.at), 0, None), trace + [o])
    ensures !Outdated(r, o) && o.status.NotRunning? ==> Reflects(Missed(r, o), trace + [o])
  {
    hide Accepted, Newest, Counts, Latest, Streak, FirstMiss;
    LatestMeans(trace, r, o);
    StreakStep(trace, o);
    FirstMissStep(trace, o);
    assert r.firstMissAt.None? <==> Streak(trace) == [] by { NoFirstMiss(trace); }
  }

  lemma NoFirstMiss(trace: seq<Observation>)
    ensures FirstMiss(trace).None? <==> Streak(trace) == []
  {
    StreakToIs(trace, |trace|);
    hide Counts, StreakTo;
    if Streak(trace) != [] {
      assert Streak(trace)[0] in Streak(trace);
    }
  }

  lemma {:induction false} OpenReflects(trace: seq<Observation>, k: int, grace: int)
    requires Run(trace, k, grace).closedBy.None?
    ensures Reflects(Run(trace, k, grace), trace)
  {
    if trace == [] {
      assert Streak(trace) == [];
    } else {
      var front, o := trace[..|trace| - 1], trace[|trace| - 1];
      assert trace == front + [o];
      hide Reflects;
      OpenReflects(front, k, grace);
      ReflectsStep(Run(front, k, grace), front, o);
    }
  }

  /**
   A record is closed by an observation exactly when it is not outdated, finds the process missing, and either finds
   another process in its place or completes at least k misses that count, spanning at least the grace period.
   */
  lemma {:induction false} ClosedExactlyWhenConfirmed(trace: seq<Observation>, o: Observation, k: int, grace: int)
    requires Run(trace, k, grace).closedBy.None?
    ensures var all := trace + [o];
            var first := if FirstMiss(all).Some? then FirstMiss(all).value else o.at;
            Run(all, k, grace).closedBy.Some? <==>
              && Accepted(all, |trace|) && o.status.NotRunning?
              && (o.status.mismatch || (|Streak(all)| >= k && o.at - first >= grace))
  {
    hide Accepted, Newest, Counts, Latest, Streak, FirstMiss;
    var r := Run(trace, k, grace);
    assert (trace + [o])[..|trace|] == trace;
    assert Run(trace + [o], k, grace) == Apply(r, o, k, grace);
    hide Run;
    OpenReflects(trace, k, grace);
    ReflectsStep(r, trace, o);
    LatestMeans(trace, r, o);
  }

  /** Once closed, or for an outdated observation, nothing changes. */
  lemma {:induction false} OlderEvidenceChangesNothing(r: Record, o: Observation, k: int, grace: int)
    requires r.closedBy.Some? || Outdated(r, o)
    ensures Apply(r, o, k, grace) == r == Sweep(r, o, k, grace)
  {}

  // ---------- The two versions ----------

  /** The last miss was counted and did not confirm. */
  predicate Unconfirmed(r: Record, k: int, grace: int) {
    && (r.misses > 0 <==> r.firstMissAt.Some?) && (r.misses > 0 ==> r.lastAt.Some?)
    && (r.closedBy.None? && r.misses > 0 ==> !LongEnough(r, r.lastAt.value, k, grace))
  }

  lemma {:induction false} VersionsAgreeOn(trace: seq<Observation>, k: int, grace: int)
    requires k >= 1 || grace > 0
    ensures Run(trace, k, grace) == SweepRun(trace, k, grace) && Unconfirmed(Run(trace, k, grace), k, grace)
  {
    if trace != [] {
      VersionsAgreeOn(trace[..|trace| - 1], k, grace);
    }
  }

  /** With no misses required and no grace, a repeated observation closes the record in one version only. */
  lemma {:induction false} VersionsDisagree(k: int, grace: int)
    requires k <= 0 && grace <= 0
    ensures var trace := [Observation(1, Running), Observation(1, NotRunning(false))];
            Run(trace, k, grace).closedBy == Some(1) && SweepRun(trace, k, grace).closedBy.None?
  {
    var o, p := Observation(1, Running), Observation(1, NotRunning(false));
    assert [o, p][..1] == [o] && [o][..0] == [];
    assert Run([o], k, grace) == Apply(FRESH, o, k, grace) && SweepRun([o], k, grace) == Sweep(FRESH, o, k, grace);
  }

  /** The in-memory and the registry version close alike on every trace exactly when a miss or a grace is required. */
  lemma {:induction false} VersionsAgreeExactlyWhen(k: int, grace: int)
    ensures (forall trace :: Run(trace, k, grace) == SweepRun(trace, k, grace)) <==> k >= 1 || grace > 0
  {
    if k >= 1 || grace > 0 {
      forall trace ensures Run(trace, k, grace) == SweepRun(trace, k, grace) {
        VersionsAgreeOn(trace, k, grace);
      }
    } else {
      VersionsDisagree(k, grace);
    }
  }

  // ---------- The records updated in place ----------

  class ManagedRecord {
    var closedBy: Option<int>
    var lastProcessObservationAt: Option<int>
    var consecutiveConfirmedMisses: nat
    var firstConfirmedMissAt: Option<int>

    ghost function Abs(): Record
      reads this
    {
      Record(closedBy, lastProcessObservationAt, consecutiveConfirmedMisses, firstConfirmedMissAt)
    }

    constructor ()
      ensures Abs() == FRESH
    {
      closedBy, lastProcessObservationAt, consecutiveConfirmedMisses, firstConfirmedMissAt := None, None, 0, None;
    }

    method CountMiss(isNew: bool, at: int)
      modifies this`consecutiveConfirmedMisses, this`firstConfirmedMissAt
      ensures consecutiveConfirmedMisses == old(consecutiveConfirmedMisses) + if isNew then 1 else 0
      ensures firstConfirmedMissAt == if isNew && old(firstConfirmedMissAt).None? then Some(at)
          else old(firstConfirmedMissAt)
    {
      if isNew {
        consecutiveConfirmedMisses := consecutiveConfirmedMisses + 1;
        if firstConfirmedMissAt.None? {
          firstConfirmedMissAt := Some(at);
        }
      }
    }

    method ApplyProcessObservation(o: Observation, k: int, grace: int)
      modifies this
      ensures Abs() == Apply(old(Abs()), o, k, grace)
    {
      if closedBy.Some? {
        return;
      }
      var previous := lastProcessObservationAt;
      if previous.Some? && o.at < previous.value {
        return;
      }
      lastProcessObservationAt := Some(o.at);
      if !o.status.NotRunning? {
        consecutiveConfirmedMisses, firstConfirmedMissAt := 0, None;
        return;
      }
      CountMiss(previous != Some(o.at), o.at);
      if o.status.mismatch
         || (consecutiveConfirmedMisses >= k && o.at - (if firstConfirmedMissAt.Some? then firstConfirmedMissAt.value
             else o.at) >= grace) {
        closedBy := Some(o.at);
      }
    }

    method SweepObservation(o: Observation, k: int, grace: int)
      modifies this
      ensures Abs() == Sweep(old(Abs()), o, k, grace)
    {
      if closedBy.Some? {
        return;
      }
      var previous := lastProcessObservationAt;
      if previous.Some? && o.at < previous.value {
        return;
      }
      lastProcessObservationAt := Some(o.at);
      if !o.status.NotRunning? {
        consecutiveConfirmedMisses, firstConfirmedMissAt := 0, None;
        return;
      }
      var isNew := previous != Some(o.at);
      CountMiss(isNew, o.at);
      if o.status.mismatch
         || (isNew && consecutiveConfirmedMisses >= k
             && o.at - (if firstConfirmedMissAt.Some? then firstConfirmedMissAt.value else o.at) >= grace) {
        closedBy := Some(o.at);
      }
    }
  }
}
