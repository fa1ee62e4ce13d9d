/**
 The request broker's operations as functions on its state: admission, claims,
 the ends of waiters, progress, settlement and pruning. The class in module
 Bridge carries them out in place.
 */
module Broker {
  import opened Common
  import opened OrderedMaps

  datatype Id = Id(text: string)
  datatype Owner = Owner(text: string)
  datatype Fingerprint = Fingerprint(digest: string)

  const OPERATION_RETENTION_MS := 300_000
  const MAX_OPERATION_RECORDS := 32768
  const MAX_RETAINED_RESULTS := 1024
  const MAX_RETAINED_RESULT_BYTES := 67_108_864
  const MAX_REQUEST_BYTES := 67_108_864
  const MAX_PENDING_REQUESTS := 1024
  const MAX_PENDING_REQUEST_BYTES := 67_108_864
  const CANCELLATION_TOMBSTONE_TTL_MS := 60_000
  const MAX_CANCELLATION_TOMBSTONES := 4096
  const MAX_OUTSTANDING_REQUESTS_PER_TRANSPORT := 4

  datatype Stage = Queued | Dispatched | Executing | ResponseDelivery
  {
    function Rank(): nat {
      match this case Queued => 0 case Dispatched => 1 case Executing => 2 case ResponseDelivery => 3
    }
  }

  datatype Ending = TimedOut | Aborted | Disconnected

  datatype Standing = Pending | Over(how: Ending) | Settled

  datatype Outcome = Undecided | NotExecuted | Unknown | Success | Error

  /** `serial` is the identity of the record object; `stored` the size of its retained result. */
  datatype Operation = Operation(
    serial: nat, fingerprint: Fingerprint, target: PeerId, stage: Stage, standing: Standing,
    outcome: Outcome, execution: Outcome, transport: Option<PeerId>, updatedAt: int,
    stored: Option<nat>, unavailable: bool)

  datatype Request = Request(target: PeerId, timestamp: int, timeoutMs: int, bytes: nat,
                             owner: Option<Owner>, delivery: Option<PeerId>)

  datatype Cancellation = Cancellation(transport: PeerId, createdAt: int, owner: Option<Owner>)

  /** `transportOf` gives the transport of each registered Peer; `clock` is the latest time read. */
  datatype State = State(
    pending: OMap<Id, Request>, operations: OMap<Id, Operation>, retained: seq<Id>,
    cancellations: OMap<Id, Cancellation>, transportOf: map<PeerId, PeerId>, nextSerial: nat, clock: int)

  // ---------- Accounting ----------

  function RequestSizes(at: map<Id, Request>): map<Id, nat> {
    map id | id in at :: at[id].bytes
  }

  function DeliveredTo(at: map<Id, Request>, t: PeerId): map<Id, nat> {
    map id | id in at :: if at[id].delivery == Some(t) then 1 else 0
  }

  function StoredSizes(at: map<Id, Operation>): map<Id, nat> {
    map id | id in at :: if at[id].stored.Some? then at[id].stored.value else 0
  }

  function PendingBytes(s: State): nat {
    Total(s.pending.order, RequestSizes(s.pending.at))
  }

  function Outstanding(s: State, t: PeerId): nat {
    Total(s.pending.order, DeliveredTo(s.pending.at, t))
  }

  function RetainedBytes(s: State): nat {
    Total(s.retained, StoredSizes(s.operations.at))
  }

  // ---------- Pruning ----------

  function Forget(s: State, gone: set<Id>): State {
    s.(operations := s.operations.DeleteAll(gone), retained := Without(s.retained, gone))
  }

  function Expired(s: State, now: int): set<Id> {
    set id | id in s.operations.at && id !in s.pending.at
        && now - s.operations.at[id].updatedAt >= OPERATION_RETENTION_MS
  }

  /** The first record in order without a pending request. */
  function FirstIdle(order: seq<Id>, pending: map<Id, Request>): Option<Id> {
    if order == [] then None
    else if order[0] in pending then FirstIdle(order[1..], pending)
    else Some(order[0])
  }

  lemma {:induction false} FirstIdleIs(order: seq<Id>, pending: map<Id, Request>)
    ensures var f := FirstIdle(order, pending);
            && (f.Some? ==> f.value in order && f.value !in pending)
            && (f.None? ==> forall id :: id in order ==> id in pending)
  {
    if order != [] && order[0] in pending {
      FirstIdleIs(order[1..], pending);
      assert order == [order[0]] + order[1..];
    }
  }

  /** Drops the oldest idle records until the count fits. */
  function Trim(s: State): State
    decreases |s.operations.order|
  {
    var f := FirstIdle(s.operations.order, s.pending.at);
    if |s.operations.order| <= MAX_OPERATION_RECORDS || f.None? then s else
    FirstIdleIs(s.operations.order, s.pending.at);
    ForgetShrinks(s, f.value);
    Trim(Forget(s, {f.value}))
  }

  lemma {:induction false} WithoutPresentShrinks(order: seq<Id>, id: Id)
    requires id in order
    ensures |Without(order, {id})| < |order|
  {
    var n := |order| - 1;
    assert order == order[..n] + [order[n]];
    WithoutMembers(order[..n], {id});
    if order[n] != id {
      WithoutPresentShrinks(order[..n], id);
    }
  }

  lemma ForgetShrinks(s: State, id: Id)
    requires id in s.operations.order
    ensures |Forget(s, {id}).operations.order| < |s.operations.order|
  {
    WithoutPresentShrinks(s.operations.order, id);
  }

  predicate ResultsFit(s: State) {
    |s.retained| <= MAX_RETAINED_RESULTS && RetainedBytes(s) <= MAX_RETAINED_RESULT_BYTES
  }

  function Unstored(o: Operation): Operation {
    o.(stored := None, unavailable := true)
  }

  function DropFirstResult(s: State): State
    requires s.retained != []
  {
    var id := s.retained[0];
    if id !in s.operations.at then s.(retained := s.retained[1..]) else
    s.(retained := s.retained[1..],
       operations := s.operations.Set(id, Unstored(s.operations.at[id])))
  }

  /** Drops the oldest retained results until count and bytes fit. */
  function DropResults(s: State): State
    decreases |s.retained|
  {
    if s.retained == [] || ResultsFit(s) then s else DropResults(DropFirstResult(s))
  }

  function Prune(s: State, now: int): State {
    DropResults(Trim(Forget(s.(clock := now), Expired(s, now))))
  }

  function PruneCancellations(s: State, now: int): State {
    var gone := set id | id in s.cancellations.at
        && now - s.cancellations.at[id].createdAt >= CANCELLATION_TOMBSTONE_TTL_MS;
    TrimCancellations(s.(clock := now, cancellations := s.cancellations.DeleteAll(gone)))
  }

  function TrimCancellations(s: State): State
    decreases |s.cancellations.order|
  {
    if |s.cancellations.order| <= MAX_CANCELLATION_TOMBSTONES then s else
    WithoutPresentShrinks(s.cancellations.order, s.cancellations.order[0]);
    TrimCancellations(s.(cancellations := s.cancellations.Delete(s.cancellations.order[0])))
  }

  // ---------- Admission ----------

  datatype Rejection = Collision | TooLarge | CapacityExceeded
  datatype Admission = Rejected(why: Rejection) | JoinedPending | JoinedRetained | Admitted

  function AddRequest(s: State, id: Id, target: PeerId, fingerprint: Fingerprint, bytes: nat, timeoutMs: int,
      now: int): State {
    s.(pending := s.pending.Set(id, Request(target, now, timeoutMs, bytes, None, None)),
       operations := s.operations.Set(id, Operation(s.nextSerial, fingerprint, target, Queued, Pending, Undecided,
           Unknown,
                                                    None, now, None, false)),
       nextSerial := s.nextSerial + 1)
  }

  /** admitRequest after validation: join the identical operation, refuse, or admit. */
  function Admit(s0: State, id: Id, target: PeerId, fingerprint: Fingerprint, bytes: nat, timeoutMs: int,
      now: int): (State, Admission) {
    var s := Prune(s0, now);
    if id in s.operations.at then
      if s.operations.at[id].fingerprint != fingerprint then (s, Rejected(Collision))
      else if id in s.pending.at then (s, JoinedPending)
      else (s, JoinedRetained)
    else if bytes > MAX_REQUEST_BYTES then (s, Rejected(TooLarge))
    else if |s.pending.order| >= MAX_PENDING_REQUESTS || PendingBytes(s) + bytes > MAX_PENDING_REQUEST_BYTES
    then (s, Rejected(CapacityExceeded))
    else (Prune(AddRequest(s, id, target, fingerprint, bytes, timeoutMs, now), now), Admitted)
  }

  // ---------- Delivery ----------

  predicate Eligible(s: State, id: Id, t: PeerId) {
    && id in s.pending.at && s.pending.at[id].owner.None?
    && s.pending.at[id].target in s.transportOf && s.transportOf[s.pending.at[id].target] == t
  }

  /** Strictly older requests replace the choice, so among equals the earliest-admitted wins. */
  function Oldest(s: State, order: seq<Id>, t: PeerId): (best: Option<Id>)
    ensures best.Some? ==> best.value in order && Eligible(s, best.value, t)
  {
    if order == [] then None else
    var id := order[|order| - 1];
    var best := Oldest(s, order[..|order| - 1], t);
    if Eligible(s, id, t) && (best.None? || s.pending.at[id].timestamp < s.pending.at[best.value].timestamp)
    then Some(id) else best
  }

  function Dispatch(s: State, id: Id, t: PeerId, owner: Owner, now: int): State
    requires id in s.pending.at
  {
    var claimed := s.(clock := now,
                      pending := s.pending.Set(id, s.pending.at[id].(owner := Some(owner), delivery := Some(t))));
    if id !in s.operations.at then claimed else
    claimed.(operations := s.operations.Set(id,
        s.operations.at[id].(transport := Some(t), stage := Dispatched, updatedAt := now)))
  }

  function Choice(s: State, t: PeerId): (id: Option<Id>)
    ensures id.Some? ==> Eligible(s, id.value, t)
  {
    if Outstanding(s, t) >= MAX_OUTSTANDING_REQUESTS_PER_TRANSPORT then None else Oldest(s, s.pending.order, t)
  }

  function Claim(s: State, t: PeerId, owner: Owner, now: int): State {
    var id := Choice(s, t);
    if id.None? then s else Dispatch(s, id.value, t, owner, now)
  }

  /** ownedOperation: the transport the record was dispatched to, if it and the target Peer are still there. */
  predicate Owned(s: State, t: PeerId, id: Id) {
    && id in s.operations.at && s.operations.at[id].transport == Some(t)
    && s.operations.at[id].target in s.transportOf && s.transportOf[s.operations.at[id].target] == t
    && t in s.transportOf && s.transportOf[t] == t
  }

  // ---------- Ends ----------

  /** The record's next version goes to the end of the order; its request, if any, leaves. */
  function Retire(s: State, id: Id, next: Operation, now: int): State {
    s.(clock := now, pending := s.pending.Delete(id), operations := s.operations.Move(id, next),
       retained := if next.stored.Some? then s.retained + [id] else s.retained)
  }

  function Ended(o: Operation, how: Ending, now: int): Operation {
    o.(standing := Over(how), updatedAt := now,
       outcome := if o.stage.Queued? || o.execution.NotExecuted? then NotExecuted else Unknown,
       execution := if o.stage.Queued? then NotExecuted else o.execution)
  }

  function Cancel(s: State, id: Id, delivery: Option<PeerId>, now: int): State {
    if delivery.None? || id in s.cancellations.at then s else
    var p := PruneCancellations(s, now);
    PruneCancellations(p.(cancellations := p.cancellations.Set(id, Cancellation(delivery.value, now, None))), now)
  }

  /** endRequestWaiter */
  function EndWaiter(s: State, id: Id, how: Ending, now: int): State {
    if id !in s.pending.at then s else
    var r := if id in s.operations.at then Retire(s, id, Ended(s.operations.at[id], how, now), now)
             else s.(pending := s.pending.Delete(id));
    if how.Disconnected? then r else Cancel(r, id, s.pending.at[id].delivery, now)
  }

  function EndAll(s: State, ids: seq<Id>, how: Ending, now: int): State {
    if ids == [] then s else EndWaiter(EndAll(s, ids[..|ids| - 1], how, now), ids[|ids| - 1], how, now)
  }

  // ---------- Progress and settlement ----------

  datatype Phase = ExecutingPhase | DeliveringPhase(outcome: Option<Outcome>)

  function Progressed(o: Operation, phase: Phase, now: int): Operation {
    match phase
    case ExecutingPhase => o.(stage := Executing, updatedAt := now)
    case DeliveringPhase(outcome) =>
      o.(stage := ResponseDelivery, updatedAt := now, execution := if outcome.Some? then outcome.value else Unknown)
  }

  function Touch(s: State, id: Id, next: Operation, now: int): State {
    s.(clock := now, operations := s.operations.Move(id, next))
  }

  /** observeTransportProgress */
  function Observe(s0: State, t: PeerId, id: Id, phase: Phase, now: int): State {
    var s := Prune(s0, now);
    if !Owned(s, t, id) then s else
    var o := s.operations.at[id];
    if o.standing.Settled? || o.stage.ResponseDelivery? || (phase.ExecutingPhase? && !o.stage.Dispatched?) then s
    else Touch(s, id, Progressed(o, phase, now), now)
  }

  /** `bodyError`: the handler's response has an error shape; `local`: the server failed to send; `size`: serialised
      size. */
  datatype Response = Response(hasError: bool, local: bool, bodyError: bool, explicit: Option<Outcome>,
      size: Option<nat>)

  function Completed(o: Operation, r: Response): Outcome {
    if r.explicit == Some(Unknown) || r.explicit == Some(NotExecuted) then r.explicit.value
    else if !r.hasError && r.bodyError then Error
    else if r.explicit.Some? then r.explicit.value
    else if r.local then NotExecuted
    else if r.hasError then (if o.execution.Success? then Success else Error)
    else if r.bodyError then Error else Success
  }

  function SettledAs(o: Operation, r: Response, now: int): Operation {
    var completed := Completed(o, r);
    var fits := r.size.Some? && r.size.value <= MAX_RETAINED_RESULT_BYTES;
    o.(standing := Settled, execution := completed, updatedAt := now,
       outcome := if r.hasError || r.bodyError || completed.Error? || completed.NotExecuted? then Error else Success,
       stage := if r.local then o.stage else ResponseDelivery,
       stored := if fits then r.size else None, unavailable := !fits)
  }

  datatype Disposition = Accepted | AlreadySettled | UnknownOperation

  function Disposal(s: State, id: Id): Disposition {
    if id !in s.operations.at then UnknownOperation
    else if s.operations.at[id].standing.Settled? then AlreadySettled
    else Accepted
  }

  function Settle(s: State, id: Id, r: Response, now: int): State
    requires id in s.operations.at
  {
    var settled := Retire(s, id, SettledAs(s.operations.at[id], r, now), now);
    Prune(settled.(cancellations := settled.cancellations.Delete(id)), now)
  }

  /** recordResponse */
  function Record(s0: State, id: Id, r: Response, now: int): (State, Disposition) {
    var s := Prune(s0, now);
    var d := Disposal(s, id);
    (if d.Accepted? then Settle(s, id, r, now) else s, d)
  }

  /** settleTransportResponse: an error with an explicit outcome is no longer a local send failure. */
  function SettleTransport(s0: State, t: PeerId, id: Id, r: Response, now: int): (State, Disposition) {
    var s := Prune(s0, now);
    if !Owned(s, t, id) then (s, UnknownOperation)
    else Record(s, id, if r.hasError && r.explicit.Some? then r.(local := false) else r, now)
  }

  // ---------- Sweeps, Peers and cancellation claims ----------

  function TimedOutIds(s: State, order: seq<Id>, now: int): seq<Id> {
    if order == [] then [] else
    var id := order[|order| - 1];
    TimedOutIds(s, order[..|order| - 1], now)
    + if id in s.pending.at && now - s.pending.at[id].timestamp >= s.pending.at[id].timeoutMs then [id] else []
  }

  function CleanupOld(s: State, now: int): State {
    Prune(EndAll(s, TimedOutIds(s, s.pending.order, now), TimedOut, now), now)
  }

  function ClearAll(s: State, now: int): State {
    EndAll(s, s.pending.order, Disconnected, now).(cancellations := OMap([], map[]))
  }

  function TargetedIds(s: State, order: seq<Id>, p: PeerId): seq<Id> {
    if order == [] then [] else
    var id := order[|order| - 1];
    TargetedIds(s, order[..|order| - 1], p) + if id in s.pending.at && s.pending.at[id].target == p then [id] else []
  }

  function Register(s: State, p: PeerId, t: PeerId): State {
    if p in s.transportOf && s.transportOf[p] != t then s else s.(transportOf := s.transportOf[p := t])
  }

  function Unregister(s: State, p: PeerId, now: int): State {
    EndAll(s.(transportOf := s.transportOf - {p}), TargetedIds(s, s.pending.order, p), Disconnected, now)
  }

  function FirstCancellation(s: State, order: seq<Id>, t: PeerId): (id: Option<Id>)
    ensures id.Some? ==> id.value in s.cancellations.at
  {
    if order == [] then None
    else if order[0] in s.cancellations.at && s.cancellations.at[order[0]].transport == t
            && s.cancellations.at[order[0]].owner.None? then Some(order[0])
    else FirstCancellation(s, order[1..], t)
  }

  function ClaimCancellation(s0: State, t: PeerId, owner: Owner, now: int): State {
    var s := PruneCancellations(s0, now);
    var id := FirstCancellation(s, s.cancellations.order, t);
    if id.None? then s else
    s.(cancellations := s.cancellations.Set(id.value, s.cancellations.at[id.value].(owner := Some(owner))))
  }

  /** releaseDeliveryClaims: claims on cancellations return; a claimed request is never claimable again. */
  function ReleaseClaims(s: State, owner: Owner): State {
    s.(cancellations := OMap(s.cancellations.order,
                             map id | id in s.cancellations.at ::
                               if s.cancellations.at[id].owner == Some(owner)
                               then s.cancellations.at[id].(owner := None) else s.cancellations.at[id]))
  }

  // ---------- Events ----------

  datatype Event =
    | AdmitEvent(id: Id, target: PeerId, fingerprint: Fingerprint, bytes: nat, timeoutMs: int, now: int)
    | ClaimEvent(transport: PeerId, owner: Owner, now: int)
    | EndEvent(id: Id, how: Ending, now: int)
    | ProgressEvent(transport: PeerId, id: Id, phase: Phase, now: int)
    | ResolveEvent(id: Id, response: Response, now: int)
    | SettleEvent(transport: PeerId, id: Id, response: Response, now: int)
    | StatusEvent(now: int)
    | CleanupEvent(now: int)
    | ClearEvent(now: int)
    | RegisterEvent(peer: PeerId, transport: PeerId, now: int)
    | UnregisterEvent(peer: PeerId, now: int)
    | ClaimCancellationEvent(transport: PeerId, owner: Owner, now: int)
    | ReleaseEvent(owner: Owner, now: int)

  function Apply(s: State, e: Event): State {
    match e
    case AdmitEvent(id, target, fingerprint, bytes, timeoutMs, now) => Admit(s, id, target, fingerprint, bytes,
        timeoutMs, now).0
    case ClaimEvent(t, owner, now) => Claim(s, t, owner, now)
    case EndEvent(id, how, now) => EndWaiter(s, id, how, now)
    case ProgressEvent(t, id, phase, now) => Observe(s, t, id, phase, now)
    case ResolveEvent(id, r, now) => Record(s, id, r, now).0
    case SettleEvent(t, id, r, now) => SettleTransport(s, t, id, r, now).0
    case StatusEvent(now) => Prune(s, now)
    case CleanupEvent(now) => CleanupOld(s, now)
    case ClearEvent(now) => ClearAll(s, now)
    case RegisterEvent(p, t, now) => Register(s, p, t)
    case UnregisterEvent(p, now) => Unregister(s, p, now)
    case ClaimCancellationEvent(t, owner, now) => ClaimCancellation(s, t, owner, now)
    case ReleaseEvent(owner, now) => ReleaseClaims(s, owner)
  }

  const INITIAL := State(OMap([], map[]), OMap([], map[]), [], OMap([], map[]), map[], 0, 0)
}
