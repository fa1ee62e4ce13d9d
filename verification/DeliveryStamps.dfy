/** When the connection of a dispatched operation was lost and restored, as the delivery owners of its transport come
    and go. */
module DeliveryStamps {
  import opened Common
  import StudioSockets

  datatype Id = Id(text: string)

  /** What setDeliveryActive looks at in an operation record: its transport, whether it is settled, and the two
      stamps. */
  datatype Operation = Operation(transport: Option<PeerId>, settled: bool, lostAt: Option<int>, restoredAt: Option<int>)
  {
    /** As endRequestWaiter reads the stamps. */
    predicate Lost() {
      lostAt.Some? && restoredAt.None?
    }

    predicate Open(t: PeerId) {
      transport == Some(t) && !settled
    }

    function Restored(now: int): Operation {
      if Lost() then this.(restoredAt := Some(now)) else this
    }

    function Dropped(now: int): Operation {
      this.(lostAt := Some(now), restoredAt := None)
    }
  }

  datatype State = State(owners: map<PeerId, set<nat>>, operations: map<Id, Operation>)

  function RestoredAll(operations: map<Id, Operation>, t: PeerId, now: int): map<Id, Operation> {
    map id | id in operations :: if operations[id].Open(t) then operations[id].Restored(now) else operations[id]
  }

  function DroppedAll(operations: map<Id, Operation>, t: PeerId, now: int): map<Id, Operation> {
    map id | id in operations :: if operations[id].Open(t) then operations[id].Dropped(now) else operations[id]
  }

  function OwnersOf(s: State, t: PeerId): set<nat> {
    if t in s.owners then s.owners[t] else {}
  }

  /** setDeliveryActive */
  function SetActive(s: State, t: PeerId, owner: nat, active: bool, now: int): State {
    if active then State(s.owners[t := OwnersOf(s, t) + {owner}], RestoredAll(s.operations, t, now))
    else if t !in s.owners then s
    else if s.owners[t] - {owner} == {} then State(s.owners - {t}, DroppedAll(s.operations, t, now))
    else s.(owners := s.owners[t := s.owners[t] - {owner}])
  }

  /** Requests are claimed only for the socket being pumped, which is an owner of its transport. */
  datatype Event =
    | ActiveEvent(transport: PeerId, owner: nat, active: bool, now: int)
    | AdmitEvent(id: Id)
    | DispatchEvent(id: Id, transport: PeerId)
    | SettleEvent(id: Id)
    | PruneEvent(id: Id)

  function Apply(s: State, e: Event): State {
    match e
    case ActiveEvent(t, owner, active, now) => SetActive(s, t, owner, active, now)
    case AdmitEvent(id) => if id in s.operations then s
        else s.(operations := s.operations[id := Operation(None, false, None, None)])
    case DispatchEvent(id, t) =>
      if id in s.operations && s.operations[id].transport.None? && !s.operations[id].settled && t in s.owners
      then s.(operations := s.operations[id := s.operations[id].(transport := Some(t))]) else s
    case SettleEvent(id) =>
      if id in s.operations then s.(operations := s.operations[id := s.operations[id].(settled := true)]) else s
    case PruneEvent(id) => s.(operations := s.operations - {id})
  }

  function Run(events: seq<Event>): State {
    if events == [] then State(map[], map[]) else Apply(Run(events[..|events| - 1]), events[|events| - 1])
  }

  lemma {:induction false} RunGoesOn(events: seq<Event>, e: Event)
    ensures Run([]) == State(map[], map[]) && Run(events + [e]) == Apply(Run(events), e)
  {
    assert (events + [e])[..|events|] == events;
    hide Apply;
  }

  /** A record is new without a transport and without stamps, gets one transport, while that has an owner, is settled
      once and for all, and goes. */
  lemma {:induction false} RecordLaw(s: State, id: Id, t: PeerId)
    ensures id !in s.operations ==>
              Apply(s, AdmitEvent(id)) == s.(operations := s.operations[id := Operation(None, false, None, None)])
    ensures id in s.operations ==>
              var o := s.operations[id];
              && Apply(s, AdmitEvent(id)) == s
              && (o.transport.None? && !o.settled && OwnersOf(s, t) != {} ==>
                    Apply(s, DispatchEvent(id, t)) == s.(operations := s.operations[id := o.(transport := Some(t))]))
              && (o.transport.Some? || o.settled || t !in s.owners ==> Apply(s, DispatchEvent(id, t)) == s)
              && Apply(s, SettleEvent(id)) == s.(operations := s.operations[id := o.(settled := true)])
    ensures Apply(s, PruneEvent(id)).owners == s.owners && Apply(s, PruneEvent(id)).operations == s.operations - {id}
  {}

  predicate OperationOk(o: Operation, s: State) {
    && (o.transport.None? ==> o.lostAt.None?)
    && (o.restoredAt.Some? ==> o.lostAt.Some?)
    && (o.transport.Some? && !o.settled ==> (o.Lost() <==> o.transport.value !in s.owners))
  }

  ghost predicate Inv(s: State) {
    && (forall t :: t in s.owners ==> s.owners[t] != {})
    && (forall id :: id in s.operations ==> OperationOk(s.operations[id], s))
  }

  lemma {:induction false} SetActiveKeeps(s: State, t: PeerId, owner: nat, active: bool, now: int)
    requires Inv(s)
    ensures Inv(SetActive(s, t, owner, active, now))
  {
    var s' := SetActive(s, t, owner, active, now);
    assert owner in OwnersOf(s, t) + {owner};
    forall id | id in s'.operations ensures OperationOk(s'.operations[id], s') {
      assert OperationOk(s.operations[id], s);
    }
  }

  lemma {:induction false} StepKeepsInv(s: State, e: Event)
    requires Inv(s)
    ensures Inv(Apply(s, e))
  {
    if e.ActiveEvent? {
      SetActiveKeeps(s, e.transport, e.owner, e.active, e.now);
    } else {
      var s' := Apply(s, e);
      forall id | id in s'.operations ensures OperationOk(s'.operations[id], s') {
        assert id in s.operations ==> OperationOk(s.operations[id], s);
      }
    }
  }

  /** What a change of owners stamps: a new owner the restoring of what counted as lost, the last owner's going the loss
      of every open operation of the transport, and nothing else. */
  lemma {:induction false} StampLaw(s: State, t: PeerId, owner: nat, active: bool, now: int)
    ensures var s' := SetActive(s, t, owner, active, now);
            && OwnersOf(s', t) == (if active then OwnersOf(s, t) + {owner} else OwnersOf(s, t) - {owner})
            && (forall u :: u != t ==> OwnersOf(s', u) == OwnersOf(s, u))
            && s'.operations.Keys == s.operations.Keys
            && forall id :: id in s.operations ==>
                 var o, n := s.operations[id], s'.operations[id];
                 if o.transport == Some(t) && !o.settled && active && o.lostAt.Some? && o.restoredAt.None?
                 then n == o.(restoredAt := Some(now))
                 else if o.transport == Some(t) && !o.settled && !active && t in s.owners && s.owners[t] <= {owner}
                 then n == o.(lostAt := Some(now), restoredAt := None)
                 else n == o
  {
    if !active && t in s.owners {
      assert s.owners[t] - {owner} == {} <==> s.owners[t] <= {owner};
    }
  }

  /** After every run an operation that was dispatched and is not settled counts as lost exactly while no socket
      delivers for its transport. */
  lemma {:induction false} LostExactlyWhileUndelivered(events: seq<Event>)
    ensures var s := Run(events);
            && Inv(s)
            && forall id :: id in s.operations && s.operations[id].transport.Some? && !s.operations[id].settled ==>
                              (s.operations[id].Lost() <==> OwnersOf(s, s.operations[id].transport.value) == {})
  {
    if events != [] {
      hide Inv, Apply;
      LostExactlyWhileUndelivered(events[..|events| - 1]);
      StepKeepsInv(Run(events[..|events| - 1]), events[|events| - 1]);
    }
    var s := Run(events);
    forall id | id in s.operations && s.operations[id].transport.Some? && !s.operations[id].settled
      ensures s.operations[id].Lost() <==> OwnersOf(s, s.operations[id].transport.value) == {}
    {
      LostIs(s, id);
    }
  }

  lemma LostIs(s: State, id: Id)
    requires Inv(s) && id in s.operations && s.operations[id].transport.Some? && !s.operations[id].settled
    ensures s.operations[id].Lost() <==> OwnersOf(s, s.operations[id].transport.value) == {}
  {
    assert OperationOk(s.operations[id], s);
  }

  /** A socket replaced after its successor became active leaves every stamp as it was, if the transport was
      delivered for. */
  lemma {:induction false} ReplacementStampsNothing(s: State, t: PeerId, previous: nat, next: nat, now: int)
    requires Inv(s) && t in s.owners && previous != next
    ensures SetActive(SetActive(s, t, next, true, now), t, previous, false, now).operations == s.operations
  {
    var s1 := SetActive(s, t, next, true, now);
    assert next in s1.owners[t] - {previous};
    forall id | id in s.operations ensures s1.operations[id] == s.operations[id] {
      assert OperationOk(s.operations[id], s);
    }
    assert s1.operations == s.operations;
  }

  // ---------- The transport's side of the same calls ----------

  /** The transport model keeps the same owners, and marks a transport lost exactly when its operations are stamped
      as lost. */
  lemma {:induction false} OwnersAgree(sockets: StudioSockets.State, s: State, t: PeerId, g: nat, active: bool,
      now: int)
    requires sockets.owners == s.owners
    ensures var sockets', s' := StudioSockets.SetActive(sockets, t, g, active), SetActive(s, t, g, active, now);
            && sockets'.owners == s'.owners
            && (sockets'.lost != sockets.lost <==> !active && t in s.owners && t !in s'.owners)
            && (sockets'.lost != sockets.lost ==>
                  sockets'.lost == sockets.lost + [t] && s'.operations == DroppedAll(s.operations, t, now))
            && (sockets'.lost == sockets.lost && !active ==> s'.operations == s.operations)
  {
    assert g in OwnersOf(s, t) + {g};
    assert |sockets.lost + [t]| == |sockets.lost| + 1;
  }

  /** A socket that may be pumped is the one owner of its transport, so whatever it claims is claimed while the
      transport has one. */
  lemma {:induction false} ClaimsHaveAnOwner(events: seq<StudioSockets.Event>, g: nat)
    requires StudioSockets.IsCurrent(StudioSockets.Run(events), g)
    ensures var sockets := StudioSockets.Run(events);
            var t := sockets.connections[g].transport;
            t in sockets.owners && sockets.owners[t] == {g}
  {
    hide StudioSockets.Run, StudioSockets.Inv;
    StudioSockets.QueueAndSocketAgree(events);
  }

  /** After any run of sockets, opening one in the place of another leaves every stamp as it was. */
  lemma {:induction false} ReplacedSocketStampsNothing(events: seq<StudioSockets.Event>, s: State, t: PeerId, now: int)
    requires var sockets := StudioSockets.Run(events);
             Inv(s) && s.owners == sockets.owners && t in sockets.sockets.at && StudioSockets.CanOpen(sockets, t)
    ensures var sockets := StudioSockets.Run(events);
            var s' := SetActive(SetActive(s, t, sockets.next, true, now), t, sockets.sockets.at[t], false, now);
            s'.owners == StudioSockets.Replace(sockets, t).owners && s'.operations == s.operations
  {
    var sockets := StudioSockets.Run(events);
    StudioSockets.QueueAndSocketAgree(events);
    var previous := sockets.sockets.at[t];
    OldGeneration(sockets, t);
    StudioSockets.ReplaceKeeps(sockets, t);
    hide StudioSockets.Run, StudioSockets.Inv, StudioSockets.Replace;
    ReplacementStampsNothing(s, t, previous, sockets.next, now);
    var s1 := SetActive(s, t, sockets.next, true, now);
    assert s1.owners[t] - {previous} == {sockets.next};
    assert sockets.next in s1.owners[t] - {previous};
  }

  lemma OldGeneration(sockets: StudioSockets.State, t: PeerId)
    requires StudioSockets.Inv(sockets) && t in sockets.sockets.at
    ensures sockets.sockets.at[t] < sockets.next
  {}

  class DeliveryOwners {
    var owners: map<PeerId, set<nat>>
    var operations: map<Id, Operation>

    ghost function Abs(): State
      reads this
    {
      State(owners, operations)
    }

    /** The owners change, and the loops over the operations stamp those of the transport that are not settled. */
    method SetDeliveryActive(t: PeerId, owner: nat, active: bool, now: int)
      modifies this
      ensures Abs() == SetActive(old(Abs()), t, owner, active, now)
    {
      if active {
        owners := owners[t := (if t in owners then owners[t] else {}) + {owner}];
        Stamp(t, true, now);
      } else if t in owners {
        var left := owners[t] - {owner};
        if left == {} {
          owners := owners - {t};
          Stamp(t, false, now);
        } else {
          owners := owners[t := left];
        }
      }
    }

    method Stamp(t: PeerId, restores: bool, now: int)
      modifies this`operations
      ensures operations == if restores then RestoredAll(old(operations), t, now)
          else DroppedAll(old(operations), t, now)
    {
      var todo := operations.Keys;
      while todo != {}
        invariant todo <= operations.Keys && operations.Keys == old(operations).Keys
        invariant forall id :: id in todo ==> operations[id] == old(operations)[id]
        invariant forall id :: id in operations && id !in todo ==>
                                 operations[id] == if !old(operations)[id].Open(t) then old(operations)[id]
                                                   else if restores then old(operations)[id].Restored(now)
                                                       else old(operations)[id].Dropped(now)
        decreases |todo|
      {
        var id :| id in todo;
        todo := todo - {id};
        var o := operations[id];
        if o.transport == Some(t) && !o.settled {
          if !restores {
            operations := operations[id := o.(lostAt := Some(now), restoredAt := None)];
          } else if o.lostAt.Some? && o.restoredAt.None? {
            operations := operations[id := o.(restoredAt := Some(now))];
          }
        }
      }
    }
  }
}
