/** The registry of Peers and Multiplayer Groups, updated in place. */
module Registry {
  import opened Common
  import opened OrderedMaps
  import opened Topology
  import opened TopologyRuns

  lemma FirstPeerSkips(order: seq<PeerId>, at: map<PeerId, Peer>, wanted: (PeerId, Peer) -> bool)
    requires order != [] && order[0] in at
    ensures FirstPeer(order, at, wanted) == if wanted(order[0], at[order[0]]) then Some(order[0])
        else FirstPeer(order[1..], at, wanted)
  {}

  /** The groups once the Instance has left those at the listed positions. */
  ghost predicate DetachedSoFar(was: OMap<GroupId, Group>, now: OMap<GroupId, Group>, i: InstanceId,
      keep: Option<GroupId>, seen: seq<GroupId>) {
    var gone := set g | g in Emptied(was.at, i, keep) && g in seen;
    && now.order == Without(was.order, gone)
    && (forall g :: g in now.at <==> g in was.at && g !in gone)
    && (forall g :: g in now.at ==>
          now.at[g] == if g in seen && Some(g) != keep && i in was.at[g].instances then Shed(was.at[g], i)
              else was.at[g])
  }

  lemma DetachedNone(groups: OMap<GroupId, Group>, i: InstanceId, keep: Option<GroupId>)
    ensures DetachedSoFar(groups, groups, i, keep, [])
  {
    assert (set g | g in Emptied(groups.at, i, keep) && g in []) == {};
    WithoutNothing(groups.order, {});
  }

  lemma DetachedAll(was: OMap<GroupId, Group>, now: OMap<GroupId, Group>, i: InstanceId, keep: Option<GroupId>)
    requires was.Valid() && DetachedSoFar(was, now, i, keep, was.order)
    ensures now == Detached(was, i, keep)
  {
    assert (set g | g in Emptied(was.at, i, keep) && g in was.order) == Emptied(was.at, i, keep);
    assert now.at == Detached(was, i, keep).at;
  }

  lemma DetachedSkip(was: OMap<GroupId, Group>, now: OMap<GroupId, Group>, i: InstanceId, keep: Option<GroupId>,
      seen: seq<GroupId>, g: GroupId)
    requires DetachedSoFar(was, now, i, keep, seen) && g in was.at && (Some(g) == keep || i !in was.at[g].instances)
    ensures DetachedSoFar(was, now, i, keep, seen + [g])
  {
    assert (set k | k in Emptied(was.at, i, keep) && k in seen + [g]) == set k | k in Emptied(was.at, i, keep)
        && k in seen;
  }

  lemma DetachedGone(was: OMap<GroupId, Group>, now: OMap<GroupId, Group>, i: InstanceId, keep: Option<GroupId>,
      seen: seq<GroupId>, g: GroupId)
    requires DetachedSoFar(was, now, i, keep, seen) && g in was.at && g !in seen && Some(g) != keep
        && i in was.at[g].instances
    requires Shed(was.at[g], i).instances == []
    ensures DetachedSoFar(was, now.Delete(g), i, keep, seen + [g])
  {
    var gone := set k | k in Emptied(was.at, i, keep) && k in seen;
    var gone' := set k | k in Emptied(was.at, i, keep) && k in seen + [g];
    assert gone' == gone + {g};
    WithoutTwice(was.order, gone, {g});
    hide Without, Shed;
  }

  lemma DetachedShed(was: OMap<GroupId, Group>, now: OMap<GroupId, Group>, i: InstanceId, keep: Option<GroupId>,
      seen: seq<GroupId>, g: GroupId)
    requires DetachedSoFar(was, now, i, keep, seen) && g in was.at && g !in seen && Some(g) != keep
        && i in was.at[g].instances
    requires Shed(was.at[g], i).instances != []
    ensures DetachedSoFar(was, now.Set(g, Shed(was.at[g], i)), i, keep, seen + [g])
  {
    var gone := set k | k in Emptied(was.at, i, keep) && k in seen;
    var gone' := set k | k in Emptied(was.at, i, keep) && k in seen + [g];
    assert gone' == gone;
    hide Without, Shed;
  }

  lemma DetachedOne(was: OMap<GroupId, Group>, now: OMap<GroupId, Group>, i: InstanceId, keep: Option<GroupId>,
      seen: seq<GroupId>, g: GroupId)
    requires DetachedSoFar(was, now, i, keep, seen) && g in was.at && g !in seen && Some(g) != keep
        && i in was.at[g].instances
    ensures g in now.at && now.at[g] == was.at[g]
    ensures DetachedSoFar(was, if Shed(was.at[g], i).instances == [] then now.Delete(g)
        else now.Set(g, Shed(was.at[g], i)), i, keep, seen + [g])
  {
    DetachedHere(was, now, i, keep, seen, g);
    hide DetachedSoFar, Shed;
    if Shed(was.at[g], i).instances == [] {
      DetachedGone(was, now, i, keep, seen, g);
    } else {
      DetachedShed(was, now, i, keep, seen, g);
    }
  }

  lemma DetachedHere(was: OMap<GroupId, Group>, now: OMap<GroupId, Group>, i: InstanceId, keep: Option<GroupId>,
      seen: seq<GroupId>, g: GroupId)
    requires DetachedSoFar(was, now, i, keep, seen) && g in was.at && g !in seen
    ensures g in now.at && now.at[g] == was.at[g]
  {}

  /** Entering an absent group and then the Instance comes to joining the group. */
  lemma JoinedAs(was: OMap<GroupId, Group>, now: OMap<GroupId, Group>, i: InstanceId, g: GroupId)
    requires var entered := if g in was.at then was else was.Set(g, Group([], None));
             now == if i in entered.at[g].instances then entered
                    else entered.Set(g, entered.at[g].(instances := entered.at[g].instances + [i]))
    ensures now == Joined(was, i, g)
  {
    if g !in was.at {
      assert [] + [i] == [i];
      assert was.at[g := Group([], None)][g := Group([i], None)] == was.at[g := Group([i], None)];
    }
  }

  /** The Peers once those listed have been given the group they are to have. */
  ghost predicate ChangedSoFar(was: map<PeerId, Peer>, now: map<PeerId, Peer>, to: map<PeerId, Peer>,
      seen: seq<PeerId>) {
    && now.Keys == was.Keys == to.Keys
    && (forall p :: p in was ==> now[p] == if p in seen then to[p] else was[p])
  }

  lemma ChangedAll(was: OMap<PeerId, Peer>, now: map<PeerId, Peer>, to: map<PeerId, Peer>)
    requires was.Valid() && ChangedSoFar(was.at, now, to, was.order)
    ensures now == to
  {}

  lemma UsedOneMore(s: State, id: PeerId, i: InstanceId, g: Option<GroupId>, order: seq<PeerId>, k: nat)
    requires k < |order| && order[k] in s.peers.at
    ensures UsedIn(s, id, i, g, order[..k + 1]) ==
            if order[k] != id && InScope(s.peers.at[order[k]], i, g) && Ordinal(s.peers.at[order[k]].role).Some?
            then UsedIn(s, id, i, g, order[..k]) + {Ordinal(s.peers.at[order[k]].role).value}
                else UsedIn(s, id, i, g, order[..k])
  {
    assert order[..k + 1] == order[..k] + [order[k]];
    hide Ordinal;
  }

  function UsedIn(s: State, id: PeerId, i: InstanceId, g: Option<GroupId>, seen: seq<PeerId>): set<nat> {
    set p | p in seen && p in s.peers.at && p != id && InScope(s.peers.at[p], i, g) && Ordinal(s.peers.at[p].role).Some?
      :: Ordinal(s.peers.at[p].role).value
  }

  lemma UsedAll(s: State, id: PeerId, i: InstanceId, g: Option<GroupId>)
    requires s.peers.Valid()
    ensures UsedIn(s, id, i, g, s.peers.order) == UsedOrdinals(s, id, i, g)
  {
    hide Ordinal;
  }

  /** Counting up from n to the first unused ordinal finds the least free one. */
  lemma LeastFreeUnique(used: set<nat>, n: nat, r: nat)
    requires n <= r && r !in used && (forall k: nat :: n <= k < r ==> k in used)
    ensures r == LeastFree(used, n)
  {
    LeastFreeIs(used, n);
  }

  lemma DependentsOneMore(order: seq<PeerId>, at: map<PeerId, Peer>, id: PeerId, k: nat)
    requires k < |order| && order[k] in at
    ensures Dependents(order[..k + 1], at, id) ==
            if order[k] != id && at[order[k]].transport == id then Dependents(order[..k], at, id) + [order[k]]
                else Dependents(order[..k], at, id)
  {
    assert order[..k + 1][..k] == order[..k];
  }

  lemma PeersOfOneMore(order: seq<PeerId>, at: map<PeerId, Peer>, i: InstanceId, k: nat)
    requires k < |order| && order[k] in at
    ensures PeersOf(order[..k + 1], at, i) ==
            if at[order[k]].instance == i then PeersOf(order[..k], at, i) + [order[k]] else PeersOf(order[..k], at, i)
  {
    assert order[..k + 1][..k] == order[..k];
  }

  lemma EachOneMore(s: State, ids: seq<PeerId>, k: nat)
    requires k < |ids|
    ensures var r := UnregisterEach(s, ids[..k]);
            UnregisterEach(s, ids[..k + 1]) ==
            if ids[k] !in r.peers.at then r else Depart(DropPeer(r, ids[k]), r.peers.at[ids[k]].instance)
    ensures UnregisterAll(s, ids[..k + 1]) == Unregister(UnregisterAll(s, ids[..k]), ids[k])
  {
    assert ids[..k + 1][..k] == ids[..k];
    hide Depart, Unregister;
  }

  lemma DepartingOneMore(ids: seq<PeerId>, at: map<PeerId, Peer>, k: nat)
    requires k < |ids|
    ensures Departing(ids[..k + 1], at) ==
            if ids[k] in at && at[ids[k]].group.Some? && IsRuntime(at[ids[k]].role)
                && at[ids[k]].group.value !in Departing(ids[..k], at)
            then Departing(ids[..k], at) + [at[ids[k]].group.value] else Departing(ids[..k], at)
  {
    assert ids[..k + 1][..k] == ids[..k];
    hide Ordinal;
  }

  lemma RemoveOneMore(s: State, groups: seq<GroupId>, k: nat)
    requires k < |groups|
    ensures var r := RemoveUnused(s, groups[..k]);
            RemoveUnused(s, groups[..k + 1]) == if InUse(r, groups[k]) || RemoveGroup(r, groups[k]).None? then r
                else RemoveGroup(r, groups[k]).value
  {
    assert groups[..k + 1][..k] == groups[..k];
    hide InUse, RemoveGroup;
  }

  lemma UsedNone(s: State, id: PeerId, i: InstanceId, g: Option<GroupId>)
    ensures UsedIn(s, id, i, g, []) == {}
  {}

  function Belonging(i: InstanceId): (PeerId, Peer) -> bool {
    (k, p: Peer) => p.instance == i
  }

  lemma ConnectedIs(s: State, i: InstanceId)
    requires s.peers.Valid()
    ensures Find(s, Belonging(i)).Some? <==> Connected(s, i)
  {}

  function RuntimeIn(g: GroupId): (PeerId, Peer) -> bool {
    (k, p: Peer) => p.group == Some(g) && IsRuntime(p.role)
  }

  lemma RuntimeInIs(s: State, g: GroupId)
    requires s.peers.Valid()
    ensures Find(s, RuntimeIn(g)).Some? <==> InUse(s, g)
  {
    hide IsRuntime;
  }

  lemma EachNone(s: State)
    ensures UnregisterEach(s, []) == s
  {}

  lemma AllNone(s: State)
    ensures UnregisterAll(s, []) == s
  {}

  lemma NoneRemoved(s: State)
    ensures RemoveUnused(s, []) == s
  {}

  /** Once the Peers of an Instance are unregistered it may be detached. */
  lemma InstanceGone(s: State, i: InstanceId)
    requires Consistent(s)
    ensures var left := UnregisterAll(s, PeersOf(s.peers.order, s.peers.at, i));
            Consistent(left) && Consistent(left.(groups := Detached(left.groups, i, None)))
  {
    var ids := PeersOf(s.peers.order, s.peers.at, i);
    var left := UnregisterAll(s, ids);
    PeersOfAre(s.peers.order, s.peers.at, i);
    assert s.peers.Valid();
    UnregisterAllKeeps(s, ids);
    assert !Connected(left, i);
    hide Consistent, UnregisterAll, PeersOf, NoDup;
    DepartKeeps(left, i);
    assert Depart(left, i) == left.(groups := Detached(left.groups, i, None));
  }

  lemma AllOf<T>(s: seq<T>)
    ensures s[..|s|] == s
  {}

  lemma SoundPeers(s: State)
    requires Consistent(s)
    ensures s.peers.Valid() && s.groups.Valid()
  {}

  class PeerRegistry {
    var peers: OMap<PeerId, Peer>
    var groups: OMap<GroupId, Group>

    ghost function Abs(): State
      reads this
    {
      State(peers, groups)
    }

    ghost predicate Valid()
      reads this
    {
      Consistent(Abs())
    }

    constructor ()
      ensures Valid() && Abs() == EMPTY
    {
      peers, groups := OMap([], map[]), OMap([], map[]);
    }

    /** The first Peer, in registration order, with the property. */
    method FindPeer(wanted: (PeerId, Peer) -> bool) returns (p: Option<PeerId>)
      requires peers.Valid()
      ensures p == Find(Abs(), wanted)
    {
      var order := peers.order;
      var k := 0;
      while k < |order| && !wanted(order[k], peers.at[order[k]])
        invariant 0 <= k <= |order| && FirstPeer(order, peers.at, wanted) == FirstPeer(order[k..], peers.at, wanted)
      {
        FirstPeerSkips(order[k..], peers.at, wanted);
        assert order[k..][1..] == order[k + 1..];
        k := k + 1;
      }
      if k < |order| {
        FirstPeerSkips(order[k..], peers.at, wanted);
      }
      p := if k < |order| then Some(order[k]) else None;
    }

    method DetachInstanceFromOtherGroups(i: InstanceId, keep: Option<GroupId>)
      requires groups.Valid()
      modifies this`groups
      ensures groups == Detached(old(groups), i, keep)
    {
      hide Emptied, DetachedSoFar;
      ghost var was := groups;
      var order := groups.order;
      DetachedNone(was, i, keep);
      for k := 0 to |order|
        invariant DetachedSoFar(was, groups, i, keep, order[..k])
      {
        var g := order[k];
        assert order[..k + 1] == order[..k] + [g];
        if Some(g) != keep {
          DetachedHere(was, groups, i, keep, order[..k], g);
          if i in groups.at[g].instances {
            DetachedOne(was, groups, i, keep, order[..k], g);
            var left := Shed(groups.at[g], i);
            groups := if left.instances == [] then groups.Delete(g) else groups.Set(g, left);
          } else {
            DetachedSkip(was, groups, i, keep, order[..k], g);
          }
        } else {
          DetachedSkip(was, groups, i, keep, order[..k], g);
        }
      }
      AllOf(order);
      DetachedAll(was, groups, i, keep);
    }

    method GroupAttachmentConflict(i: InstanceId, g: GroupId) returns (p: Option<PeerId>)
      requires peers.Valid()
      ensures p == AttachConflict(Abs(), i, g)
    {
      var incoming: set<Role> := {};
      var order := peers.order;
      for k := 0 to |order|
        invariant incoming == set p | p in order[..k] && peers.at[p].instance == i :: peers.at[p].role
      {
        assert order[..k + 1] == order[..k] + [order[k]];
        if peers.at[order[k]].instance == i {
          incoming := incoming + {peers.at[order[k]].role};
        }
      }
      AllOf(order);
      assert incoming == RolesOf(Abs(), i);
      p := FindPeer(Conflicting(i, g, incoming));
    }

    method JoinGroup(i: InstanceId, g: GroupId)
      modifies this`groups
      ensures groups == Joined(old(groups), i, g)
    {
      if g !in groups.at {
        groups := groups.Set(g, Group([], None));
      }
      if i !in groups.at[g].instances {
        groups := groups.Set(g, groups.at[g].(instances := groups.at[g].instances + [i]));
      }
      JoinedAs(old(groups), groups, i, g);
    }

    method RegroupPeers(i: InstanceId, g: GroupId)
      requires peers.Valid()
      modifies this`peers
      ensures peers == Regrouped(old(peers), i, g)
    {
      ghost var was := peers;
      var order := peers.order;
      for k := 0 to |order|
        invariant peers.order == order && ChangedSoFar(was.at, peers.at, Regrouped(was, i, g).at, order[..k])
      {
        assert order[..k + 1] == order[..k] + [order[k]];
        if peers.at[order[k]].instance == i {
          peers := OMap(order, peers.at[order[k] := peers.at[order[k]].(group := Some(g))]);
        }
      }
      AllOf(order);
      ChangedAll(was, peers.at, Regrouped(was, i, g).at);
    }

    /** False stands for the error thrown on a conflict. */
    method AttachInstanceToGroup(i: InstanceId, g: GroupId) returns (ok: bool)
      requires peers.Valid() && groups.Valid()
      modifies this
      ensures ok <==> AttachConflict(old(Abs()), i, g).None?
      ensures Abs() == if ok then Attach(old(Abs()), i, g) else old(Abs())
    {
      hide AttachConflict, Detached, NoDup, Joined, Regrouped;
      var conflict := GroupAttachmentConflict(i, g);
      if conflict.Some? {
        return false;
      }
      DetachInstanceFromOtherGroups(i, Some(g));
      JoinGroup(i, g);
      RegroupPeers(i, g);
      ok := true;
    }

    method CreateMultiplayerGroup(g: GroupId, controller: InstanceId) returns (ok: bool)
      requires Valid()
      modifies this
      ensures Valid() && (ok <==> CreateGroup(old(Abs()), g, controller).Some?)
      ensures Abs() == if ok then CreateGroup(old(Abs()), g, controller).value else old(Abs())
    {
      hide Consistent, Attach, AttachConflict;
      SoundPeers(Abs());
      CreateGroupKeeps(Abs(), g, controller);
      ok := AttachInstanceToGroup(controller, g);
      if ok {
        groups := groups.Set(g, groups.at[g].(controller := Some(controller)));
      }
    }

    method HasRuntimePeer(g: GroupId) returns (found: bool)
      requires peers.Valid()
      ensures found <==> InUse(Abs(), g)
    {
      hide IsRuntime;
      var order := peers.order;
      for k := 0 to |order|
        invariant forall p :: p in order[..k] ==> !(peers.at[p].group == Some(g) && IsRuntime(peers.at[p].role))
      {
        assert order[..k + 1] == order[..k] + [order[k]];
        if peers.at[order[k]].group == Some(g) && IsRuntime(peers.at[order[k]].role) {
          return true;
        }
      }
      AllOf(order);
      found := false;
    }

    method UngroupPeers(g: GroupId)
      requires peers.Valid()
      modifies this`peers
      ensures peers == Ungrouped(old(peers), g)
    {
      ghost var was := peers;
      var order := peers.order;
      for k := 0 to |order|
        invariant peers.order == order && ChangedSoFar(was.at, peers.at, Ungrouped(was, g).at, order[..k])
      {
        assert order[..k + 1] == order[..k] + [order[k]];
        if peers.at[order[k]].group == Some(g) {
          peers := OMap(order, peers.at[order[k] := peers.at[order[k]].(group := None)]);
        }
      }
      AllOf(order);
      ChangedAll(was, peers.at, Ungrouped(was, g).at);
    }

    /** False stands for the error that the group is in use. */
    method RemoveMultiplayerGroup(g: GroupId) returns (ok: bool)
      requires Valid()
      modifies this
      ensures Valid() && (ok <==> RemoveGroup(old(Abs()), g).Some?)
      ensures Abs() == if ok then RemoveGroup(old(Abs()), g).value else old(Abs())
    {
      hide Consistent, InUse, Ungrouped;
      SoundPeers(Abs());
      if RemoveGroup(Abs(), g).Some? {
        RemoveGroupKeeps(Abs(), g);
      }
      if g !in groups.at {
        return true;
      }
      var used := HasRuntimePeer(g);
      if used {
        return false;
      }
      groups := groups.Delete(g);
      UngroupPeers(g);
      ok := true;
    }

    // ---------- Registration ----------

    method GroupIdForInstance(i: InstanceId) returns (g: Option<GroupId>)
      requires groups.Valid()
      ensures g == GroupOf(Abs(), i)
    {
      var order := groups.order;
      var k := 0;
      while k < |order| && i !in groups.at[order[k]].instances
        invariant 0 <= k <= |order| && GroupIn(order, groups.at, i) == GroupIn(order[k..], groups.at, i)
      {
        assert order[k..][1..] == order[k + 1..];
        k := k + 1;
      }
      g := if k < |order| then Some(order[k]) else None;
    }

    method FindUsedOrdinals(id: PeerId, i: InstanceId, g: Option<GroupId>) returns (used: set<nat>)
      requires peers.Valid()
      ensures used == UsedOrdinals(Abs(), id, i, g)
    {
      hide Ordinal, InScope, UsedIn, UsedOrdinals;
      used := {};
      var order := peers.order;
      UsedNone(Abs(), id, i, g);
      assert order[..0] == [];
      for k := 0 to |order|
        invariant used == UsedIn(Abs(), id, i, g, order[..k])
      {
        UsedOneMore(Abs(), id, i, g, order, k);
        var peer := peers.at[order[k]];
        if order[k] != id && InScope(peer, i, g) && Ordinal(peer.role).Some? {
          used := used + {Ordinal(peer.role).value};
        }
      }
      AllOf(order);
      UsedAll(Abs(), id, i, g);
    }

    static method FirstUnused(used: set<nat>) returns (ordinal: nat)
      ensures ordinal == LeastFree(used, 1)
    {
      ordinal := 1;
      ghost var left := set k | k in used && k >= 1;
      while ordinal in used
        invariant 1 <= ordinal && (forall k: nat :: 1 <= k < ordinal ==> k in used)
        invariant left == (set k | k in used && k >= ordinal)
        decreases |left|
      {
        assert ordinal in left;
        left := left - {ordinal};
        ordinal := ordinal + 1;
      }
      LeastFreeUnique(used, 1, ordinal);
    }

    method AssignRole(id: PeerId, i: InstanceId, g: Option<GroupId>, role: Role) returns (granted: Role)
      requires peers.Valid()
      ensures granted == AssignedRole(Abs(), id, i, g, role)
    {
      hide Ordinal, UsedOrdinals, ClientRole;
      if role != CLIENT {
        return role;
      }
      var used := FindUsedOrdinals(id, i, g);
      if id in peers.at && Ordinal(peers.at[id].role).Some? && Ordinal(peers.at[id].role).value !in used {
        return peers.at[id].role;
      }
      var ordinal := FirstUnused(used);
      granted := ClientRole(ordinal);
    }

    method ConnectedInstanceIdCollision(id: PeerId, i: InstanceId, role: Role, g: Option<GroupId>)
        returns (p: Option<PeerId>)
      requires peers.Valid()
      ensures p == AliasCollision(Abs(), id, i, role, g)
    {
      hide Find;
      p := FindPeer(Aliased(id, i));
      if p.Some? || g.None? || !IsRuntime(role) {
        return;
      }
      p := FindPeer(Named(id, Alias(i, role)));
    }

    method RegisterPeer(id: PeerId, t: PeerId, i: InstanceId, asked: Option<GroupId>, role: Role)
        returns (r: Registration)
      requires Valid()
      modifies this
      ensures Valid() && (Abs(), r) == Register(old(Abs()), id, t, i, asked, role)
    {
      hide Consistent, AssignedRole, AliasCollision, AttachConflict, Find, Attach, GroupOf;
      ghost var s := Abs();
      RegisterKeeps(s, id, t, i, asked, role);
      SoundPeers(s);
      if id in peers.at && (peers.at[id].instance != i || peers.at[id].transport != t) {
        return IdentityMismatch;
      }
      var g := asked;
      if g.None? {
        g := GroupIdForInstance(i);
      }
      if g.None? && id in peers.at {
        g := peers.at[id].group;
      }
      if g.Some? {
        var conflict := GroupAttachmentConflict(i, g.value);
        if conflict.Some? {
          return DuplicateRole(conflict.value);
        }
      }
      var granted := AssignRole(id, i, g, role);
      var clash := ConnectedInstanceIdCollision(id, i, granted, g);
      if clash.Some? {
        return AliasClash(clash.value);
      }
      var existing := FindPeer(Holding(id, i, g, granted));
      if existing.Some? {
        return DuplicateRole(existing.value);
      }
      if g.Some? {
        RegistrationNeverThrows(s, id, t, i, asked, role);
      }
      SetValid(peers, id, Peer(t, i, g, granted));
      peers := peers.Set(id, Peer(t, i, g, granted));
      if g.Some? {
        var attached := AttachInstanceToGroup(i, g.value);
        assert attached;
      }
      r := Registered(granted, g);
    }

    // ---------- Departure ----------

    method RemoveInstanceWhenDisconnected(i: InstanceId)
      requires Valid()
      modifies this`groups
      ensures Valid() && Abs() == Depart(old(Abs()), i)
    {
      hide Consistent, Detached;
      SoundPeers(Abs());
      DepartKeeps(Abs(), i);
      var connected := FindPeer(Belonging(i));
      ConnectedIs(Abs(), i);
      if connected.None? {
        DetachInstanceFromOtherGroups(i, None);
      }
    }

    method RemovePeer(id: PeerId)
      requires Valid()
      modifies this
      ensures Valid()
      ensures Abs() == if id in old(peers.at) then Depart(DropPeer(old(Abs()), id), old(peers.at[id].instance))
          else old(Abs())
    {
      hide Consistent, Depart;
      if id in peers.at {
        var i := peers.at[id].instance;
        DropPeerKeeps(Abs(), id);
        peers := peers.Delete(id);
        RemoveInstanceWhenDisconnected(i);
      }
    }

    method FindDependents(id: PeerId) returns (ids: seq<PeerId>)
      requires peers.Valid()
      ensures ids == Dependents(peers.order, peers.at, id)
    {
      ids := [];
      var order := peers.order;
      for k := 0 to |order|
        invariant ids == Dependents(order[..k], peers.at, id)
      {
        DependentsOneMore(order, peers.at, id, k);
        if order[k] != id && peers.at[order[k]].transport == id {
          ids := ids + [order[k]];
        }
      }
      AllOf(order);
    }

    method UnregisterPeer(id: PeerId)
      requires Valid()
      modifies this
      ensures Valid() && Abs() == Unregister(old(Abs()), id)
    {
      hide Consistent, Depart, Dependents, UnregisterEach;
      ghost var s := Abs();
      UnregisterKeeps(s, id);
      if id !in peers.at {
        return;
      }
      SoundPeers(s);
      var removed := peers.at[id];
      var dependents := [];
      if removed.transport == id {
        dependents := FindDependents(id);
      }
      DropPeerKeeps(s, id);
      peers := peers.Delete(id);
      ghost var s1 := Abs();
      assert s1 == UnregisterEach(s1, []) by { EachNone(s1); }
      for k := 0 to |dependents|
        invariant Valid() && Abs() == UnregisterEach(s1, dependents[..k])
      {
        EachOneMore(s1, dependents, k);
        RemovePeer(dependents[k]);
      }
      AllOf(dependents);
      RemoveInstanceWhenDisconnected(removed.instance);
    }

    method UnregisterInstanceId(i: InstanceId)
      requires Valid()
      modifies this
      ensures Valid() && Abs() == UnregisterInstance(old(Abs()), i)
    {
      hide Consistent, Detached, PeersOf, Departing, RemoveUnused, UnregisterAll, RemoveGroup, InUse, IsRuntime,
          Unregister;
      ghost var s := Abs();
      SoundPeers(s);
      UnregisterInstanceKeeps(s, i);
      var matching, departing := FindDeparting(i);
      AllNone(s);
      for k := 0 to |matching|
        invariant Valid() && Abs() == UnregisterAll(s, matching[..k])
      {
        EachOneMore(s, matching, k);
        UnregisterPeer(matching[k]);
      }
      AllOf(matching);
      InstanceGone(s, i);
      SoundPeers(Abs());
      DetachInstanceFromOtherGroups(i, None);
      ghost var left := Abs();
      NoneRemoved(left);
      for k := 0 to |departing|
        invariant Valid() && Abs() == RemoveUnused(left, departing[..k])
      {
        RemoveOneMore(left, departing, k);
        RemoveIfUnused(departing[k]);
      }
      AllOf(departing);
    }

    method FindDeparting(i: InstanceId) returns (matching: seq<PeerId>, departing: seq<GroupId>)
      requires peers.Valid()
      ensures matching == PeersOf(peers.order, peers.at, i) && departing == Departing(matching, peers.at)
    {
      hide IsRuntime;
      matching, departing := [], [];
      var order := peers.order;
      for k := 0 to |order|
        invariant matching == PeersOf(order[..k], peers.at, i)
      {
        PeersOfOneMore(order, peers.at, i, k);
        if peers.at[order[k]].instance == i {
          matching := matching + [order[k]];
        }
      }
      AllOf(order);
      PeersOfAre(order, peers.at, i);
      for k := 0 to |matching|
        invariant departing == Departing(matching[..k], peers.at)
      {
        DepartingOneMore(matching, peers.at, k);
        var peer := peers.at[matching[k]];
        if peer.group.Some? && IsRuntime(peer.role) && peer.group.value !in departing {
          departing := departing + [peer.group.value];
        }
      }
      AllOf(matching);
    }

    method RemoveIfUnused(g: GroupId)
      requires Valid()
      modifies this
      ensures Valid()
      ensures Abs() == if InUse(old(Abs()), g) || RemoveGroup(old(Abs()), g).None? then old(Abs())
          else RemoveGroup(old(Abs()), g).value
    {
      hide Consistent, RemoveGroup, IsRuntime;
      SoundPeers(Abs());
      var runtime := FindPeer(RuntimeIn(g));
      RuntimeInIs(Abs(), g);
      if runtime.None? {
        var removed := RemoveMultiplayerGroup(g);
      }
    }
  }
}
