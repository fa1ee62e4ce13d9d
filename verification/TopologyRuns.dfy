/** The registry stays consistent over every run, and when roles stay unique in their scope. */
module TopologyRuns {
  import opened Common
  import opened OrderedMaps
  import opened Topology

  // ---------- Consistency ----------

  ghost predicate SoundGroup(g: Group) {
    && NoDup(g.instances) && g.instances != []
    && (g.controller.Some? ==> g.controller.value in g.instances)
  }

  /** A Peer carries a group exactly when the group lists its Instance; an Instance is in one group at most;
      no group is empty; a controller is a member. */
  ghost predicate Consistent(s: State) {
    && s.peers.Valid() && s.groups.Valid()
    && (forall g :: g in s.groups.at ==> SoundGroup(s.groups.at[g]))
    && (forall g, h, i :: Lists(s, g, i) && Lists(s, h, i) ==> g == h)
    && (forall p, g :: p in s.peers.at ==> (s.peers.at[p].group == Some(g) <==> Lists(s, g, s.peers.at[p].instance)))
  }

  lemma GroupOfIs(s: State, i: InstanceId)
    requires Consistent(s)
    ensures forall g :: GroupOf(s, i) == Some(g) <==> Lists(s, g, i)
    ensures forall p :: p in s.peers.at && s.peers.at[p].instance == i ==> s.peers.at[p].group == GroupOf(s, i)
  {
    forall g ensures GroupOf(s, i) == Some(g) <==> Lists(s, g, i) {
      if GroupOf(s, i).Some? {
        assert Lists(s, GroupOf(s, i).value, i);
      }
    }
    forall p | p in s.peers.at && s.peers.at[p].instance == i ensures s.peers.at[p].group == GroupOf(s, i) {
      if s.peers.at[p].group.Some? {
        assert Lists(s, s.peers.at[p].group.value, i);
      }
    }
  }

  // ---------- Detaching ----------

  lemma DetachedLists(s: State, i: InstanceId, keep: Option<GroupId>, g: GroupId, j: InstanceId)
    ensures Lists(s.(groups := Detached(s.groups, i, keep)), g, j) <==> Lists(s, g, j) && (j != i || Some(g) == keep)
  {
    if g in s.groups.at {
      WithoutMembers(s.groups.at[g].instances, {i});
    }
    hide Without;
  }

  lemma ShedSound(g: Group, i: InstanceId)
    requires SoundGroup(g) && Without(g.instances, {i}) != []
    ensures SoundGroup(Shed(g, i))
  {
    WithoutMembers(g.instances, {i});
    WithoutNoDup(g.instances, {i});
  }

  lemma DetachedSound(groups: OMap<GroupId, Group>, i: InstanceId, keep: Option<GroupId>)
    requires groups.Valid() && (forall g :: g in groups.at ==> SoundGroup(groups.at[g]))
    ensures Detached(groups, i, keep).Valid()
    ensures forall g :: g in Detached(groups, i, keep).at ==> SoundGroup(Detached(groups, i, keep).at[g])
  {
    var gone := Emptied(groups.at, i, keep);
    WithoutMembers(groups.order, gone);
    WithoutNoDup(groups.order, gone);
    forall g | g in Detached(groups, i, keep).at ensures SoundGroup(Detached(groups, i, keep).at[g]) {
      if Some(g) != keep && i in groups.at[g].instances {
        ShedSound(groups.at[g], i);
      }
    }
  }

  /** An Instance no Peer belongs to may leave every group. */
  lemma DepartKeeps(s: State, i: InstanceId)
    requires Consistent(s)
    ensures Consistent(Depart(s, i)) && Depart(s, i).peers == s.peers
  {
    var s' := Depart(s, i);
    if !Connected(s, i) {
      DetachedSound(s.groups, i, None);
      forall g, j ensures Lists(s', g, j) <==> Lists(s, g, j) && j != i {
        DetachedLists(s, i, None, g, j);
      }
      hide Detached, NoDup;
    }
  }

  // ---------- Attaching ----------

  lemma AttachedLists(s: State, i: InstanceId, g: GroupId, h: GroupId, j: InstanceId)
    ensures Lists(Attach(s, i, g), h, j) <==> (Lists(s, h, j) && j != i) || (j == i && h == g)
  {
    DetachedLists(s, i, Some(g), h, j);
    DetachedLists(s, i, Some(g), g, i);
    hide Detached;
  }

  lemma JoinedSound(groups: OMap<GroupId, Group>, i: InstanceId, g: GroupId)
    requires groups.Valid() && (forall h :: h in groups.at ==> SoundGroup(groups.at[h]))
    ensures Joined(groups, i, g).Valid()
    ensures forall h :: h in Joined(groups, i, g).at ==> SoundGroup(Joined(groups, i, g).at[h])
  {}

  /** The state once every Peer's group agrees with the lists, but perhaps those of Instance i. */
  ghost predicate ConsistentBut(s: State, i: InstanceId) {
    && s.peers.Valid() && s.groups.Valid()
    && (forall g :: g in s.groups.at ==> SoundGroup(s.groups.at[g]))
    && (forall g, h, j :: Lists(s, g, j) && Lists(s, h, j) ==> g == h)
    && (forall p, g :: p in s.peers.at && s.peers.at[p].instance != i ==>
          (s.peers.at[p].group == Some(g) <==> Lists(s, g, s.peers.at[p].instance)))
  }

  lemma AttachKeeps(s: State, i: InstanceId, g: GroupId)
    requires ConsistentBut(s, i)
    ensures Consistent(Attach(s, i, g)) && g in Attach(s, i, g).groups.at
  {
    var s' := Attach(s, i, g);
    DetachedSound(s.groups, i, Some(g));
    JoinedSound(Detached(s.groups, i, Some(g)), i, g);
    forall h, j ensures Lists(s', h, j) <==> (Lists(s, h, j) && j != i) || (j == i && h == g) {
      AttachedLists(s, i, g, h, j);
    }
    assert g in s'.groups.at by { assert Lists(s', g, i); }
    assert s'.peers.Valid() && s'.groups.Valid();
    hide Joined, Detached, NoDup, SoundGroup, Lists;
  }

  lemma ControllerKeeps(s: State, g: GroupId, i: InstanceId)
    requires Consistent(s) && Lists(s, g, i)
    ensures Consistent(s.(groups := s.groups.Set(g, s.groups.at[g].(controller := Some(i)))))
  {
    var s' := s.(groups := s.groups.Set(g, s.groups.at[g].(controller := Some(i))));
    assert forall h, j :: Lists(s', h, j) <==> Lists(s, h, j);
    assert s'.groups.Valid() && forall h :: h in s'.groups.at ==> SoundGroup(s'.groups.at[h]);
    hide Lists, NoDup, SoundGroup;
  }

  /** Creating a group fails exactly on a role conflict. */
  lemma {:induction false} CreateGroupKeeps(s: State, g: GroupId, controller: InstanceId)
    requires Consistent(s)
    ensures CreateGroup(s, g, controller).Some? <==> AttachConflict(s, controller, g).None?
    ensures CreateGroup(s, g, controller).Some? ==>
              Consistent(CreateGroup(s, g, controller).value)
                  && CreateGroup(s, g, controller).value.peers == Attach(s, controller, g).peers
  {
    hide AttachConflict, Attach, NoDup, SoundGroup;
    if AttachConflict(s, controller, g).None? {
      AttachKeeps(s, controller, g);
      AttachedLists(s, controller, g, g, controller);
      hide Consistent;
      ControllerKeeps(Attach(s, controller, g), g, controller);
    }
  }

  lemma {:induction false} RemoveGroupKeeps(s: State, g: GroupId)
    requires Consistent(s) && RemoveGroup(s, g).Some?
    ensures Consistent(RemoveGroup(s, g).value)
  {
    var s' := RemoveGroup(s, g).value;
    if g in s.groups.at {
      DeleteAllValid(s.groups, {g});
      assert forall h, j :: Lists(s', h, j) <==> Lists(s, h, j) && h != g;
      hide NoDup, Without, InUse;
    }
  }

  // ---------- Registration ----------

  /** The Peer being registered brings no conflict that was not looked for: attaching after registration never
      throws. */
  lemma {:induction false} RegistrationNeverThrows(s: State, id: PeerId, t: PeerId, i: InstanceId,
      asked: Option<GroupId>, role: Role)
    requires s.peers.Valid() && Register(s, id, t, i, asked, role).1.Registered? && TargetGroup(s, id, i, asked).Some?
    ensures var g := TargetGroup(s, id, i, asked);
            AttachConflict(AddPeer(s, id, Peer(t, i, g, AssignedRole(s, id, i, g, role))), i, g.value).None?
  {
    var g := TargetGroup(s, id, i, asked);
    var granted := AssignedRole(s, id, i, g, role);
    var added := AddPeer(s, id, Peer(t, i, g, granted));
    assert AttachConflict(s, i, g.value).None?;
    assert Find(s, Holding(id, i, g, granted)).None?;
    hide AssignedRole, TargetGroup, NoDup, AliasCollision;
    forall k | k in added.peers.at && added.peers.at[k].instance != i && added.peers.at[k].group == Some(g.value)
      ensures added.peers.at[k].role !in RolesOf(added, i) {
      assert k != id && s.peers.at[k] == added.peers.at[k] && k in s.peers.order;
      assert s.peers.at[k].role !in RolesOf(s, i);
      assert s.peers.at[k].role != granted;
    }
  }

  lemma AddedKeeps(s: State, id: PeerId, p: Peer)
    requires Consistent(s) && (id in s.peers.at ==> s.peers.at[id].instance == p.instance)
    ensures ConsistentBut(AddPeer(s, id, p), p.instance)
    ensures p.group.None? && GroupOf(s, p.instance).None? ==> Consistent(AddPeer(s, id, p))
  {
    var added := AddPeer(s, id, p);
    SetValid(s.peers, id, p);
    GroupOfIs(s, p.instance);
    hide NoDup, SoundGroup, GroupOf;
    assert forall h, j :: Lists(added, h, j) <==> Lists(s, h, j);
  }

  lemma RegisterShape(s: State, id: PeerId, t: PeerId, i: InstanceId, asked: Option<GroupId>, role: Role)
    ensures var (s', r) := Register(s, id, t, i, asked, role);
            if !r.Registered? then s' == s else
              && r.role == AssignedRole(s, id, i, r.group, role) && r.group == TargetGroup(s, id, i, asked)
              && (id in s.peers.at ==> s.peers.at[id].instance == i)
              && (r.group.None? ==> GroupOf(s, i).None?)
              && s' == (if r.group.Some? then Attach(AddPeer(s, id, Peer(t, i, r.group, r.role)), i, r.group.value)
                        else AddPeer(s, id, Peer(t, i, r.group, r.role)))
  {
    hide AssignedRole, AliasCollision, AttachConflict, Find, Attach, AddPeer, GroupOf;
  }

  lemma RegisterKeeps(s: State, id: PeerId, t: PeerId, i: InstanceId, asked: Option<GroupId>, role: Role)
    requires Consistent(s)
    ensures Consistent(Register(s, id, t, i, asked, role).0)
  {
    hide *;
    RegisterShape(s, id, t, i, asked, role);
    var (s', r) := Register(s, id, t, i, asked, role);
    if r.Registered? {
      AddedKeeps(s, id, Peer(t, i, r.group, r.role));
      if r.group.Some? {
        AttachKeeps(AddPeer(s, id, Peer(t, i, r.group, r.role)), i, r.group.value);
      }
    }
  }

  // ---------- Departure ----------

  lemma DropPeerKeeps(s: State, id: PeerId)
    requires Consistent(s)
    ensures Consistent(DropPeer(s, id))
    ensures forall p :: p in DropPeer(s, id).peers.at <==> p in s.peers.at && p != id
    ensures forall p :: p in DropPeer(s, id).peers.at ==> DropPeer(s, id).peers.at[p] == s.peers.at[p]
  {
    DeleteAllValid(s.peers, {id});
    hide Without, NoDup;
    assert forall h, j :: Lists(DropPeer(s, id), h, j) <==> Lists(s, h, j);
  }

  /** What departures do to the Peers: some go, the others stay as they are. */
  ghost predicate FewerPeers(s: State, s': State) {
    forall p :: p in s'.peers.at ==> p in s.peers.at && s'.peers.at[p] == s.peers.at[p]
  }

  lemma {:induction false} UnregisterEachKeeps(s: State, ids: seq<PeerId>)
    requires Consistent(s)
    ensures Consistent(UnregisterEach(s, ids)) && FewerPeers(s, UnregisterEach(s, ids))
    ensures forall p :: p in s.peers.at && p !in ids ==> p in UnregisterEach(s, ids).peers.at
    ensures forall p :: p in ids ==> p !in UnregisterEach(s, ids).peers.at
  {
    if ids != [] {
      var n := |ids| - 1;
      var r, id := UnregisterEach(s, ids[..n]), ids[n];
      assert ids == ids[..n] + [id];
      UnregisterEachKeeps(s, ids[..n]);
      if id in r.peers.at {
        DropPeerKeeps(r, id);
        DepartKeeps(DropPeer(r, id), r.peers.at[id].instance);
      }
      hide Consistent, Depart, DropPeer;
    }
  }

  lemma {:induction false} DependentsAre(order: seq<PeerId>, at: map<PeerId, Peer>, id: PeerId)
    ensures forall k :: k in Dependents(order, at, id) <==> k in order && k in at && k != id && at[k].transport == id
  {
    if order != [] {
      var n := |order| - 1;
      assert order == order[..n] + [order[n]];
      DependentsAre(order[..n], at, id);
    }
  }

  /** Unregistering a Peer takes it and, if it is its own transport, exactly the Peers that depend on it. */
  lemma {:induction false} UnregisterKeeps(s: State, id: PeerId)
    requires Consistent(s)
    ensures Consistent(Unregister(s, id)) && FewerPeers(s, Unregister(s, id))
    ensures forall p :: p in s.peers.at ==>
              (p !in Unregister(s, id).peers.at <==>
               p == id || (id in s.peers.at && s.peers.at[id].transport == id && s.peers.at[p].transport == id))
  {
    if id in s.peers.at {
      var p := s.peers.at[id];
      var dependents := if p.transport == id then Dependents(s.peers.order, s.peers.at, id) else [];
      DependentsAre(s.peers.order, s.peers.at, id);
      assert forall k :: k in s.peers.at ==> k in s.peers.order;
      hide Consistent, Depart, DropPeer, UnregisterEach, Dependents, NoDup;
      DropPeerKeeps(s, id);
      UnregisterEachKeeps(DropPeer(s, id), dependents);
      DepartKeeps(UnregisterEach(DropPeer(s, id), dependents), p.instance);
    }
  }

  // ---------- Roles ----------

  predicate SameScope(a: Peer, b: Peer) {
    if a.group.Some? then a.group == b.group else b.group.None? && a.instance == b.instance
  }

  /** No two Peers of a routing scope have the same role. */
  ghost predicate UniqueRoles(s: State) {
    forall p, q :: p in s.peers.at && q in s.peers.at && p != q && SameScope(s.peers.at[p], s.peers.at[q]) ==>
      s.peers.at[p].role != s.peers.at[q].role
  }

  lemma NoAttachConflict(s: State, i: InstanceId, g: GroupId)
    requires s.peers.Valid() && AttachConflict(s, i, g).None?
    ensures forall p, q ::
              (p in s.peers.at && q in s.peers.at && s.peers.at[p].instance == i && s.peers.at[q].instance != i
               && s.peers.at[q].group == Some(g)) ==> s.peers.at[p].role != s.peers.at[q].role
  {
    forall p, q | p in s.peers.at && q in s.peers.at && s.peers.at[p].instance == i && s.peers.at[q].instance != i
      && s.peers.at[q].group == Some(g) ensures s.peers.at[p].role != s.peers.at[q].role {
      assert q in s.peers.order && s.peers.at[p].role in RolesOf(s, i);
    }
  }

  lemma CreateGroupKeepsRoles(s: State, g: GroupId, controller: InstanceId)
    requires Consistent(s) && UniqueRoles(s) && CreateGroup(s, g, controller).Some?
    ensures UniqueRoles(CreateGroup(s, g, controller).value)
  {
    CreateGroupKeeps(s, g, controller);
    NoAttachConflict(s, controller, g);
    GroupOfIs(s, controller);
    assert Attach(s, controller, g).peers == Regrouped(s.peers, controller, g);
    hide Consistent, CreateGroup, Attach, AttachConflict, GroupOf;
  }

  lemma RemoveGroupKeepsRoles(s: State, g: GroupId)
    requires Consistent(s) && UniqueRoles(s) && RemoveGroup(s, g).Some?
    ensures UniqueRoles(RemoveGroup(s, g).value)
  {
    var s' := RemoveGroup(s, g).value;
    assert g in s.groups.at ==> s'.peers == Ungrouped(s.peers, g);
    forall p, q | p in s'.peers.at && q in s'.peers.at && p != q && SameScope(s'.peers.at[p], s'.peers.at[q])
      ensures s'.peers.at[p].role != s'.peers.at[q].role {
      GroupOfIs(s, s.peers.at[p].instance);
      GroupOfIs(s, s.peers.at[q].instance);
      hide Consistent, GroupOf, RemoveGroup;
      assert SameScope(s.peers.at[p], s.peers.at[q]);
    }
  }

  lemma UnregisterKeepsRoles(s: State, id: PeerId)
    requires Consistent(s) && UniqueRoles(s)
    ensures UniqueRoles(Unregister(s, id))
  {
    UnregisterKeeps(s, id);
    hide Consistent, Unregister;
  }

  /** A Peer of the same Instance, not yet in the group being joined, already has the role. */
  predicate Strays(s: State, id: PeerId, i: InstanceId, g: Option<GroupId>, role: Role) {
    exists q :: q in s.peers.at && q != id && s.peers.at[q].instance == i && s.peers.at[q].group != g
        && s.peers.at[q].role == role
  }

  lemma NoneInScope(s: State, id: PeerId, t: PeerId, i: InstanceId, asked: Option<GroupId>, role: Role)
    requires s.peers.Valid() && Register(s, id, t, i, asked, role).1.Registered?
    ensures var r := Register(s, id, t, i, asked, role).1;
            && (forall q :: q in s.peers.at && q != id && InScope(s.peers.at[q], i, r.group) ==>
                s.peers.at[q].role != r.role)
            && (r.group.Some? ==> AttachConflict(s, i, r.group.value).None?)
  {
    var (s', r) := Register(s, id, t, i, asked, role);
    hide AssignedRole, AliasCollision, AttachConflict, Attach, AddPeer, TargetGroup, NoDup;
    assert Find(s, Holding(id, i, r.group, r.role)).None?;
    forall q | q in s.peers.at && q != id && InScope(s.peers.at[q], i, r.group) ensures s.peers.at[q].role != r.role {
      assert q in s.peers.order;
    }
  }

  lemma RolesUnlessStraying(s: State, id: PeerId, t: PeerId, i: InstanceId, asked: Option<GroupId>, role: Role)
    requires Consistent(s) && UniqueRoles(s) && Register(s, id, t, i, asked, role).1.Registered?
    ensures var (s', r) := Register(s, id, t, i, asked, role);
            UniqueRoles(s') <==> !Strays(s, id, i, r.group, r.role)
  {
    var (s', r) := Register(s, id, t, i, asked, role);
    NoneInScope(s, id, t, i, asked, role);
    RegisterShape(s, id, t, i, asked, role);
    GroupOfIs(s, i);
    if r.group.Some? {
      NoAttachConflict(s, i, r.group.value);
    }
    var p := Peer(t, i, r.group, r.role);
    AddedPeers(s, id, p);
    hide Register, Consistent, AttachConflict, GroupOf, AssignedRole, TargetGroup, AddPeer, UniqueRoles, SameScope,
        InScope, Strays;
    if Strays(s, id, i, r.group, r.role) {
      StraySibling(s, s', id, p);
    } else {
      NoStraySibling(s, s', id, p);
    }
  }

  /** The registration asks for a group its Instance is not in while another Peer of the Instance has the role it
      would get. */
  predicate MovesSibling(s: State, id: PeerId, i: InstanceId, asked: Option<GroupId>, role: Role) {
    && asked.Some? && !Lists(s, asked.value, i)
    && exists q :: q in s.peers.at && q != id && s.peers.at[q].instance == i
        && s.peers.at[q].role == AssignedRole(s, id, i, asked, role)
  }

  /** A registration that is accepted leaves roles unique exactly when it does not move a Peer that has its role
      along. */
  lemma {:induction false} RegisterKeepsRoles(s: State, id: PeerId, t: PeerId, i: InstanceId, asked: Option<GroupId>,
      role: Role)
    requires Consistent(s) && UniqueRoles(s) && Register(s, id, t, i, asked, role).1.Registered?
    ensures UniqueRoles(Register(s, id, t, i, asked, role).0) <==> !MovesSibling(s, id, i, asked, role)
  {
    RolesUnlessStraying(s, id, t, i, asked, role);
    RegisterShape(s, id, t, i, asked, role);
    GroupOfIs(s, i);
    hide Register, Consistent, UniqueRoles, AssignedRole, GroupOf, Lists;
  }

  /** The Peers after a registration. */
  function After(s: State, id: PeerId, p: Peer): map<PeerId, Peer> {
    (map k | k in s.peers.at ::
       if p.group.Some? && s.peers.at[k].instance == p.instance then s.peers.at[k].(group := p.group)
           else s.peers.at[k])[id := p]
  }

  lemma AddedPeers(s: State, id: PeerId, p: Peer)
    ensures p.group.Some? ==> Attach(AddPeer(s, id, p), p.instance, p.group.value).peers.at == After(s, id, p)
    ensures p.group.None? ==> AddPeer(s, id, p).peers.at == After(s, id, p)
  {}

  lemma StraySibling(s: State, s': State, id: PeerId, p: Peer)
    requires s'.peers.at == After(s, id, p) && Strays(s, id, p.instance, p.group, p.role)
    requires p.group.None? ==> forall q :: q in s.peers.at && s.peers.at[q].instance == p.instance ==>
        s.peers.at[q].group.None?
    ensures !UniqueRoles(s')
  {
    var q :| q in s.peers.at && q != id && s.peers.at[q].instance == p.instance && s.peers.at[q].group != p.group
        && s.peers.at[q].role == p.role;
    assert s'.peers.at[id] == p && s'.peers.at[q] == s.peers.at[q].(group := p.group);
    assert SameScope(s'.peers.at[id], s'.peers.at[q]);
  }

  lemma NoStraySibling(s: State, s': State, id: PeerId, p: Peer)
    requires s'.peers.at == After(s, id, p) && !Strays(s, id, p.instance, p.group, p.role) && UniqueRoles(s)
    requires forall q :: q in s.peers.at && q != id && InScope(s.peers.at[q], p.instance, p.group) ==>
        s.peers.at[q].role != p.role
    requires forall q, r ::
               q in s.peers.at && r in s.peers.at && s.peers.at[q].instance == p.instance == s.peers.at[r].instance ==>
               s.peers.at[q].group == s.peers.at[r].group
    requires p.group.None? ==> forall q :: q in s.peers.at && s.peers.at[q].instance == p.instance ==>
        s.peers.at[q].group.None?
    requires p.group.Some? ==>
               forall q, r ::
                 (q in s.peers.at && r in s.peers.at && s.peers.at[q].instance == p.instance
                  && s.peers.at[r].instance != p.instance && s.peers.at[r].group == p.group) ==>
                      s.peers.at[q].role != s.peers.at[r].role
    ensures UniqueRoles(s')
  {
    forall a, b | a in s'.peers.at && b in s'.peers.at && a != b && SameScope(s'.peers.at[a], s'.peers.at[b])
      ensures s'.peers.at[a].role != s'.peers.at[b].role {
      if a == id {
        ScopeOf(s, id, p, b);
      } else if b == id {
        ScopeOf(s, id, p, a);
      } else if s.peers.at[a].instance == p.instance && s.peers.at[b].instance == p.instance {
        assert SameScope(s.peers.at[a], s.peers.at[b]);
      } else if s.peers.at[a].instance != p.instance && s.peers.at[b].instance != p.instance {
        assert SameScope(s.peers.at[a], s.peers.at[b]);
      }
    }
  }

  lemma ScopeOf(s: State, id: PeerId, p: Peer, q: PeerId)
    requires q in s.peers.at && q != id && !Strays(s, id, p.instance, p.group, p.role)
    requires SameScope(p, After(s, id, p)[q]) || SameScope(After(s, id, p)[q], p)
    requires forall k :: k in s.peers.at && k != id && InScope(s.peers.at[k], p.instance, p.group) ==>
        s.peers.at[k].role != p.role
    ensures s.peers.at[q].role != p.role
  {}

  const LONE := State(OMap([PeerId("a")], map[PeerId("a") := Peer(PeerId("a"), InstanceId("x"), None, SERVER)]),
      EMPTY.groups)

  lemma LonePeer()
    ensures Register(EMPTY, PeerId("a"), PeerId("a"), InstanceId("x"), None, SERVER) == (LONE, Registered(SERVER, None))
  {
    assert SERVER != CLIENT by { assert "server"[0] != "client"[0]; }
    var (a, x) := (PeerId("a"), InstanceId("x"));
    assert TargetGroup(EMPTY, a, x, None) == None && AliasCollision(EMPTY, a, x, SERVER, None) == None;
    assert AssignedRole(EMPTY, a, x, None, SERVER) == SERVER && Find(EMPTY, Holding(a, x, None, SERVER)) == None;
    assert AddPeer(EMPTY, a, Peer(a, x, None, SERVER)) == LONE;
  }

  /** Two Peers of one Instance, the second asking for a group the first is not in, may end up with one role. */
  lemma {:induction false} StrayingRegistration()
    ensures Run([RegisterEvent(PeerId("a"), PeerId("a"), InstanceId("x"), None, SERVER)]) == LONE && UniqueRoles(LONE)
    ensures var (s', r) := Register(LONE, PeerId("b"), PeerId("b"), InstanceId("x"), Some(GroupId("g")), SERVER);
            r == Registered(SERVER, Some(GroupId("g"))) && !UniqueRoles(s')
  {
    var x, g := InstanceId("x"), GroupId("g");
    var (a, b) := (PeerId("a"), PeerId("b"));
    LonePeer();
    assert Run([RegisterEvent(a, a, x, None, SERVER)]) == LONE by {
      hide Register;
      assert [RegisterEvent(a, a, x, None, SERVER)][..0] == [];
    }
    StrayJoins();
    hide Register, Run;
    var (s', r) := Register(LONE, b, b, x, Some(g), SERVER);
    assert a != b by { assert "a"[0] != "b"[0]; }
    assert SameScope(s'.peers.at[a], s'.peers.at[b]);
  }

  lemma StrayJoins()
    ensures var (s', r) := Register(LONE, PeerId("b"), PeerId("b"), InstanceId("x"), Some(GroupId("g")), SERVER);
            && r == Registered(SERVER, Some(GroupId("g")))
            && s'.peers.at == map[PeerId("a") := Peer(PeerId("a"), InstanceId("x"), Some(GroupId("g")), SERVER),
                                  PeerId("b") := Peer(PeerId("b"), InstanceId("x"), Some(GroupId("g")), SERVER)]
  {
    var x, g := InstanceId("x"), GroupId("g");
    assert PeerId("a") != PeerId("b") by { assert "a"[0] != "b"[0]; }
    assert SERVER != CLIENT by { assert "server"[0] != "client"[0]; }
    assert Alias(x, SERVER) != x by { assert |Alias(x, SERVER).text| > 1; }
    assert AttachConflict(LONE, x, g).None?;
    var b := PeerId("b");
    assert AliasCollision(LONE, b, x, SERVER, Some(g)).None?;
    assert TargetGroup(LONE, b, x, Some(g)) == Some(g) && AssignedRole(LONE, b, x, Some(g), SERVER) == SERVER;
    assert Find(LONE, Holding(b, x, Some(g), SERVER)).None? by {
      assert LONE.peers.order == [PeerId("a")] && !InScope(LONE.peers.at[PeerId("a")], x, Some(g));
      assert !Holding(b, x, Some(g), SERVER)(PeerId("a"), LONE.peers.at[PeerId("a")]);
    }
    hide AliasCollision, AttachConflict, Find;
  }

  // ---------- New clients ----------

  /** A client gets the least ordinal no Peer of its scope uses, or keeps its own, and is never refused as a
      duplicate of its scope. */
  lemma {:induction false} ClientGetsFreeOrdinal(s: State, id: PeerId, t: PeerId, i: InstanceId, asked: Option<GroupId>)
    requires s.peers.Valid() && Register(s, id, t, i, asked, CLIENT).1.Registered?
    ensures var r := Register(s, id, t, i, asked, CLIENT).1;
            var used := UsedOrdinals(s, id, i, r.group);
            && Ordinal(r.role).Some? && Ordinal(r.role).value !in used
            && (id in s.peers.at && Ordinal(s.peers.at[id].role).Some?
                && Ordinal(s.peers.at[id].role).value !in used ==>
                  r.role == s.peers.at[id].role)
            && (!(id in s.peers.at && r.role == s.peers.at[id].role) ==>
                  1 <= Ordinal(r.role).value && forall k: nat :: 1 <= k < Ordinal(r.role).value ==> k in used)
  {
    var r := Register(s, id, t, i, asked, CLIENT).1;
    RegisterShape(s, id, t, i, asked, CLIENT);
    var used := UsedOrdinals(s, id, i, r.group);
    hide Register, UsedOrdinals, TargetGroup, Ordinal, ClientRole;
    LeastFreeIs(used, 1);
    OrdinalOfClient(LeastFree(used, 1));
  }

  lemma GrantedIsFree(s: State, id: PeerId, i: InstanceId, g: Option<GroupId>)
    requires s.peers.Valid()
    ensures Find(s, Holding(id, i, g, AssignedRole(s, id, i, g, CLIENT))).None?
  {
    var granted := AssignedRole(s, id, i, g, CLIENT);
    var used := UsedOrdinals(s, id, i, g);
    LeastFreeIs(used, 1);
    OrdinalOfClient(LeastFree(used, 1));
    assert Ordinal(granted).Some? && Ordinal(granted).value !in used;
    hide AssignedRole, NoDup, Ordinal;
    forall k | k in s.peers.at && k != id && InScope(s.peers.at[k], i, g) ensures s.peers.at[k].role != granted {
      if Ordinal(s.peers.at[k].role).Some? {
        assert Ordinal(s.peers.at[k].role).value in used;
      }
    }
  }

  /** A client is refused as a duplicate only because its Instance's other Peers may not join the group. */
  lemma {:induction false} ClientNeverDuplicate(s: State, id: PeerId, t: PeerId, i: InstanceId, asked: Option<GroupId>)
    requires s.peers.Valid() && Register(s, id, t, i, asked, CLIENT).1.DuplicateRole?
    ensures var g := TargetGroup(s, id, i, asked);
            g.Some? && AttachConflict(s, i, g.value) == Some(Register(s, id, t, i, asked, CLIENT).1.existing)
  {
    GrantedIsFree(s, id, i, TargetGroup(s, id, i, asked));
    hide AssignedRole, AliasCollision, AttachConflict, Attach, TargetGroup, NoDup, Find;
  }

  // ---------- Runs ----------

  lemma {:induction false} UnregisterAllKeeps(s: State, ids: seq<PeerId>)
    requires Consistent(s)
    ensures Consistent(UnregisterAll(s, ids)) && (UniqueRoles(s) ==> UniqueRoles(UnregisterAll(s, ids)))
    ensures FewerPeers(s, UnregisterAll(s, ids))
    ensures forall p :: p in ids ==> p !in UnregisterAll(s, ids).peers.at
  {
    if ids != [] {
      var n := |ids| - 1;
      var r := UnregisterAll(s, ids[..n]);
      assert ids == ids[..n] + [ids[n]];
      hide Consistent, UniqueRoles, Unregister;
      UnregisterAllKeeps(s, ids[..n]);
      UnregisterKeeps(r, ids[n]);
      if UniqueRoles(s) {
        UnregisterKeepsRoles(r, ids[n]);
      }
      if ids[n] in r.peers.at {
        assert ids[n] !in Unregister(r, ids[n]).peers.at;
      }
    }
  }

  /** Removing a group no runtime Peer uses never fails. */
  lemma {:induction false} RemoveUnusedKeeps(s: State, groups: seq<GroupId>)
    requires Consistent(s)
    ensures Consistent(RemoveUnused(s, groups)) && (UniqueRoles(s) ==> UniqueRoles(RemoveUnused(s, groups)))
    ensures forall g :: !InUse(s, g) ==> RemoveGroup(s, g).Some?
  {
    if groups != [] {
      var n := |groups| - 1;
      var r := RemoveUnused(s, groups[..n]);
      hide Consistent, UniqueRoles, InUse;
      RemoveUnusedKeeps(s, groups[..n]);
      if RemoveGroup(r, groups[n]).Some? {
        RemoveGroupKeeps(r, groups[n]);
        if UniqueRoles(s) {
          RemoveGroupKeepsRoles(r, groups[n]);
        }
      }
    }
  }

  lemma {:induction false} PeersOfAre(order: seq<PeerId>, at: map<PeerId, Peer>, i: InstanceId)
    ensures forall k :: k in PeersOf(order, at, i) <==> k in order && k in at && at[k].instance == i
  {
    if order != [] {
      var n := |order| - 1;
      assert order == order[..n] + [order[n]];
      PeersOfAre(order[..n], at, i);
    }
  }

  lemma {:induction false} UnregisterInstanceKeeps(s: State, i: InstanceId)
    requires Consistent(s)
    ensures Consistent(UnregisterInstance(s, i)) && (UniqueRoles(s) ==> UniqueRoles(UnregisterInstance(s, i)))
  {
    var ids := PeersOf(s.peers.order, s.peers.at, i);
    var left := UnregisterAll(s, ids);
    UnregisterAllKeeps(s, ids);
    PeersOfAre(s.peers.order, s.peers.at, i);
    assert !Connected(left, i);
    hide NoDup, UnregisterAll, PeersOf;
    DepartKeeps(left, i);
    assert Depart(left, i) == left.(groups := Detached(left.groups, i, None));
    RemoveUnusedKeeps(Depart(left, i), Departing(ids, s.peers.at));
    hide Consistent, Detached, Departing, RemoveUnused;
    assert UniqueRoles(left) ==> UniqueRoles(Depart(left, i));
  }

  /** The Peer is unregistered itself, or with its transport when that is its own transport. */
  predicate Leaves(s: State, ids: seq<PeerId>, p: PeerId)
    requires p in s.peers.at
  {
    var t := s.peers.at[p].transport;
    p in ids || (t in ids && t in s.peers.at && s.peers.at[t].transport == t)
  }

  lemma {:induction false} UnregisterAllTakes(s: State, ids: seq<PeerId>)
    requires Consistent(s)
    ensures forall p :: p in s.peers.at ==> (p !in UnregisterAll(s, ids).peers.at <==> Leaves(s, ids, p))
  {
    if ids != [] {
      var n := |ids| - 1;
      var r := UnregisterAll(s, ids[..n]);
      assert ids == ids[..n] + [ids[n]];
      hide Consistent, Unregister;
      UnregisterAllTakes(s, ids[..n]);
      UnregisterAllKeeps(s, ids[..n]);
      UnregisterKeeps(r, ids[n]);
    }
  }

  lemma UngroupedUse(s: State, g: GroupId, h: GroupId)
    requires RemoveGroup(s, h).Some? && g != h
    ensures InUse(RemoveGroup(s, h).value, g) <==> InUse(s, g)
  {
    var s' := RemoveGroup(s, h).value;
    if InUse(s, g) {
      var p :| p in s.peers.at && s.peers.at[p].group == Some(g) && IsRuntime(s.peers.at[p].role);
      assert p in s'.peers.at && s'.peers.at[p] == s.peers.at[p];
    }
  }

  /** Of the groups listed exactly the unused ones go; the Peers stay. */
  lemma {:induction false} RemoveUnusedTakes(s: State, groups: seq<GroupId>)
    ensures RemoveUnused(s, groups).peers.at.Keys == s.peers.at.Keys
    ensures forall g :: g in RemoveUnused(s, groups).groups.at <==> g in s.groups.at && (g in groups ==> InUse(s, g))
    ensures forall g :: InUse(RemoveUnused(s, groups), g) ==> InUse(s, g)
    ensures forall g :: InUse(s, g) ==> InUse(RemoveUnused(s, groups), g)
  {
    if groups != [] {
      var n := |groups| - 1;
      var r, h := RemoveUnused(s, groups[..n]), groups[n];
      assert groups == groups[..n] + [h];
      RemoveUnusedTakes(s, groups[..n]);
      if !InUse(r, h) {
        var r' := RemoveGroup(r, h).value;
        UnusedTaken(r, h);
        forall g | g != h ensures InUse(r', g) <==> InUse(r, g) {
          UngroupedUse(r, g, h);
        }
      }
      hide InUse, RemoveGroup;
    }
  }

  lemma UnusedTaken(s: State, h: GroupId)
    requires !InUse(s, h)
    ensures RemoveGroup(s, h).Some? && RemoveGroup(s, h).value.peers.at.Keys == s.peers.at.Keys
    ensures forall g :: g in RemoveGroup(s, h).value.groups.at <==> g in s.groups.at && g != h
    ensures !InUse(RemoveGroup(s, h).value, h)
  {}

  lemma {:induction false} DepartingAre(ids: seq<PeerId>, at: map<PeerId, Peer>)
    ensures forall p :: p in ids && p in at && at[p].group.Some? && IsRuntime(at[p].role) ==>
        at[p].group.value in Departing(ids, at)
  {
    if ids != [] {
      var n := |ids| - 1;
      assert ids == ids[..n] + [ids[n]];
      DepartingAre(ids[..n], at);
    }
  }

  /** Unregistering an Instance takes exactly its Peers and those that depend on them for transport, and leaves no
      group that a runtime Peer of the Instance was in without a runtime Peer. */
  lemma {:induction false} UnregisterInstanceTakes(s: State, i: InstanceId)
    requires Consistent(s)
    ensures var s' := UnregisterInstance(s, i);
            && s'.peers.at.Keys <= s.peers.at.Keys
            && (forall p :: p in s.peers.at ==>
                  (p !in s'.peers.at <==>
                     || s.peers.at[p].instance == i
                     || (var t := s.peers.at[p].transport;
                         t in s.peers.at && s.peers.at[t].instance == i && s.peers.at[t].transport == t)))
            && (forall p ::
                  p in s.peers.at && s.peers.at[p].instance == i && s.peers.at[p].group.Some? &&
                  IsRuntime(s.peers.at[p].role) ==>
                  (s.peers.at[p].group.value in s'.groups.at ==> InUse(s', s.peers.at[p].group.value)))
  {
    var ids := PeersOf(s.peers.order, s.peers.at, i);
    var left := UnregisterAll(s, ids);
    var apart := left.(groups := Detached(left.groups, i, None));
    PeersOfAre(s.peers.order, s.peers.at, i);
    assert forall p :: p in ids <==> p in s.peers.at && s.peers.at[p].instance == i;
    hide Consistent, NoDup, UnregisterAll, PeersOf, Departing, Detached, RemoveUnused, InUse;
    UnregisterAllKeeps(s, ids);
    UnregisterAllTakes(s, ids);
    DepartingAre(ids, s.peers.at);
    RemoveUnusedTakes(apart, Departing(ids, s.peers.at));
  }

  /** The event does not move a Peer with the role it gives out; a refused registration moves none. */
  predicate Settled(s: State, e: Event) {
    e.RegisterEvent? && Register(s, e.id, e.transport, e.instance, e.asked, e.role).1.Registered? ==>
      !MovesSibling(s, e.id, e.instance, e.asked, e.role)
  }

  lemma StepKeeps(s: State, e: Event)
    requires Consistent(s)
    ensures Consistent(Apply(s, e)) && (UniqueRoles(s) && Settled(s, e) ==> UniqueRoles(Apply(s, e)))
  {
    match e
    case RegisterEvent(id, t, i, asked, role) =>
      RegisterKeeps(s, id, t, i, asked, role);
      RegisterShape(s, id, t, i, asked, role);
      hide Register, Consistent, UniqueRoles, MovesSibling;
      if UniqueRoles(s) && Register(s, id, t, i, asked, role).1.Registered? {
        RegisterKeepsRoles(s, id, t, i, asked, role);
      }
    case CreateEvent(g, controller) =>
      CreateGroupKeeps(s, g, controller);
      if UniqueRoles(s) && CreateGroup(s, g, controller).Some? {
        CreateGroupKeepsRoles(s, g, controller);
      }
      hide CreateGroup, Consistent, UniqueRoles;
    case RemoveEvent(g) =>
      hide RemoveGroup, Consistent, UniqueRoles;
      if RemoveGroup(s, g).Some? {
        RemoveGroupKeeps(s, g);
        if UniqueRoles(s) {
          RemoveGroupKeepsRoles(s, g);
        }
      }
    case UnregisterEvent(id) =>
      hide Unregister, Consistent, UniqueRoles;
      UnregisterKeeps(s, id);
      if UniqueRoles(s) {
        UnregisterKeepsRoles(s, id);
      }
    case UnregisterInstanceEvent(i) =>
      hide UnregisterInstance, Consistent, UniqueRoles;
      UnregisterInstanceKeeps(s, i);
  }

  /** The registry is consistent after every run. */
  lemma {:induction false} RunIsConsistent(events: seq<Event>)
    ensures Consistent(Run(events))
  {
    if events != [] {
      var n := |events| - 1;
      RunIsConsistent(events[..n]);
      hide Consistent, Apply;
      StepKeeps(Run(events[..n]), events[n]);
    }
  }

  /** Roles are unique in every scope after every run whose registrations move no Peer that holds the role given out. */
  lemma {:induction false} RunKeepsRolesUnique(events: seq<Event>)
    requires forall k :: 0 <= k < |events| ==> Settled(Run(events[..k]), events[k])
    ensures UniqueRoles(Run(events))
  {
    if events != [] {
      var n := |events| - 1;
      RunIsConsistent(events[..n]);
      forall k | 0 <= k < n ensures Settled(Run(events[..n][..k]), events[..n][k]) {
        assert events[..n][..k] == events[..k];
      }
      RunKeepsRolesUnique(events[..n]);
      assert Settled(Run(events[..n]), events[n]);
      assert Run(events) == Apply(Run(events[..n]), events[n]);
      hide Consistent, Apply, Settled, UniqueRoles, Run;
      StepKeeps(Run(events[..n]), events[n]);
    }
  }
}
