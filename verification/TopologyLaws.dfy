/**
 What each event does to Peers and groups, in terms of the registry it finds:
 who may not register and why, who moves, who leaves, and what stays.
 */
module TopologyLaws {
  import opened Common
  import opened OrderedMaps
  import opened Topology
  import opened TopologyRuns

  // ---------- Roles ----------

  predicate IsClientText(text: string, digits: string) {
    text == "client-" + digits && digits != [] && forall c :: c in digits ==> '0' <= c <= '9'
  }

  ghost predicate Runtime(role: Role) {
    role.text == "server" || exists digits :: IsClientText(role.text, digits)
  }

  /** A client's ordinal is the number after the hyphen, and only such roles have one. */
  lemma {:induction false} OrdinalLaw(role: Role)
    ensures Ordinal(role).Some? <==> exists digits :: IsClientText(role.text, digits)
    ensures forall digits :: IsClientText(role.text, digits) ==> Ordinal(role) == Some(Number(digits))
    ensures IsRuntime(role) <==> Runtime(role)
  {
    var t := role.text;
    if Ordinal(role).Some? {
      assert t == t[..7] + t[7..];
      assert IsClientText(t, t[7..]);
    }
    forall digits | IsClientText(t, digits) ensures Ordinal(role) == Some(Number(digits)) {
      assert t[..7] == "client-" && t[7..] == digits;
    }
  }

  // ---------- Who stands in the way ----------

  /** The routing scope of a registration: its group, or its Instance's Peers outside groups. */
  predicate Shares(p: Peer, i: InstanceId, g: Option<GroupId>) {
    (g.Some? && p.group == g) || (g.None? && p.group.None? && p.instance == i)
  }

  /** Peers of other Instances in the group with a role that a Peer of this Instance has. */
  function Rivals(s: State, i: InstanceId, g: GroupId): set<PeerId> {
    set k | k in s.peers.at && s.peers.at[k].instance != i && s.peers.at[k].group == Some(g)
        && exists p :: p in s.peers.at && s.peers.at[p].instance == i && s.peers.at[p].role == s.peers.at[k].role
  }

  /** Grouped runtime Peers that go by this Instance's name. */
  ghost function NameTakers(s: State, id: PeerId, i: InstanceId): set<PeerId> {
    set k | k in s.peers.at && k != id && s.peers.at[k].group.Some? && Runtime(s.peers.at[k].role)
        && s.peers.at[k].instance.text + "-" + s.peers.at[k].role.text == i.text
  }

  /** Peers of the Instance whose name the new Peer would go by. */
  function NameHolders(s: State, id: PeerId, i: InstanceId, role: Role): set<PeerId> {
    set k | k in s.peers.at && k != id && s.peers.at[k].instance.text == i.text + "-" + role.text
  }

  /** Other Peers of the scope with the role. */
  function RoleHolders(s: State, id: PeerId, i: InstanceId, g: Option<GroupId>, role: Role): set<PeerId> {
    set k | k in s.peers.at && k != id && Shares(s.peers.at[k], i, g) && s.peers.at[k].role == role
  }

  /** The first of these Peers to have registered. */
  ghost predicate FirstOf(s: State, k: PeerId, ks: set<PeerId>) {
    exists n: nat :: FirstAt(s.peers.order, n, k, ks)
  }

  ghost predicate FirstAt(order: seq<PeerId>, n: nat, k: PeerId, ks: set<PeerId>) {
    n < |order| && order[n] == k && k in ks && forall m :: 0 <= m < n ==> order[m] !in ks
  }

  lemma {:induction false} FirstPeerAt(order: seq<PeerId>, at: map<PeerId, Peer>, wanted: (PeerId, Peer) -> bool,
      ks: set<PeerId>) returns (n: nat)
    requires forall k :: k in order ==> k in at
    requires forall k :: k in at ==> (k in ks <==> wanted(k, at[k]))
    ensures var p := FirstPeer(order, at, wanted);
            && (p.Some? ==> FirstAt(order, n, p.value, ks))
            && (p.None? ==> forall k :: k in order ==> k !in ks)
  {
    n := 0;
    if order != [] && !wanted(order[0], at[order[0]]) {
      var m := FirstPeerAt(order[1..], at, wanted, ks);
      assert order == [order[0]] + order[1..];
      assert forall x :: 0 < x < m + 1 && x < |order| ==> order[x] == order[1..][x - 1];
      n := m + 1;
    }
  }

  /** Looking for the first Peer with a property finds the first of those that have it, if there are any. */
  lemma FindsFirst(s: State, wanted: (PeerId, Peer) -> bool, ks: set<PeerId>)
    requires s.peers.Valid()
    requires forall k :: k in ks ==> k in s.peers.at
    requires forall k :: k in s.peers.at ==> (k in ks <==> wanted(k, s.peers.at[k]))
    ensures Find(s, wanted).None? <==> ks == {}
    ensures Find(s, wanted).Some? ==> FirstOf(s, Find(s, wanted).value, ks)
  {
    var n := FirstPeerAt(s.peers.order, s.peers.at, wanted, ks);
    assert forall k :: k in ks ==> k in s.peers.order;
    assert ks != {} ==> exists k :: k in ks;
  }

  lemma FindsRivals(s: State, i: InstanceId, g: GroupId)
    requires s.peers.Valid()
    ensures AttachConflict(s, i, g).None? <==> Rivals(s, i, g) == {}
    ensures AttachConflict(s, i, g).Some? ==> FirstOf(s, AttachConflict(s, i, g).value, Rivals(s, i, g))
  {
    hide NoDup, FirstOf, Find;
    FindsFirst(s, Conflicting(i, g, RolesOf(s, i)), Rivals(s, i, g));
  }

  lemma FindsNames(s: State, id: PeerId, i: InstanceId, role: Role, g: Option<GroupId>)
    requires s.peers.Valid()
    ensures var c := AliasCollision(s, id, i, role, g);
            if NameTakers(s, id, i) != {} then c.Some? && FirstOf(s, c.value, NameTakers(s, id, i))
            else if g.Some? && Runtime(role) && NameHolders(s, id, i, role) != {}
            then c.Some? && FirstOf(s, c.value, NameHolders(s, id, i, role))
            else c.None?
  {
    forall r: Role ensures IsRuntime(r) <==> Runtime(r) {
      OrdinalLaw(r);
    }
    hide NoDup, FirstOf, Find, Runtime, IsRuntime;
    FindsFirst(s, Aliased(id, i), NameTakers(s, id, i));
    FindsFirst(s, Named(id, Alias(i, role)), NameHolders(s, id, i, role));
  }

  lemma FindsHolders(s: State, id: PeerId, i: InstanceId, g: Option<GroupId>, role: Role)
    requires s.peers.Valid()
    ensures Find(s, Holding(id, i, g, role)).None? <==> RoleHolders(s, id, i, g, role) == {}
    ensures Find(s, Holding(id, i, g, role)).Some? ==>
              FirstOf(s, Find(s, Holding(id, i, g, role)).value, RoleHolders(s, id, i, g, role))
  {
    hide NoDup, FirstOf, Find;
    FindsFirst(s, Holding(id, i, g, role), RoleHolders(s, id, i, g, role));
  }

  // ---------- Registration ----------

  /** The group joined: the one asked for, or the one that lists the Instance. */
  ghost predicate Joins(s: State, i: InstanceId, asked: Option<GroupId>, g: Option<GroupId>) {
    if asked.Some? then g == asked
    else if g.Some? then Lists(s, g.value, i)
    else forall h :: !Lists(s, h, i)
  }

  /** Another Peer of the scope is the client with this ordinal. */
  predicate Taken(s: State, id: PeerId, i: InstanceId, g: Option<GroupId>, n: nat) {
    exists k :: k in s.peers.at && k != id && Shares(s.peers.at[k], i, g) && Ordinal(s.peers.at[k].role) == Some(n)
  }

  /** The role given: the one asked for; a client keeps its own ordinal or gets the least that is not taken. */
  ghost predicate Given(s: State, id: PeerId, i: InstanceId, g: Option<GroupId>, role: Role, granted: Role) {
    if role.text != "client" then granted == role
    else if id in s.peers.at && Ordinal(s.peers.at[id].role).Some?
            && !Taken(s, id, i, g, Ordinal(s.peers.at[id].role).value) then granted == s.peers.at[id].role
    else exists n: nat ::
        && n >= 1 && granted.text == "client-" + Decimal(n) && !Taken(s, id, i, g, n)
        && forall m: nat :: 1 <= m < n ==> Taken(s, id, i, g, m)
  }

  lemma GivenIs(s: State, id: PeerId, i: InstanceId, g: Option<GroupId>, role: Role)
    ensures Given(s, id, i, g, role, AssignedRole(s, id, i, g, role))
  {
    var used := UsedOrdinals(s, id, i, g);
    forall n: nat ensures n in used <==> Taken(s, id, i, g, n) {}
    assert role != CLIENT <==> role.text != "client" by {
      assert role == Role(role.text);
    }
    LeastFreeIs(used, 1);
    hide UsedOrdinals, Ordinal, Taken;
    var n := LeastFree(used, 1);
    assert ClientRole(n).text == "client-" + Decimal(n);
  }

  /** The refusals, in their order, or the registration. */
  ghost predicate Decides(s: State, id: PeerId, i: InstanceId, g: Option<GroupId>, granted: Role, r: Registration) {
    if g.Some? && Rivals(s, i, g.value) != {} then
      r.DuplicateRole? && FirstOf(s, r.existing, Rivals(s, i, g.value))
    else if NameTakers(s, id, i) != {} then
      r.AliasClash? && FirstOf(s, r.existing, NameTakers(s, id, i))
    else if g.Some? && Runtime(granted) && NameHolders(s, id, i, granted) != {} then
      r.AliasClash? && FirstOf(s, r.existing, NameHolders(s, id, i, granted))
    else if RoleHolders(s, id, i, g, granted) != {} then
      r.DuplicateRole? && FirstOf(s, r.existing, RoleHolders(s, id, i, g, granted))
    else r == Registered(granted, g)
  }

  /** A group keeps its controller for as long as the controller is a member. */
  ghost predicate ControllersKept(s: State, s': State) {
    forall h :: h in s.groups.at && h in s'.groups.at ==>
      var c := s.groups.at[h].controller;
      s'.groups.at[h].controller == if c.Some? && !Lists(s', h, c.value) then None else c
  }

  /** Instance i is in group g alone, and every other membership is as it was. */
  ghost predicate Moves(s: State, i: InstanceId, g: GroupId, s': State) {
    forall h, j :: Lists(s', h, j) <==> if j == i then h == g else Lists(s, h, j)
  }

  /** The Peers after a registration. */
  ghost predicate PeerAdded(s: State, id: PeerId, t: PeerId, i: InstanceId, g: Option<GroupId>, role: Role, s': State) {
    && s'.peers.order == (if id in s.peers.at then s.peers.order else s.peers.order + [id])
    && s'.peers.at.Keys == s.peers.at.Keys + {id} && s'.peers.at[id] == Peer(t, i, g, role)
    && (forall k :: k in s.peers.at && k != id ==>
          s'.peers.at[k] == if g.Some? && s.peers.at[k].instance == i then s.peers.at[k].(group := g)
                            else s.peers.at[k])
  }

  /** The Peer is there with its role and group; the Instance's other Peers go with it, and no other Peer changes. */
  ghost predicate Registers(s: State, id: PeerId, t: PeerId, i: InstanceId, g: Option<GroupId>, role: Role, s': State) {
    && PeerAdded(s, id, t, i, g, role, s')
    && (if g.Some? then Moves(s, i, g.value, s') else s'.groups == s.groups)
    && ControllersKept(s, s')
    && (forall h :: h in s'.groups.at && h !in s.groups.at ==> s'.groups.at[h].controller.None?)
  }

  lemma ShedController(g: Group, i: InstanceId)
    requires SoundGroup(g)
    ensures var n := Shed(g, i);
            && n.controller == (if g.controller.Some? && g.controller.value !in n.instances then None else g.controller)
  {
    WithoutMembers(g.instances, {i});
    hide Without;
  }

  lemma DetachedControllers(s: State, i: InstanceId, keep: Option<GroupId>)
    requires Consistent(s)
    ensures ControllersKept(s, s.(groups := Detached(s.groups, i, keep)))
  {
    var s' := s.(groups := Detached(s.groups, i, keep));
    forall h | h in s.groups.at && h in s'.groups.at
      ensures var c := s.groups.at[h].controller;
              s'.groups.at[h].controller == if c.Some? && !Lists(s', h, c.value) then None else c
    {
      assert SoundGroup(s.groups.at[h]);
      ShedController(s.groups.at[h], i);
      hide Without, Consistent, Shed;
    }
  }

  lemma JoinedShape(groups: OMap<GroupId, Group>, i: InstanceId, g: GroupId)
    ensures var m := Joined(groups, i, g);
            && g in m.at
            && (forall h :: h != g ==> (h in m.at <==> h in groups.at) && (h in groups.at ==> m.at[h] == groups.at[h]))
            && (if g in groups.at
                then && m.at[g].controller == groups.at[g].controller
                     && forall k :: k in groups.at[g].instances ==> k in m.at[g].instances
                else m.at[g].controller.None?)
  {}

  lemma DetachedShape(groups: OMap<GroupId, Group>, i: InstanceId, g: GroupId)
    ensures var m := Detached(groups, i, Some(g));
            && (g in m.at <==> g in groups.at) && (g in groups.at ==> m.at[g] == groups.at[g])
            && forall h :: h in m.at ==> h in groups.at
  {}

  lemma ControllersAreMembers(s: State)
    requires Consistent(s)
    ensures forall h :: h in s.groups.at && s.groups.at[h].controller.Some? ==>
              Lists(s, h, s.groups.at[h].controller.value)
  {
    assert forall h :: h in s.groups.at ==> SoundGroup(s.groups.at[h]);
  }

  lemma AttachControllers(s: State, i: InstanceId, g: GroupId)
    requires Consistent(s)
    ensures var s' := s.(groups := Joined(Detached(s.groups, i, Some(g)), i, g));
            && ControllersKept(s, s')
            && (forall h :: h in s'.groups.at && h !in s.groups.at ==> s'.groups.at[h].controller.None?)
  {
    var s1 := s.(groups := Detached(s.groups, i, Some(g)));
    var s' := s.(groups := Joined(s1.groups, i, g));
    DetachedControllers(s, i, Some(g));
    DetachedShape(s.groups, i, g);
    JoinedShape(s1.groups, i, g);
    ControllersAreMembers(s);
    hide Consistent, Detached, Joined;
    forall h | h in s.groups.at && h in s'.groups.at
      ensures var c := s.groups.at[h].controller;
              s'.groups.at[h].controller == if c.Some? && !Lists(s', h, c.value) then None else c {
      if h != g {
        assert h in s1.groups.at && s'.groups.at[h] == s1.groups.at[h];
      }
    }
  }

  lemma AttachMoves(s: State, i: InstanceId, g: GroupId)
    ensures Moves(s, i, g, Attach(s, i, g))
  {
    forall h, j ensures Lists(Attach(s, i, g), h, j) <==> if j == i then h == g else Lists(s, h, j) {
      AttachedLists(s, i, g, h, j);
    }
    hide Attach;
  }

  lemma SameControllers(s: State, a: State, b: State, s': State)
    requires ControllersKept(a, b) && a.groups == s.groups && b.groups == s'.groups
    ensures ControllersKept(s, s')
  {}

  lemma PeerIsAdded(s: State, id: PeerId, t: PeerId, i: InstanceId, g: Option<GroupId>, role: Role)
    ensures var added := AddPeer(s, id, Peer(t, i, g, role));
            PeerAdded(s, id, t, i, g, role, if g.Some? then Attach(added, i, g.value) else added)
    ensures AddPeer(s, id, Peer(t, i, g, role)).groups == s.groups
  {
    hide Joined, Detached;
  }

  lemma SameMoves(s: State, a: State, i: InstanceId, g: GroupId, s': State)
    requires a.groups == s.groups && Moves(a, i, g, s')
    ensures Moves(s, i, g, s')
  {}

  lemma MovedIn(s: State, added: State, i: InstanceId, g: GroupId)
    requires Consistent(s) && added.groups == s.groups
    ensures var s' := Attach(added, i, g);
            && Moves(s, i, g, s') && ControllersKept(s, s')
            && (forall h :: h in s'.groups.at && h !in s.groups.at ==> s'.groups.at[h].controller.None?)
  {
    var s', m := Attach(added, i, g), s.(groups := Joined(Detached(s.groups, i, Some(g)), i, g));
    assert s'.groups == m.groups;
    hide *;
    AttachControllers(s, i, g);
    AttachMoves(added, i, g);
    SameMoves(s, added, i, g, s');
    SameControllers(s, s, m, s');
  }

  lemma NothingMoved(s: State, added: State)
    requires Consistent(s) && added.groups == s.groups
    ensures ControllersKept(s, added)
  {
    assert forall h :: h in s.groups.at ==> SoundGroup(s.groups.at[h]);
  }

  lemma RegisteredShape(s: State, id: PeerId, t: PeerId, i: InstanceId, g: Option<GroupId>, role: Role)
    requires Consistent(s)
    ensures var added := AddPeer(s, id, Peer(t, i, g, role));
            Registers(s, id, t, i, g, role, if g.Some? then Attach(added, i, g.value) else added)
  {
    var added := AddPeer(s, id, Peer(t, i, g, role));
    PeerIsAdded(s, id, t, i, g, role);
    hide Consistent, AddPeer, Attach, PeerAdded, Moves, ControllersKept;
    if g.Some? {
      MovedIn(s, added, i, g.value);
    } else {
      NothingMoved(s, added);
    }
  }

  lemma TargetJoins(s: State, id: PeerId, i: InstanceId, asked: Option<GroupId>)
    requires Consistent(s) && (id in s.peers.at ==> s.peers.at[id].instance == i)
    ensures Joins(s, i, asked, TargetGroup(s, id, i, asked))
  {
    GroupOfIs(s, i);
    hide Consistent, GroupOf, Lists;
    assert GroupOf(s, i).None? ==> forall h :: !Lists(s, h, i);
  }

  lemma RegisterDecides(s: State, id: PeerId, t: PeerId, i: InstanceId, asked: Option<GroupId>, role: Role)
    requires s.peers.Valid() && !(id in s.peers.at && (s.peers.at[id].instance != i || s.peers.at[id].transport != t))
    ensures var g := TargetGroup(s, id, i, asked);
            Decides(s, id, i, g, AssignedRole(s, id, i, g, role), Register(s, id, t, i, asked, role).1)
  {
    var g := TargetGroup(s, id, i, asked);
    var granted := AssignedRole(s, id, i, g, role);
    hide NoDup, TargetGroup, AssignedRole, AliasCollision, AttachConflict, Find, FirstOf, Runtime, Rivals, NameTakers,
      NameHolders, RoleHolders, Attach;
    if g.Some? {
      FindsRivals(s, i, g.value);
    }
    FindsNames(s, id, i, granted, g);
    FindsHolders(s, id, i, g, granted);
  }

  /** Every registration: why it is refused, in the order of the reasons, or what it changes. */
  lemma {:induction false} RegistrationLaw(s: State, id: PeerId, t: PeerId, i: InstanceId, asked: Option<GroupId>,
      role: Role)
    requires Consistent(s)
    ensures var (s', r) := Register(s, id, t, i, asked, role);
            && (if id in s.peers.at && (s.peers.at[id].instance != i || s.peers.at[id].transport != t)
                then r == IdentityMismatch
                else exists g, granted ::
                  && Joins(s, i, asked, g) && Given(s, id, i, g, role, granted)
                  && Decides(s, id, i, g, granted, r))
            && if r.Registered? then Registers(s, id, t, i, r.group, r.role, s') else s' == s
  {
    var (s', r) := Register(s, id, t, i, asked, role);
    var g := TargetGroup(s, id, i, asked);
    var granted := AssignedRole(s, id, i, g, role);
    RegisterShape(s, id, t, i, asked, role);
    PeersValid(s);
    hide Consistent, AssignedRole, TargetGroup, Decides, Given, Joins, Registers, AddPeer, Attach, AliasCollision, Find,
      AttachConflict;
    if r.Registered? {
      RegisteredShape(s, id, t, i, r.group, r.role);
    }
    if !(id in s.peers.at && (s.peers.at[id].instance != i || s.peers.at[id].transport != t)) {
      TargetJoins(s, id, i, asked);
      GivenIs(s, id, i, g, role);
      RegisterDecides(s, id, t, i, asked, role);
    }
  }

  lemma PeersValid(s: State)
    requires Consistent(s)
    ensures s.peers.Valid()
  {}

  // ---------- Groups ----------

  /** The Peers of Instance i are in group g, and no other Peer changes. */
  ghost predicate PeersFollow(s: State, i: InstanceId, g: GroupId, s': State) {
    && s'.peers.order == s.peers.order && s'.peers.at.Keys == s.peers.at.Keys
    && forall k :: k in s.peers.at ==>
         s'.peers.at[k] == if s.peers.at[k].instance == i then s.peers.at[k].(group := Some(g)) else s.peers.at[k]
  }

  /** Creating a group is refused exactly when a Peer of another Instance in it has a role of the controller's Peers;
      otherwise the controller is in it, and in no other, with its Peers, and controls it. */
  lemma {:induction false} CreateLaw(s: State, g: GroupId, controller: InstanceId)
    requires Consistent(s)
    ensures var s' := Apply(s, CreateEvent(g, controller));
            if Rivals(s, controller, g) != {} then s' == s else
              && PeersFollow(s, controller, g, s') && Moves(s, controller, g, s')
              && g in s'.groups.at && s'.groups.at[g].controller == Some(controller)
              && (forall h :: h != g && h in s.groups.at && h in s'.groups.at ==>
                    s'.groups.at[h].controller
                    == if s.groups.at[h].controller == Some(controller) then None else s.groups.at[h].controller)
  {
    var a := Attach(s, controller, g);
    hide *;
    PeersValid(s);
    FindsRivals(s, controller, g);
    if Rivals(s, controller, g) != {} {
      RefusedCreate(s, g, controller);
    } else {
      AttachMoves(s, controller, g);
      AttachFollows(s, controller, g);
      AttachedHolds(s, controller, g);
      CreatedShape(s, g, controller);
      ControllerSet(s, a, g, controller, Apply(s, CreateEvent(g, controller)));
    }
  }

  lemma RefusedCreate(s: State, g: GroupId, controller: InstanceId)
    requires AttachConflict(s, controller, g).Some?
    ensures Apply(s, CreateEvent(g, controller)) == s
  {
    hide AttachConflict;
  }

  lemma AttachFollows(s: State, i: InstanceId, g: GroupId)
    ensures PeersFollow(s, i, g, Attach(s, i, g))
  {
    hide Joined, Detached;
  }

  lemma AttachedHolds(s: State, i: InstanceId, g: GroupId)
    requires Consistent(s)
    ensures Consistent(Attach(s, i, g)) && g in Attach(s, i, g).groups.at && ControllersKept(s, Attach(s, i, g))
    ensures forall h :: h in s.groups.at && s.groups.at[h].controller.Some? ==>
              Lists(s, h, s.groups.at[h].controller.value)
  {
    AttachControllers(s, i, g);
    AttachKeeps(s, i, g);
    SameControllers(s, s, s.(groups := Joined(Detached(s.groups, i, Some(g)), i, g)), Attach(s, i, g));
    assert forall h :: h in s.groups.at ==> SoundGroup(s.groups.at[h]);
    hide Attach, Joined, Detached;
  }

  lemma CreatedShape(s: State, g: GroupId, controller: InstanceId)
    requires AttachConflict(s, controller, g).None? && g in Attach(s, controller, g).groups.at
    ensures var a := Attach(s, controller, g);
            Apply(s, CreateEvent(g, controller))
            == a.(groups := a.groups.Set(g, a.groups.at[g].(controller := Some(controller))))
  {
    hide AttachConflict, Attach;
  }

  lemma ControllerSet(s: State, a: State, g: GroupId, i: InstanceId, s': State)
    requires g in a.groups.at && s' == a.(groups := a.groups.Set(g, a.groups.at[g].(controller := Some(i))))
    requires Moves(s, i, g, a) && PeersFollow(s, i, g, a) && ControllersKept(s, a)
    requires forall h :: h in s.groups.at && s.groups.at[h].controller.Some? ==>
        Lists(s, h, s.groups.at[h].controller.value)
    ensures Moves(s, i, g, s') && PeersFollow(s, i, g, s')
    ensures g in s'.groups.at && s'.groups.at[g].controller == Some(i)
    ensures forall h :: h != g && h in s.groups.at && h in s'.groups.at ==>
              s'.groups.at[h].controller
              == if s.groups.at[h].controller == Some(i) then None else s.groups.at[h].controller
  {
    forall h, j ensures Lists(s', h, j) <==> Lists(a, h, j) {}
    hide Lists;
  }

  /** Removing a group is refused exactly while a runtime Peer is in it; otherwise it goes, its Peers are in no group,
      and nothing else changes. */
  lemma {:induction false} RemoveLaw(s: State, g: GroupId)
    requires Consistent(s)
    ensures var s' := Apply(s, RemoveEvent(g));
            if g !in s.groups.at
               || exists p :: p in s.peers.at && s.peers.at[p].group == Some(g) && Runtime(s.peers.at[p].role)
            then s' == s else
              && s'.groups.at == s.groups.at - {g} && s'.peers.order == s.peers.order
              && s'.peers.at.Keys == s.peers.at.Keys
              && forall k :: k in s.peers.at ==>
                   s'.peers.at[k] == if s.peers.at[k].group == Some(g) then s.peers.at[k].(group := None)
                                     else s.peers.at[k]
  {
    forall r: Role ensures IsRuntime(r) <==> Runtime(r) {
      OrdinalLaw(r);
    }
    hide Consistent, IsRuntime, Runtime, Without;
  }

  // ---------- Departure ----------

  /** An Instance that has lost its last Peer leaves its group; no other membership changes. */
  ghost predicate OthersStay(s: State, s': State) {
    && FewerPeers(s, s')
    && (forall h, j :: Lists(s', h, j) <==> Lists(s, h, j) && (Connected(s, j) ==> Connected(s', j)))
    && ControllersKept(s, s')
  }

  lemma StayOn(a: State, b: State, c: State)
    requires OthersStay(a, b) && OthersStay(b, c) && Consistent(c)
    ensures OthersStay(a, c)
  {
    assert forall h :: h in c.groups.at ==> exists j :: Lists(c, h, j) by {
      MembersThere(c);
    }
    hide Consistent;
    forall j ensures (Connected(c, j) ==> Connected(b, j)) && (Connected(b, j) ==> Connected(a, j)) {}
    hide Connected;
    forall h, j ensures Lists(c, h, j) <==> Lists(a, h, j) && (Connected(a, j) ==> Connected(c, j)) {}
    ControllersOn(a, b, c);
    hide ControllersKept;
  }

  lemma MembersThere(s: State)
    requires Consistent(s)
    ensures forall h :: h in s.groups.at ==> exists j :: Lists(s, h, j)
  {
    forall h | h in s.groups.at ensures exists j :: Lists(s, h, j) {
      assert SoundGroup(s.groups.at[h]);
      assert Lists(s, h, s.groups.at[h].instances[0]);
    }
  }

  lemma ControllersOn(a: State, b: State, c: State)
    requires ControllersKept(a, b) && ControllersKept(b, c)
    requires forall h, j :: Lists(c, h, j) ==> Lists(b, h, j)
    requires forall h, j :: Lists(b, h, j) ==> Lists(a, h, j)
    requires forall h :: h in c.groups.at ==> exists j :: Lists(c, h, j)
    ensures ControllersKept(a, c)
  {
    forall h | h in a.groups.at && h in c.groups.at
      ensures var k := a.groups.at[h].controller;
              c.groups.at[h].controller == if k.Some? && !Lists(c, h, k.value) then None else k
    {
      var j :| Lists(c, h, j);
      assert Lists(b, h, j);
    }
  }

  lemma StaySelf(s: State)
    requires Consistent(s)
    ensures OthersStay(s, s)
  {
    assert forall h :: h in s.groups.at ==> SoundGroup(s.groups.at[h]);
    hide Consistent;
  }

  lemma NobodyElse(s: State, id: PeerId, j: InstanceId)
    requires Consistent(s) && id in s.peers.at
    ensures FewerPeers(s, DropPeer(s, id))
    ensures j != s.peers.at[id].instance ==> (Connected(DropPeer(s, id), j) <==> Connected(s, j))
    ensures Connected(s, s.peers.at[id].instance)
  {
    DropPeerKeeps(s, id);
    hide Consistent, DropPeer;
    if Connected(s, j) && j != s.peers.at[id].instance {
      var p :| p in s.peers.at && s.peers.at[p].instance == j;
      assert p in DropPeer(s, id).peers.at;
    }
  }

  lemma DepartLists(s: State, i: InstanceId)
    requires Consistent(s)
    ensures forall h, j :: Lists(Depart(s, i), h, j) <==> Lists(s, h, j) && (j == i ==> Connected(s, i))
    ensures ControllersKept(s, Depart(s, i)) && Depart(s, i).peers == s.peers
  {
    DetachedControllers(s, i, None);
    forall h, j ensures Lists(Depart(s, i), h, j) <==> Lists(s, h, j) && (j == i ==> Connected(s, i)) {
      DetachedLists(s, i, None, h, j);
    }
    StaySelf(s);
    hide Consistent, Detached;
  }

  /** A Peer goes, others perhaps with it, and then its Instance departs. */
  lemma DepartsAfter(s: State, id: PeerId, b: State)
    requires Consistent(s) && id in s.peers.at && Consistent(b) && OthersStay(DropPeer(s, id), b)
    ensures OthersStay(s, Depart(b, s.peers.at[id].instance)) && Consistent(Depart(b, s.peers.at[id].instance))
  {
    var i, a := s.peers.at[id].instance, DropPeer(s, id);
    var s' := Depart(b, i);
    forall j ensures j != i ==> (Connected(a, j) <==> Connected(s, j)) {
      NobodyElse(s, id, j);
    }
    NobodyElse(s, id, i);
    DepartLists(b, i);
    DepartKeeps(b, i);
    MembersThere(s');
    assert a.groups == s.groups;
    hide Consistent, Depart, DropPeer;
    forall j ensures (Connected(s', j) <==> Connected(b, j)) && (Connected(b, j) ==> Connected(a, j)) {}
    assert FewerPeers(s, s');
    forall h, j ensures (Lists(a, h, j) <==> Lists(s, h, j)) {}
    hide Connected, FewerPeers;
    forall h, j ensures Lists(s', h, j) <==> Lists(s, h, j) && (Connected(s, j) ==> Connected(s', j)) {}
    SameControllers(s, a, b, b);
    ControllersOn(s, b, s');
    hide Lists, ControllersKept;
  }

  lemma {:induction false} EachStay(s: State, ids: seq<PeerId>)
    requires Consistent(s)
    ensures OthersStay(s, UnregisterEach(s, ids))
  {
    if ids == [] {
      StaySelf(s);
    } else {
      var n := |ids| - 1;
      var r, id := UnregisterEach(s, ids[..n]), ids[n];
      EachStay(s, ids[..n]);
      UnregisterEachKeeps(s, ids[..n]);
      UnregisterEachKeeps(s, ids);
      hide Consistent, OthersStay, Depart, DropPeer;
      if id in r.peers.at {
        DropPeerKeeps(r, id);
        StaySelf(DropPeer(r, id));
        DepartsAfter(r, id, DropPeer(r, id));
        StayOn(s, r, UnregisterEach(s, ids));
      }
    }
  }

  /** A Peer that unregisters takes along those that depend on it; Instances that have lost their last Peer leave
      their groups, and nobody else does. */
  lemma {:induction false} UnregisterLaw(s: State, id: PeerId)
    requires Consistent(s)
    ensures OthersStay(s, Unregister(s, id)) && Consistent(Unregister(s, id))
    ensures forall p :: p in s.peers.at ==>
              (p !in Unregister(s, id).peers.at <==>
               p == id || (id in s.peers.at && s.peers.at[id].transport == id && s.peers.at[p].transport == id))
  {
    UnregisterKeeps(s, id);
    if id in s.peers.at {
      var p := s.peers.at[id];
      var dependents := if p.transport == id then Dependents(s.peers.order, s.peers.at, id) else [];
      hide Consistent, OthersStay, DropPeer, Depart, UnregisterEach;
      DropPeerKeeps(s, id);
      EachStay(DropPeer(s, id), dependents);
      UnregisterEachKeeps(DropPeer(s, id), dependents);
      DepartsAfter(s, id, UnregisterEach(DropPeer(s, id), dependents));
    } else {
      StaySelf(s);
    }
  }

  lemma {:induction false} AllStay(s: State, ids: seq<PeerId>)
    requires Consistent(s)
    ensures OthersStay(s, UnregisterAll(s, ids)) && Consistent(UnregisterAll(s, ids))
  {
    if ids == [] {
      StaySelf(s);
    } else {
      var n := |ids| - 1;
      var r := UnregisterAll(s, ids[..n]);
      AllStay(s, ids[..n]);
      hide Consistent, OthersStay, Unregister;
      UnregisterLaw(r, ids[n]);
      StayOn(s, r, UnregisterAll(s, ids));
    }
  }

  /** The groups that a runtime Peer of the Instance was in. */
  ghost predicate HadRuntime(s: State, i: InstanceId, g: GroupId) {
    exists p :: p in s.peers.at && s.peers.at[p].instance == i && s.peers.at[p].group == Some(g)
                && Runtime(s.peers.at[p].role)
  }

  ghost predicate HasRuntime(s: State, g: GroupId) {
    exists p :: p in s.peers.at && s.peers.at[p].group == Some(g) && Runtime(s.peers.at[p].role)
  }

  lemma {:induction false} DepartingExactly(ids: seq<PeerId>, at: map<PeerId, Peer>)
    ensures forall g :: g in Departing(ids, at) <==>
              exists p :: p in ids && p in at && at[p].group == Some(g) && IsRuntime(at[p].role)
  {
    if ids != [] {
      var n := |ids| - 1;
      var front, last := Departing(ids[..n], at), ids[n];
      assert ids == ids[..n] + [last];
      DepartingExactly(ids[..n], at);
      hide IsRuntime;
      forall g ensures g in Departing(ids, at) <==>
                         exists p :: p in ids && p in at && at[p].group == Some(g) && IsRuntime(at[p].role)
      {
        if last in at && at[last].group == Some(g) && IsRuntime(at[last].role) {
          assert g in Departing(ids, at);
        } else if p :| p in ids && p in at && at[p].group == Some(g) && IsRuntime(at[p].role) {
          assert p in ids[..n];
        }
      }
    }
  }

  lemma {:induction false} UnusedPeers(s: State, groups: seq<GroupId>)
    ensures var s' := RemoveUnused(s, groups);
            && s'.peers.at.Keys == s.peers.at.Keys
            && (forall g :: g in s'.groups.at ==> g in s.groups.at && s'.groups.at[g] == s.groups.at[g])
            && (forall p :: p in s.peers.at ==>
                  s'.peers.at[p] == s.peers.at[p]
                  || (s.peers.at[p].group.Some? && s.peers.at[p].group.value !in s'.groups.at
                      && s'.peers.at[p] == s.peers.at[p].(group := None)))
  {
    if groups != [] {
      var n := |groups| - 1;
      UnusedPeers(s, groups[..n]);
      hide InUse, Without;
    }
  }

  /** An Instance that unregisters leaves with its Peers and those that depend on them; of the groups its runtime Peers
      were in, those without another runtime Peer go; nothing else changes. */
  lemma {:induction false} UnregisterInstanceLaw(s: State, i: InstanceId)
    requires Consistent(s)
    ensures var s' := UnregisterInstance(s, i);
            && (forall h :: h in s'.groups.at && HadRuntime(s, i, h) ==> HasRuntime(s', h))
            && (forall h, j :: Lists(s', h, j) ==>
                  Lists(s, h, j) && j != i && (Connected(s, j) ==> Connected(s', j)))
            && (forall h, j :: Lists(s, h, j) && j != i && (Connected(s, j) ==> Connected(s', j)) ==>
                  Lists(s', h, j) || (HadRuntime(s, i, h) && !HasRuntime(s', h)))
            && (forall p :: p in s'.peers.at ==>
                  && p in s.peers.at
                  && (s'.peers.at[p] == s.peers.at[p]
                      || (s.peers.at[p].group.Some? && s.peers.at[p].group.value !in s'.groups.at
                          && s'.peers.at[p] == s.peers.at[p].(group := None))))
  {
    var ids := PeersOf(s.peers.order, s.peers.at, i);
    var left := UnregisterAll(s, ids);
    var apart := left.(groups := Detached(left.groups, i, None));
    var s' := UnregisterInstance(s, i);
    PeersOfAre(s.peers.order, s.peers.at, i);
    assert forall p :: p in ids <==> p in s.peers.at && s.peers.at[p].instance == i by {
      PeersValid(s);
      hide Consistent;
    }
    AllStay(s, ids);
    DepartingExactly(ids, s.peers.at);
    UnusedPeers(apart, Departing(ids, s.peers.at));
    RemoveUnusedTakes(apart, Departing(ids, s.peers.at));
    forall r: Role ensures IsRuntime(r) <==> Runtime(r) {
      OrdinalLaw(r);
    }
    forall h, j ensures Lists(apart, h, j) <==> Lists(left, h, j) && j != i {
      DetachedLists(left, i, None, h, j);
    }
    InstanceApart(s, i, left, apart, s', Departing(ids, s.peers.at));
  }

  lemma InstanceApart(s: State, i: InstanceId, left: State, apart: State, s': State, groups: seq<GroupId>)
    requires OthersStay(s, left) && apart.peers == left.peers
    requires forall h, j :: Lists(apart, h, j) <==> Lists(left, h, j) && j != i
    requires forall r :: IsRuntime(r) <==> Runtime(r)
    requires forall g :: g in groups <==> HadRuntime(s, i, g)
    requires s'.peers.at.Keys == apart.peers.at.Keys
    requires forall g :: g in s'.groups.at ==> g in apart.groups.at && s'.groups.at[g] == apart.groups.at[g]
    requires forall g :: g in s'.groups.at <==> g in apart.groups.at && (g in groups ==> InUse(apart, g))
    requires forall g :: InUse(s', g) <==> InUse(apart, g)
    requires forall p :: p in apart.peers.at ==>
               s'.peers.at[p] == apart.peers.at[p]
               || (apart.peers.at[p].group.Some? && apart.peers.at[p].group.value !in s'.groups.at
                   && s'.peers.at[p] == apart.peers.at[p].(group := None))
    ensures forall h :: h in s'.groups.at && HadRuntime(s, i, h) ==> HasRuntime(s', h)
    ensures forall h, j :: Lists(s', h, j) ==> Lists(s, h, j) && j != i && (Connected(s, j) ==> Connected(s', j))
    ensures forall h, j :: Lists(s, h, j) && j != i && (Connected(s, j) ==> Connected(s', j)) ==>
              Lists(s', h, j) || (HadRuntime(s, i, h) && !HasRuntime(s', h))
    ensures forall p :: p in s'.peers.at ==>
              && p in s.peers.at
              && (s'.peers.at[p] == s.peers.at[p]
                  || (s.peers.at[p].group.Some? && s.peers.at[p].group.value !in s'.groups.at
                      && s'.peers.at[p] == s.peers.at[p].(group := None)))
  {
    forall j ensures Connected(s', j) <==> Connected(left, j) {
      if Connected(left, j) {
        var p :| p in left.peers.at && left.peers.at[p].instance == j;
        assert p in s'.peers.at && s'.peers.at[p].instance == j;
      }
    }
    forall g ensures InUse(s', g) <==> HasRuntime(s', g) {}
    hide Connected, HasRuntime, HadRuntime, InUse, IsRuntime, Runtime, ControllersKept;
  }
}
