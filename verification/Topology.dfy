/** Peers, Multiplayer Groups and routing scopes as functions on the registry's state. */
module Topology {
  import opened Common
  import opened OrderedMaps

  datatype InstanceId = InstanceId(text: string)
  datatype GroupId = GroupId(text: string)
  datatype Role = Role(text: string)

  datatype Peer = Peer(transport: PeerId, instance: InstanceId, group: Option<GroupId>, role: Role)

  datatype Group = Group(instances: seq<InstanceId>, controller: Option<InstanceId>)

  datatype State = State(peers: OMap<PeerId, Peer>, groups: OMap<GroupId, Group>)

  const EMPTY := State(OMap([], map[]), OMap([], map[]))

  // ---------- Roles ----------

  const SERVER := Role("server")
  const CLIENT := Role("client")

  predicate IsDigit(c: char) {
    '0' <= c <= '9'
  }

  function Number(digits: string): nat
    requires forall c :: c in digits ==> IsDigit(c)
  {
    if digits == [] then 0 else
    assert IsDigit(digits[|digits| - 1]);
    Number(digits[..|digits| - 1]) * 10 + (digits[|digits| - 1] as int - '0' as int)
  }

  function Decimal(n: nat): (digits: string)
    ensures digits != [] && forall c :: c in digits ==> IsDigit(c)
  {
    (if n < 10 then [] else Decimal(n / 10)) + [(n % 10 + '0' as int) as char]
  }

  lemma {:induction false} NumberOfDecimal(n: nat)
    ensures Number(Decimal(n)) == n
  {
    if n >= 10 {
      NumberOfDecimal(n / 10);
      assert Decimal(n)[..|Decimal(n)| - 1] == Decimal(n / 10);
    } else {
      assert Decimal(n)[..|Decimal(n)| - 1] == [];
    }
  }

  /** The ordinal of a role of the form client-<digits>. */
  function Ordinal(role: Role): Option<nat> {
    var t := role.text;
    if |t| > 7 && t[..7] == "client-" && (forall c :: c in t[7..] ==> IsDigit(c)) then Some(Number(t[7..])) else None
  }

  function ClientRole(n: nat): Role {
    Role("client-" + Decimal(n))
  }

  lemma OrdinalOfClient(n: nat)
    ensures Ordinal(ClientRole(n)) == Some(n)
  {
    var t := ClientRole(n).text;
    assert t[..7] == "client-" && t[7..] == Decimal(n);
    NumberOfDecimal(n);
  }

  predicate IsRuntime(role: Role) {
    role == SERVER || Ordinal(role).Some?
  }

  // ---------- Membership ----------

  predicate Lists(s: State, g: GroupId, i: InstanceId) {
    g in s.groups.at && i in s.groups.at[g].instances
  }

  function GroupIn(order: seq<GroupId>, at: map<GroupId, Group>, i: InstanceId): (g: Option<GroupId>)
    ensures g.Some? ==> g.value in order && g.value in at && i in at[g.value].instances
    ensures g.None? ==> forall k :: k in order && k in at ==> i !in at[k].instances
  {
    if order == [] then None
    else if order[0] in at && i in at[order[0]].instances then Some(order[0])
    else GroupIn(order[1..], at, i)
  }

  function GroupOf(s: State, i: InstanceId): Option<GroupId> {
    GroupIn(s.groups.order, s.groups.at, i)
  }

  /** The first Peer in registration order with the property. */
  function FirstPeer(order: seq<PeerId>, at: map<PeerId, Peer>, wanted: (PeerId, Peer) -> bool): (p: Option<PeerId>)
    ensures p.Some? ==> p.value in order && p.value in at && wanted(p.value, at[p.value])
    ensures p.None? ==> forall k :: k in order && k in at ==> !wanted(k, at[k])
  {
    if order == [] then None
    else if order[0] in at && wanted(order[0], at[order[0]]) then Some(order[0])
    else FirstPeer(order[1..], at, wanted)
  }

  function Find(s: State, wanted: (PeerId, Peer) -> bool): Option<PeerId> {
    FirstPeer(s.peers.order, s.peers.at, wanted)
  }

  // ---------- Attaching and detaching ----------

  function Shed(g: Group, i: InstanceId): Group {
    Group(Without(g.instances, {i}), if g.controller == Some(i) then None else g.controller)
  }

  function Emptied(groups: map<GroupId, Group>, i: InstanceId, keep: Option<GroupId>): set<GroupId> {
    set g | g in groups && Some(g) != keep && i in groups[g].instances && Without(groups[g].instances, {i}) == []
  }

  /** The Instance leaves every group but `keep`; a group left empty goes. */
  function Detached(groups: OMap<GroupId, Group>, i: InstanceId, keep: Option<GroupId>): OMap<GroupId, Group> {
    var gone := Emptied(groups.at, i, keep);
    OMap(Without(groups.order, gone),
         map g | g in groups.at && g !in gone ::
           if Some(g) == keep || i !in groups.at[g].instances then groups.at[g] else Shed(groups.at[g], i))
  }

  function RolesOf(s: State, i: InstanceId): set<Role> {
    set p | p in s.peers.at && s.peers.at[p].instance == i :: s.peers.at[p].role
  }

  function Conflicting(i: InstanceId, g: GroupId, incoming: set<Role>): (PeerId, Peer) -> bool {
    (k, p: Peer) => p.instance != i && p.group == Some(g) && p.role in incoming
  }

  /** A Peer of another Instance in the group has a role one of this Instance's Peers brings. */
  function AttachConflict(s: State, i: InstanceId, g: GroupId): Option<PeerId> {
    Find(s, Conflicting(i, g, RolesOf(s, i)))
  }

  function Joined(groups: OMap<GroupId, Group>, i: InstanceId, g: GroupId): OMap<GroupId, Group> {
    if g !in groups.at then groups.Set(g, Group([i], None))
    else if i in groups.at[g].instances then groups
    else groups.Set(g, groups.at[g].(instances := groups.at[g].instances + [i]))
  }

  function Regrouped(peers: OMap<PeerId, Peer>, i: InstanceId, g: GroupId): OMap<PeerId, Peer> {
    OMap(peers.order, map p | p in peers.at :: if peers.at[p].instance == i then peers.at[p].(group := Some(g))
        else peers.at[p])
  }

  function Attach(s: State, i: InstanceId, g: GroupId): State {
    State(Regrouped(s.peers, i, g), Joined(Detached(s.groups, i, Some(g)), i, g))
  }

  // ---------- Groups ----------

  function CreateGroup(s: State, g: GroupId, controller: InstanceId): Option<State> {
    if AttachConflict(s, controller, g).Some? then None else
    var a := Attach(s, controller, g);
    if g !in a.groups.at then None else
    Some(a.(groups := a.groups.Set(g, a.groups.at[g].(controller := Some(controller)))))
  }

  predicate InUse(s: State, g: GroupId) {
    exists p :: p in s.peers.at && s.peers.at[p].group == Some(g) && IsRuntime(s.peers.at[p].role)
  }

  function Ungrouped(peers: OMap<PeerId, Peer>, g: GroupId): OMap<PeerId, Peer> {
    OMap(peers.order, map p | p in peers.at :: if peers.at[p].group == Some(g) then peers.at[p].(group := None)
        else peers.at[p])
  }

  /** removeMultiplayerGroup: None stands for the error that the group is in use. */
  function RemoveGroup(s: State, g: GroupId): Option<State> {
    if g !in s.groups.at then Some(s)
    else if InUse(s, g) then None
    else Some(State(Ungrouped(s.peers, g), s.groups.Delete(g)))
  }

  // ---------- Registration ----------

  predicate InScope(p: Peer, i: InstanceId, g: Option<GroupId>) {
    if g.Some? then p.group == g else p.instance == i && p.group.None?
  }

  function UsedOrdinals(s: State, id: PeerId, i: InstanceId, g: Option<GroupId>): set<nat> {
    set p | p in s.peers.at && p != id && InScope(s.peers.at[p], i, g) && Ordinal(s.peers.at[p].role).Some?
      :: Ordinal(s.peers.at[p].role).value
  }

  /** The first ordinal from n on that is not used. */
  function LeastFree(used: set<nat>, n: nat): nat
    decreases |used|
  {
    if n !in used then n else LeastFree(used - {n}, n + 1)
  }

  lemma {:induction false} LeastFreeIs(used: set<nat>, n: nat)
    ensures var r := LeastFree(used, n);
            n <= r && r !in used && (forall k: nat :: n <= k < r ==> k in used)
    decreases |used|
  {
    if n in used {
      LeastFreeIs(used - {n}, n + 1);
      var r := LeastFree(used - {n}, n + 1);
      forall k: nat | n <= k < r ensures k in used {
        assert k == n || k in used - {n};
      }
    }
  }

  function AssignedRole(s: State, id: PeerId, i: InstanceId, g: Option<GroupId>, role: Role): Role {
    if role != CLIENT then role else
    var used := UsedOrdinals(s, id, i, g);
    if id in s.peers.at && Ordinal(s.peers.at[id].role).Some? && Ordinal(s.peers.at[id].role).value !in used
    then s.peers.at[id].role
    else ClientRole(LeastFree(used, 1))
  }

  function Alias(i: InstanceId, role: Role): InstanceId {
    InstanceId(i.text + "-" + role.text)
  }

  function Aliased(id: PeerId, i: InstanceId): (PeerId, Peer) -> bool {
    (k, p: Peer) => k != id && p.group.Some? && IsRuntime(p.role) && Alias(p.instance, p.role) == i
  }

  function Named(id: PeerId, i: InstanceId): (PeerId, Peer) -> bool {
    (k, p: Peer) => k != id && p.instance == i
  }

  function AliasCollision(s: State, id: PeerId, i: InstanceId, role: Role, g: Option<GroupId>): Option<PeerId> {
    var canonical := Find(s, Aliased(id, i));
    if canonical.Some? then canonical
    else if g.None? || !IsRuntime(role) then None
    else Find(s, Named(id, Alias(i, role)))
  }

  function Holding(id: PeerId, i: InstanceId, g: Option<GroupId>, role: Role): (PeerId, Peer) -> bool {
    (k, p: Peer) => k != id && InScope(p, i, g) && p.role == role
  }

  datatype Registration =
    | Registered(role: Role, group: Option<GroupId>)
    | IdentityMismatch
    | DuplicateRole(existing: PeerId)
    | AliasClash(existing: PeerId)

  /** The group a registration joins: the one asked for, the Instance's, or the Peer's earlier one. */
  function TargetGroup(s: State, id: PeerId, i: InstanceId, asked: Option<GroupId>): Option<GroupId> {
    if asked.Some? then asked
    else if GroupOf(s, i).Some? then GroupOf(s, i)
    else if id in s.peers.at then s.peers.at[id].group else None
  }

  function AddPeer(s: State, id: PeerId, p: Peer): State {
    s.(peers := s.peers.Set(id, p))
  }

  function Register(s: State, id: PeerId, t: PeerId, i: InstanceId, asked: Option<GroupId>, role: Role)
    : (State, Registration)
  {
    if id in s.peers.at && (s.peers.at[id].instance != i || s.peers.at[id].transport != t)
        then (s, IdentityMismatch) else
    var g := TargetGroup(s, id, i, asked);
    var conflict := if g.Some? then AttachConflict(s, i, g.value) else None;
    if conflict.Some? then (s, DuplicateRole(conflict.value)) else
    var granted := AssignedRole(s, id, i, g, role);
    var clash := AliasCollision(s, id, i, granted, g);
    if clash.Some? then (s, AliasClash(clash.value)) else
    var existing := Find(s, Holding(id, i, g, granted));
    if existing.Some? then (s, DuplicateRole(existing.value)) else
    var added := AddPeer(s, id, Peer(t, i, g, granted));
    (if g.Some? then Attach(added, i, g.value) else added, Registered(granted, g))
  }

  // ---------- Departure ----------

  predicate Connected(s: State, i: InstanceId) {
    exists p :: p in s.peers.at && s.peers.at[p].instance == i
  }

  /** An Instance without Peers leaves its groups. */
  function Depart(s: State, i: InstanceId): State {
    if Connected(s, i) then s else s.(groups := Detached(s.groups, i, None))
  }

  function DropPeer(s: State, id: PeerId): State {
    s.(peers := s.peers.Delete(id))
  }

  function UnregisterEach(s: State, ids: seq<PeerId>): State {
    if ids == [] then s else
    var r := UnregisterEach(s, ids[..|ids| - 1]);
    var id := ids[|ids| - 1];
    if id !in r.peers.at then r else Depart(DropPeer(r, id), r.peers.at[id].instance)
  }

  function Dependents(order: seq<PeerId>, at: map<PeerId, Peer>, id: PeerId): seq<PeerId> {
    if order == [] then [] else
    var k := order[|order| - 1];
    Dependents(order[..|order| - 1], at, id) + if k in at && k != id && at[k].transport == id then [k] else []
  }

  /** A transport Peer takes along the Peers that depend on it, before its own Instance departs. */
  function Unregister(s: State, id: PeerId): State {
    if id !in s.peers.at then s else
    var p := s.peers.at[id];
    var dependents := if p.transport == id then Dependents(s.peers.order, s.peers.at, id) else [];
    Depart(UnregisterEach(DropPeer(s, id), dependents), p.instance)
  }

  function PeersOf(order: seq<PeerId>, at: map<PeerId, Peer>, i: InstanceId): seq<PeerId> {
    if order == [] then [] else
    var k := order[|order| - 1];
    PeersOf(order[..|order| - 1], at, i) + if k in at && at[k].instance == i then [k] else []
  }

  function UnregisterAll(s: State, ids: seq<PeerId>): State {
    if ids == [] then s else Unregister(UnregisterAll(s, ids[..|ids| - 1]), ids[|ids| - 1])
  }

  /** The groups that runtime Peers among these leave, in order. */
  function Departing(ids: seq<PeerId>, at: map<PeerId, Peer>): seq<GroupId> {
    if ids == [] then [] else
    var front, k := Departing(ids[..|ids| - 1], at), ids[|ids| - 1];
    if k in at && at[k].group.Some? && IsRuntime(at[k].role) && at[k].group.value !in front
        then front + [at[k].group.value] else front
  }

  function RemoveUnused(s: State, groups: seq<GroupId>): State {
    if groups == [] then s else
    var r, g := RemoveUnused(s, groups[..|groups| - 1]), groups[|groups| - 1];
    if InUse(r, g) || RemoveGroup(r, g).None? then r else RemoveGroup(r, g).value
  }

  function UnregisterInstance(s: State, i: InstanceId): State {
    var ids := PeersOf(s.peers.order, s.peers.at, i);
    var left := UnregisterAll(s, ids);
    RemoveUnused(left.(groups := Detached(left.groups, i, None)), Departing(ids, s.peers.at))
  }

  // ---------- Events ----------

  datatype Event =
    | RegisterEvent(id: PeerId, transport: PeerId, instance: InstanceId, asked: Option<GroupId>, role: Role)
    | CreateEvent(group: GroupId, controller: InstanceId)
    | RemoveEvent(group: GroupId)
    | UnregisterEvent(id: PeerId)
    | UnregisterInstanceEvent(instance: InstanceId)

  /** An event that is refused changes nothing. */
  function Apply(s: State, e: Event): State {
    match e
    case RegisterEvent(id, t, i, asked, role) => Register(s, id, t, i, asked, role).0
    case CreateEvent(g, controller) => if CreateGroup(s, g, controller).Some? then CreateGroup(s, g, controller).value
        else s
    case RemoveEvent(g) => if RemoveGroup(s, g).Some? then RemoveGroup(s, g).value else s
    case UnregisterEvent(id) => Unregister(s, id)
    case UnregisterInstanceEvent(i) => UnregisterInstance(s, i)
  }

  function Run(events: seq<Event>): State {
    if events == [] then EMPTY else Apply(Run(events[..|events| - 1]), events[|events| - 1])
  }
}
