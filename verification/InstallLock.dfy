/**
 The plugin-install lock: a directory that installers create with mkdir, sign
 with an owner file, and take over from an exited owner by a token-named claim.
 Every atomic file-system call is one step; steps of any number of installers
 interleave freely, and a process may exit between any two of its steps.
 */
module InstallLock {
  import opened Common

  type Process = nat   // one process incarnation; an exited one never returns
  type Pid = nat       // operating-system number, reusable after exit
  type Token = nat     // names one acquire call: randomUUID never repeats

  datatype Owner = Owner(pid: Pid, token: Token, createdAt: int)

  datatype OwnerFile = Absent | Partial | Published(owner: Owner)

  /** The directory at the lock path. `generation` identifies the directory itself, as an inode does. */
  datatype LockDir = LockDir(generation: nat, creator: Token, ownerFile: OwnerFile, claims: set<Token>)

  /** The next file-system call of one acquire/release. `at` is the directory the claim was made in. */
  datatype Pc =
    | Start
    | ReadOwner
    | ProbeOwner(owner: Owner)
    | Claim(owner: Owner)
    | Recheck(owner: Owner, at: nat)
    | Reprobe(owner: Owner, at: nat)
    | Detach(owner: Owner, at: nat)
    | Unclaim(owner: Owner, at: nat)
    | Clean
    | Retry
    | Create(generation: nat)
    | Write(generation: nat)
    | Held(generation: nat)
    | ReleaseCheck(generation: nat)
    | Remove(generation: nat)
    | Finished
  {
    /** A recovery that has read an owner. */
    predicate Recovering() {
      ProbeOwner? || Claim? || Claimant()
    }

    /** A recovery whose claim directory exists. */
    predicate Claimant() {
      Recheck? || Reprobe? || Detach? || Unclaim?
    }

    /** The caller created the lock directory and has not given it up. */
    predicate Owning() {
      Create? || Write? || Held? || ReleaseCheck? || Remove?
    }
  }

  /** `made` records the directory this call created, if any. */
  datatype Attempt = Attempt(process: Process, pid: Pid, createdAt: int, made: Option<nat>, pc: Pc)

  datatype State = State(
    lock: Option<LockDir>,
    nextGeneration: nat,
    attempts: map<Token, Attempt>,
    live: map<Process, Pid>,
    exited: set<Process>)
  {
    predicate Alive(t: Token)
      requires t in attempts
    {
      attempts[t].process in live
    }

    function OwnerOf(t: Token): Owner
      requires t in attempts
    {
      Owner(attempts[t].pid, t, attempts[t].createdAt)
    }

    /** What the signal-0 probe reports as "no such process". */
    predicate NoSuchProcess(pid: Pid) {
      pid !in live.Values
    }
  }

  // ---------- Steps of one acquire/release ----------

  /** Only attempt t's program counter changes. */
  predicate Goes(s: State, t: Token, s': State, pc: Pc)
    requires t in s.attempts
  {
    s' == s.(attempts := s.attempts[t := s.attempts[t].(pc := pc)])
  }

  predicate GoesWithLock(s: State, t: Token, s': State, pc: Pc, lock: Option<LockDir>)
    requires t in s.attempts
  {
    s' == s.(lock := lock, attempts := s.attempts[t := s.attempts[t].(pc := pc)])
  }

  predicate MakesLock(s: State, t: Token, s': State)
    requires t in s.attempts
  {
    && s.lock.None?
    && s' == s.(
               lock := Some(LockDir(s.nextGeneration, t, Absent, {})),
               nextGeneration := s.nextGeneration + 1,
               attempts := s.attempts[t := s.attempts[t].(made := Some(s.nextGeneration),
                   pc := Create(s.nextGeneration))])
  }

  predicate ReadsOwner(s: State, owner: Owner) {
    s.lock.Some? && s.lock.value.ownerFile == Published(owner)
  }

  /** assertPluginInstallOwnerExited returns normally. */
  predicate ProbeSaysExited(s: State, t: Token, owner: Owner)
    requires t in s.attempts
  {
    owner.pid != s.attempts[t].pid && s.NoSuchProcess(owner.pid)
  }

  /** One call of attempt t before it owns a directory; every call may also fail. */
  predicate RecoveryStep(s: State, t: Token, s': State)
    requires t in s.attempts
  {
    match s.attempts[t].pc
    case Start =>
      MakesLock(s, t, s') || (s.lock.Some? && Goes(s, t, s', ReadOwner)) || Goes(s, t, s', Finished)
    case ReadOwner =>
      (s.lock.Some? && s.lock.value.ownerFile.Published? && Goes(s, t, s', ProbeOwner(s.lock.value.ownerFile.owner)))
      || Goes(s, t, s', Finished)
    case ProbeOwner(owner) =>
      (ProbeSaysExited(s, t, owner) && Goes(s, t, s', Claim(owner))) || Goes(s, t, s', Finished)
    case Claim(owner) =>
      (s.lock.Some? && owner.token !in s.lock.value.claims
       && GoesWithLock(s, t, s', Recheck(owner, s.lock.value.generation),
                       Some(s.lock.value.(claims := s.lock.value.claims + {owner.token}))))
      || Goes(s, t, s', Finished)
    case Recheck(owner, at) =>
      (ReadsOwner(s, owner) && Goes(s, t, s', Reprobe(owner, at))) || Goes(s, t, s', Unclaim(owner, at))
    case Reprobe(owner, at) =>
      (ProbeSaysExited(s, t, owner) && Goes(s, t, s', Detach(owner, at))) || Goes(s, t, s', Unclaim(owner, at))
    case Detach(owner, at) =>
      (s.lock.Some? && GoesWithLock(s, t, s', Clean, None)) || Goes(s, t, s', Unclaim(owner, at))
    case Unclaim(owner, at) =>
      (s.lock.Some? && GoesWithLock(s, t, s', Finished,
                                    Some(s.lock.value.(claims := s.lock.value.claims - {owner.token}))))
      || Goes(s, t, s', Finished)
    case Clean => Goes(s, t, s', Retry)
    case Retry => MakesLock(s, t, s') || Goes(s, t, s', Finished)
    case _ => false
  }

  /** One file-system change of a recursive removal of whatever is at the lock path. */
  predicate RemovalStep(s: State, t: Token, s': State)
    requires t in s.attempts
  {
    && s.lock.Some?
    && var dir := s.lock.value;
       || (!dir.ownerFile.Absent? && GoesWithLock(s, t, s', s.attempts[t].pc, Some(dir.(ownerFile := Absent))))
       || (exists c :: c in dir.claims && GoesWithLock(s, t, s', s.attempts[t].pc,
           Some(dir.(claims := dir.claims - {c}))))
       || (dir.ownerFile.Absent? && dir.claims == {} && GoesWithLock(s, t, s', Finished, None))
  }

  /** One call of attempt t after its mkdir succeeded. The owner file is opened by path and written by handle. */
  predicate OwningStep(s: State, t: Token, s': State)
    requires t in s.attempts
  {
    match s.attempts[t].pc
    case Create(g) =>
      (s.lock.Some? && s.lock.value.ownerFile.Absent?
       && GoesWithLock(s, t, s', Write(g), Some(s.lock.value.(ownerFile := Partial))))
      || Goes(s, t, s', Remove(g))
    case Write(g) =>
      (if s.lock.Some? && s.lock.value.generation == g
       then GoesWithLock(s, t, s', Held(g), Some(s.lock.value.(ownerFile := Published(s.OwnerOf(t)))))
       else Goes(s, t, s', Held(g)))
      || Goes(s, t, s', Remove(g))
    case Held(g) => Goes(s, t, s', ReleaseCheck(g))
    case ReleaseCheck(g) =>
      (s.lock.Some? && s.lock.value.ownerFile.Published?
       && s.lock.value.ownerFile.owner.pid == s.attempts[t].pid && s.lock.value.ownerFile.owner.token == t
       && Goes(s, t, s', Remove(g)))
      || Goes(s, t, s', Finished)
    case Remove(g) => RemovalStep(s, t, s') || Goes(s, t, s', Finished)
    case _ => false
  }

  predicate AttemptStep(s: State, t: Token, s': State) {
    t in s.attempts && s.Alive(t) && (RecoveryStep(s, t, s') || OwningStep(s, t, s'))
  }

  // ---------- Process events ----------

  predicate Spawns(s: State, p: Process, pid: Pid, s': State) {
    && p !in s.live && p !in s.exited && pid !in s.live.Values
    && s' == s.(live := s.live[p := pid])
  }

  predicate Exits(s: State, p: Process, s': State) {
    p in s.live && s' == s.(live := s.live - {p}, exited := s.exited + {p})
  }

  predicate Begins(s: State, p: Process, t: Token, createdAt: int, s': State) {
    && p in s.live && t !in s.attempts
    && s' == s.(attempts := s.attempts[t := Attempt(p, s.live[p], createdAt, None, Start)])
  }

  datatype Event =
    | Spawn(process: Process, pid: Pid)
    | Exit(process: Process)
    | Begin(process: Process, token: Token, createdAt: int)
    | Call(token: Token)

  predicate Next(s: State, e: Event, s': State) {
    match e
    case Spawn(p, pid) => Spawns(s, p, pid, s')
    case Exit(p) => Exits(s, p, s')
    case Begin(p, t, at) => Begins(s, p, t, at, s')
    case Call(t) => AttemptStep(s, t, s')
  }

  predicate Initial(s: State) {
    s == State(None, 0, map[], map[], {})
  }

  /** run[i] becomes run[i + 1] by events[i]. */
  predicate IsRun(run: seq<State>, events: seq<Event>) {
    && |run| == |events| + 1
    && Initial(run[0])
    && forall i :: 0 <= i < |events| ==> Next(run[i], events[i], run[i + 1])
  }

  // ---------- What every step keeps ----------

  predicate ProcessesWell(s: State) {
    && s.live.Keys !! s.exited
    && (forall p, q :: p in s.live && q in s.live && s.live[p] == s.live[q] ==> p == q)
    && (forall t :: t in s.attempts ==> s.attempts[t].process in s.live || s.attempts[t].process in s.exited)
    && (forall t :: t in s.attempts && s.Alive(t) ==> s.live[s.attempts[t].process] == s.attempts[t].pid)
  }

  predicate LockWell(s: State) {
    && (forall t :: t in s.attempts && s.attempts[t].made.Some? ==> s.attempts[t].made.value < s.nextGeneration)
    && (s.lock.Some? ==>
          var dir := s.lock.value;
          && dir.generation + 1 == s.nextGeneration
          && dir.creator in s.attempts
          && s.attempts[dir.creator].made == Some(dir.generation)
          && (dir.ownerFile.Published? ==> dir.ownerFile.owner == s.OwnerOf(dir.creator)))
  }

  /** An attempt that owns a directory has it at the lock path for as long as its process lives. */
  predicate OwnsLock(s: State, t: Token)
    requires t in s.attempts
  {
    var pc := s.attempts[t].pc;
    pc.Owning() && s.Alive(t) ==>
      && s.lock.Some? && s.lock.value.generation == pc.generation && s.lock.value.creator == t
      && (pc.Create? ==> s.lock.value.ownerFile.Absent?)
      && (pc.Write? ==> s.lock.value.ownerFile.Partial?)
      && (pc.Held? || pc.ReleaseCheck? ==> s.lock.value.ownerFile.Published?)
  }

  predicate RecoveryWell(s: State, t: Token)
    requires t in s.attempts
  {
    var pc := s.attempts[t].pc;
    pc.Recovering() ==>
      && pc.owner.token in s.attempts && pc.owner == s.OwnerOf(pc.owner.token)
      && s.attempts[pc.owner.token].made.Some?
      && (!pc.ProbeOwner? ==> !s.Alive(pc.owner.token))
      && (pc.Claimant() ==> s.attempts[pc.owner.token].made.value <= pc.at < s.nextGeneration)
      && (pc.Reprobe? || pc.Detach? ==> HoldsClaim(s, t) && s.lock.value.ownerFile.Published?)
  }

  /** Attempt t's claim lies in the directory it wants to take over, and that directory is still at the lock path. */
  predicate HoldsClaim(s: State, t: Token)
    requires t in s.attempts
  {
    var pc := s.attempts[t].pc;
    && pc.Claimant() && s.lock.Some?
    && s.lock.value.generation == pc.at && s.lock.value.creator == pc.owner.token
  }

  /** Each directory has at most one claim on its own creator's token, made by at most one recovery. */
  predicate ClaimsWell(s: State) {
    && (forall t :: t in s.attempts && HoldsClaim(s, t) ==> s.attempts[t].pc.owner.token in s.lock.value.claims)
    && (forall t, u :: t in s.attempts && u in s.attempts && HoldsClaim(s, t) && HoldsClaim(s, u) ==> t == u)
  }

  predicate Inv(s: State) {
    && ProcessesWell(s)
    && LockWell(s)
    && (forall t :: t in s.attempts ==> OwnsLock(s, t))
    && (forall t :: t in s.attempts ==> RecoveryWell(s, t))
    && ClaimsWell(s)
  }

  lemma ProcessEventKeepsInv(s: State, e: Event, s': State)
    requires Inv(s) && Next(s, e, s') && !e.Call?
    ensures Inv(s')
  {
    forall t | t in s'.attempts ensures OwnsLock(s', t) && RecoveryWell(s', t) {
      if t in s.attempts {
        assert OwnsLock(s, t) && RecoveryWell(s, t);
      }
    }
    forall t | t in s'.attempts && HoldsClaim(s', t) ensures t in s.attempts && HoldsClaim(s, t) {}
  }

  /** The probe is right: an owner it calls exited belongs to a process that has exited. */
  lemma {:induction false} ProbeIsSound(s: State, t: Token, owner: Owner)
    requires ProcessesWell(s) && t in s.attempts
    requires owner.token in s.attempts && owner == s.OwnerOf(owner.token)
    requires ProbeSaysExited(s, t, owner)
    ensures !s.Alive(owner.token)
  {
    var p := s.attempts[owner.token].process;
    assert p in s.live ==> s.live[p] in s.live.Values;
  }

  lemma GoesKeepsInv(s: State, t: Token, s': State, pc: Pc)
    requires Inv(s) && t in s.attempts && Goes(s, t, s', pc)
    requires OwnsLock(s', t) && RecoveryWell(s', t)
    requires pc.Claimant() ==> var was := s.attempts[t].pc; was.Claimant() && was.owner == pc.owner && was.at == pc.at
    ensures Inv(s')
  {
    forall u | u in s'.attempts ensures OwnsLock(s', u) && RecoveryWell(s', u) {
      assert OwnsLock(s, u) && RecoveryWell(s, u);
    }
    forall u | u in s'.attempts && HoldsClaim(s', u) ensures HoldsClaim(s, u) {}
  }

  lemma MakesLockKeepsInv(s: State, t: Token, s': State)
    requires Inv(s) && t in s.attempts && s.Alive(t) && MakesLock(s, t, s')
    ensures Inv(s')
  {
    forall u | u in s'.attempts ensures OwnsLock(s', u) && RecoveryWell(s', u) && !HoldsClaim(s', u) {
      assert OwnsLock(s, u) && RecoveryWell(s, u);
    }
  }

  lemma ClaimKeepsInv(s: State, t: Token, s': State)
    requires Inv(s) && t in s.attempts && s.attempts[t].pc.Claim? && s.lock.Some?
    requires s.attempts[t].pc.owner.token !in s.lock.value.claims
    requires var owner := s.attempts[t].pc.owner;
             GoesWithLock(s, t, s', Recheck(owner, s.lock.value.generation),
                          Some(s.lock.value.(claims := s.lock.value.claims + {owner.token})))
    ensures Inv(s')
  {
    forall u | u in s'.attempts ensures OwnsLock(s', u) && RecoveryWell(s', u) {
      assert OwnsLock(s, u) && RecoveryWell(s, u);
    }
    forall u | u in s'.attempts && u != t && HoldsClaim(s', u) ensures HoldsClaim(s, u) && !HoldsClaim(s', t) {}
  }

  /** Removing a claim harms no recovery: only its own maker, or a live owner nobody may claim, removes a claim that
      counts. */
  lemma {:induction false} DroppedClaimIsUnheld(s: State, t: Token, c: Token, u: Token)
    requires Inv(s) && t in s.attempts && s.Alive(t) && s.lock.Some?
    requires (s.attempts[t].pc.Unclaim? && c == s.attempts[t].pc.owner.token) || s.attempts[t].pc.Remove?
    requires u in s.attempts && u != t && HoldsClaim(s, u)
    ensures s.attempts[u].pc.owner.token != c || s.attempts[t].pc.Remove?
    ensures !s.attempts[t].pc.Remove?
  {
    assert OwnsLock(s, t) && RecoveryWell(s, t) && RecoveryWell(s, u);
    if s.attempts[t].pc.Unclaim? && s.attempts[u].pc.owner.token == c {
      assert HoldsClaim(s, t);
    }
  }

  predicate DropsClaim(s: State, t: Token, s': State, pc: Pc, c: Token)
    requires t in s.attempts
  {
    && s.lock.Some?
    && GoesWithLock(s, t, s', pc, Some(s.lock.value.(claims := s.lock.value.claims - {c})))
    && (|| (s.attempts[t].pc.Unclaim? && pc == Finished && c == s.attempts[t].pc.owner.token)
        || (s.attempts[t].pc.Remove? && pc == s.attempts[t].pc))
  }

  lemma DropClaimKeepsClaims(s: State, t: Token, s': State, pc: Pc, c: Token)
    requires Inv(s) && t in s.attempts && s.Alive(t) && DropsClaim(s, t, s', pc, c)
    ensures ClaimsWell(s')
  {
    forall u | u in s'.attempts && HoldsClaim(s', u)
      ensures HoldsClaim(s, u) && s.attempts[u].pc.owner.token in s'.lock.value.claims
    {
      DroppedClaimIsUnheld(s, t, c, u);
    }
  }

  lemma DropClaimKeepsOne(s: State, t: Token, s': State, pc: Pc, c: Token, u: Token)
    requires Inv(s) && t in s.attempts && s.Alive(t) && DropsClaim(s, t, s', pc, c) && u in s.attempts
    ensures u in s'.attempts && OwnsLock(s', u) && RecoveryWell(s', u)
  {
    assert OwnsLock(s, u) && RecoveryWell(s, u) && OwnsLock(s, t) && RecoveryWell(s, t);
    hide Inv, ClaimsWell, ProcessesWell, LockWell;
  }

  lemma DropClaimKeepsLock(s: State, t: Token, s': State, pc: Pc, c: Token)
    requires ProcessesWell(s) && LockWell(s) && t in s.attempts && DropsClaim(s, t, s', pc, c)
    ensures ProcessesWell(s') && LockWell(s') && s'.attempts.Keys == s.attempts.Keys
  {}

  lemma DropClaimKeepsInv(s: State, t: Token, s': State, pc: Pc, c: Token)
    requires Inv(s) && t in s.attempts && s.Alive(t) && DropsClaim(s, t, s', pc, c)
    ensures Inv(s')
  {
    DropClaimKeepsClaims(s, t, s', pc, c);
    DropClaimKeepsLock(s, t, s', pc, c);
    forall u | u in s'.attempts ensures OwnsLock(s', u) && RecoveryWell(s', u) {
      DropClaimKeepsOne(s, t, s', pc, c, u);
    }
    hide ClaimsWell, ProcessesWell, LockWell, OwnsLock, RecoveryWell, DropsClaim;
  }

  /** An exited creator's directory leaves the lock path: no live attempt owns it and no other recovery holds its
      claim. */
  lemma DetachKeepsInv(s: State, t: Token, s': State)
    requires Inv(s) && t in s.attempts && s.attempts[t].pc.Detach? && GoesWithLock(s, t, s', Clean, None)
    ensures Inv(s')
  {
    assert RecoveryWell(s, t);
    forall u | u in s'.attempts ensures OwnsLock(s', u) && RecoveryWell(s', u) {
      assert OwnsLock(s, u) && RecoveryWell(s, u);
    }
  }

  /** A recovery step that leaves the lock path alone takes the attempt to where it may be. */
  lemma RecoveryGoesWell(s: State, t: Token, s': State)
    requires Inv(s) && t in s.attempts && s.Alive(t) && RecoveryStep(s, t, s')
    requires t in s'.attempts && Goes(s, t, s', s'.attempts[t].pc)
    ensures OwnsLock(s', t) && RecoveryWell(s', t)
    ensures s'.attempts[t].pc.Claimant() ==>
              var was, pc := s.attempts[t].pc, s'.attempts[t].pc;
              was.Claimant() && was.owner == pc.owner && was.at == pc.at
  {
    assert OwnsLock(s, t) && RecoveryWell(s, t);
    var pc := s.attempts[t].pc;
    if (pc.ProbeOwner? || pc.Reprobe?) && ProbeSaysExited(s, t, pc.owner) {
      ProbeIsSound(s, t, pc.owner);
    }
    hide ClaimsWell, ProcessesWell;
  }

  lemma RecoveryStepKeepsInv(s: State, t: Token, s': State)
    requires Inv(s) && t in s.attempts && s.Alive(t) && RecoveryStep(s, t, s')
    ensures Inv(s')
  {
    hide Inv, OwnsLock, RecoveryWell;
    var pc := s.attempts[t].pc;
    if MakesLock(s, t, s') {
      MakesLockKeepsInv(s, t, s');
    } else if Goes(s, t, s', s'.attempts[t].pc) {
      RecoveryGoesWell(s, t, s');
      GoesKeepsInv(s, t, s', s'.attempts[t].pc);
    } else if pc.Claim? {
      ClaimKeepsInv(s, t, s');
    } else if pc.Detach? {
      DetachKeepsInv(s, t, s');
    } else {
      DropClaimKeepsInv(s, t, s', Finished, pc.owner.token);
    }
  }

  /** The live owner of the directory changes its owner file, or removes the emptied directory. */
  lemma OwnFileKeepsInv(s: State, t: Token, s': State, pc: Pc, file: OwnerFile)
    requires Inv(s) && t in s.attempts && s.Alive(t) && s.attempts[t].pc.Owning() && s.lock.Some?
    requires GoesWithLock(s, t, s', pc, Some(s.lock.value.(ownerFile := file)))
    requires pc.Owning() && pc.generation == s.attempts[t].pc.generation && !pc.ReleaseCheck? && !pc.Create?
    requires pc.Write? ==> file.Partial?
    requires pc.Held? ==> file.Published?
    requires file.Published? ==> file.owner == s.OwnerOf(t)
    ensures Inv(s')
  {
    assert OwnsLock(s, t);
    forall u | u in s'.attempts ensures OwnsLock(s', u) && RecoveryWell(s', u) {
      assert OwnsLock(s, u) && RecoveryWell(s, u);
    }
    forall u | u in s'.attempts && HoldsClaim(s', u) ensures u != t && HoldsClaim(s, u) {}
  }

  lemma RemovedKeepsInv(s: State, t: Token, s': State)
    requires Inv(s) && t in s.attempts && s.Alive(t) && s.attempts[t].pc.Remove?
    requires GoesWithLock(s, t, s', Finished, None)
    ensures Inv(s')
  {
    assert OwnsLock(s, t);
    forall u | u in s'.attempts ensures OwnsLock(s', u) && RecoveryWell(s', u) {
      assert OwnsLock(s, u) && RecoveryWell(s, u);
    }
  }

  lemma OwningStepKeepsInv(s: State, t: Token, s': State)
    requires Inv(s) && t in s.attempts && s.Alive(t) && OwningStep(s, t, s')
    ensures Inv(s')
  {
    assert OwnsLock(s, t);
    var pc := s.attempts[t].pc;
    var pc' := s'.attempts[t].pc;
    if Goes(s, t, s', pc') {
      GoesKeepsInv(s, t, s', pc');
    } else if s'.lock.None? {
      RemovedKeepsInv(s, t, s');
    } else if s'.lock.value.claims == s.lock.value.claims {
      OwnFileKeepsInv(s, t, s', pc', s'.lock.value.ownerFile);
    } else {
      var c :| c in s.lock.value.claims
            && GoesWithLock(s, t, s', pc, Some(s.lock.value.(claims := s.lock.value.claims - {c})));
      DropClaimKeepsInv(s, t, s', pc, c);
    }
  }

  lemma {:induction false} RunKeepsInv(run: seq<State>, events: seq<Event>, k: nat)
    requires IsRun(run, events) && k < |run|
    ensures Inv(run[k])
  {
    if k > 0 {
      hide Inv, Next;
      RunKeepsInv(run, events, k - 1);
      StepKeepsInv(run[k - 1], events[k - 1], run[k]);
    }
  }

  lemma {:induction false} StepKeepsInv(s: State, e: Event, s': State)
    requires Inv(s) && Next(s, e, s')
    ensures Inv(s')
  {
    match e
    case Call(t) =>
      if RecoveryStep(s, t, s') {
        RecoveryStepKeepsInv(s, t, s');
      } else {
        OwningStepKeepsInv(s, t, s');
      }
    case _ => ProcessEventKeepsInv(s, e, s');
  }

  // ---------- Safety over every run ----------

  /** At most one live attempt is between its successful mkdir and its release. */
  predicate Exclusive(s: State) {
    forall t, u :: t in s.attempts && u in s.attempts && s.Alive(t) && s.Alive(u) ==>
      s.attempts[t].pc.Owning() && s.attempts[u].pc.Owning() ==> t == u
  }

  /** If event e removes, renames or re-signs the directory of a live creator, e is that creator's own call. */
  predicate RespectsOwner(s: State, e: Event, s': State) {
    s.lock.Some? && s.lock.value.creator in s.attempts && s.Alive(s.lock.value.creator) ==>
      || e == Call(s.lock.value.creator)
      || (s'.lock.Some? && s'.lock.value.generation == s.lock.value.generation
          && s'.lock.value.creator == s.lock.value.creator && s'.lock.value.ownerFile == s.lock.value.ownerFile)
  }

  lemma {:induction false} StepRespectsOwner(s: State, e: Event, s': State)
    requires Inv(s) && Next(s, e, s')
    ensures RespectsOwner(s, e, s')
  {
    if e.Call? {
      assert OwnsLock(s, e.token) && RecoveryWell(s, e.token);
    }
  }

  /** Main result: in every interleaving, with exits between any two steps, the lock excludes and its owner is
      respected. */
  lemma {:induction false} LockIsSafe(run: seq<State>, events: seq<Event>)
    requires IsRun(run, events)
    ensures forall i :: 0 <= i < |run| ==> Exclusive(run[i])
    ensures forall i :: 0 <= i < |events| ==> RespectsOwner(run[i], events[i], run[i + 1])
  {
    forall i | 0 <= i < |run| ensures Inv(run[i]) && Exclusive(run[i]) {
      RunKeepsInv(run, events, i);
      forall t, u | t in run[i].attempts && u in run[i].attempts && run[i].Alive(t) && run[i].Alive(u)
        ensures run[i].attempts[t].pc.Owning() && run[i].attempts[u].pc.Owning() ==> t == u
      {
        assert OwnsLock(run[i], t) && OwnsLock(run[i], u);
      }
    }
    forall i | 0 <= i < |events| ensures RespectsOwner(run[i], events[i], run[i + 1]) {
      StepRespectsOwner(run[i], events[i], run[i + 1]);
    }
  }

  // ---------- When an exited owner's lock can be taken over ----------

  function At(s: State, t: Token, pc: Pc, lock: Option<LockDir>): State
    requires t in s.attempts
  {
    s.(lock := lock, attempts := s.attempts[t := s.attempts[t].(pc := pc)])
  }

  lemma AtStep(s: State, t: Token, pc: Pc, lock: Option<LockDir>, pc': Pc, lock': Option<LockDir>)
    requires t in s.attempts
    ensures GoesWithLock(At(s, t, pc, lock), t, At(s, t, pc', lock'), pc', lock')
    ensures lock == lock' ==> Goes(At(s, t, pc, lock), t, At(s, t, pc', lock'), pc')
  {
    var left, right := At(s, t, pc, lock), At(s, t, pc', lock');
    assert right.attempts == left.attempts[t := left.attempts[t].(pc := pc')];
  }

  /** Attempt t, run alone, gets from s to end. */
  predicate RunsAlone(path: seq<State>, t: Token, s: State, end: State) {
    && |path| > 0 && path[0] == s && path[|path| - 1] == end
    && forall i :: 0 <= i < |path| - 1 ==> Next(path[i], Call(t), path[i + 1])
  }

  lemma SoloDetach(s: State, t: Token, owner: Owner) returns (path: seq<State>)
    requires t in s.attempts && s.Alive(t) && s.attempts[t].pc.Start?
    requires ReadsOwner(s, owner) && ProbeSaysExited(s, t, owner) && owner.token !in s.lock.value.claims
    ensures RunsAlone(path, t, s, At(s, t, Retry, None))
  {
    var g := s.lock.value.generation;
    var held := Some(s.lock.value.(claims := s.lock.value.claims + {owner.token}));
    var steps := [(Start, s.lock), (ReadOwner, s.lock), (ProbeOwner(owner), s.lock), (Claim(owner), s.lock),
                  (Recheck(owner, g), held), (Reprobe(owner, g), held), (Detach(owner, g), held),
                  (Clean, None), (Retry, None)];
    path := seq(9, i requires 0 <= i < 9 => At(s, t, steps[i].0, steps[i].1));
    assert path[0].attempts == s.attempts;
    forall i | 0 <= i < 8 ensures Next(path[i], Call(t), path[i + 1]) {
      AtStep(s, t, steps[i].0, steps[i].1, steps[i + 1].0, steps[i + 1].1);
      assert path[i].attempts[t] == s.attempts[t].(pc := steps[i].0);
    }
  }

  lemma SoloAcquire(s: State, t: Token) returns (path: seq<State>, end: State)
    requires t in s.attempts && s.Alive(t) && (s.attempts[t].pc.Start? || s.attempts[t].pc.Retry?) && s.lock.None?
    ensures RunsAlone(path, t, s, end) && end.live == s.live
    ensures end.attempts.Keys == s.attempts.Keys && forall u :: u in s.attempts && u != t ==>
        end.attempts[u] == s.attempts[u]
    ensures t in end.attempts && end.attempts[t].pc == Held(s.nextGeneration)
    ensures end.lock == Some(LockDir(s.nextGeneration, t, Published(s.OwnerOf(t)), {}))
  {
    var g := s.nextGeneration;
    var dir := LockDir(g, t, Absent, {});
    var s1 := s.(lock := Some(dir), nextGeneration := g + 1,
                 attempts := s.attempts[t := s.attempts[t].(made := Some(g), pc := Create(g))]);
    var s2 := At(s1, t, Write(g), Some(dir.(ownerFile := Partial)));
    end := At(s2, t, Held(g), Some(dir.(ownerFile := Published(s.OwnerOf(t)))));
    path := [s, s1, s2, end];
  }

  lemma PathGrows(s: State, t: Token, next: State, path: seq<State>, end: State)
    requires Next(s, Call(t), next) && RunsAlone(path, t, next, end)
    ensures RunsAlone([s] + path, t, s, end)
  {
    hide Next;
    var all := [s] + path;
    forall i | 0 <= i < |all| - 1 ensures Next(all[i], Call(t), all[i + 1]) {
      if i > 0 {
        assert all[i] == path[i - 1] && all[i + 1] == path[i];
      }
    }
  }

  // ---------- What a release does ----------

  /** The recursive removal, run alone, empties the directory and removes it, however many claims lie in it. */
  lemma {:induction false} SoloRemoval(s: State, t: Token) returns (path: seq<State>)
    requires t in s.attempts && s.Alive(t) && s.attempts[t].pc.Remove? && s.lock.Some?
    ensures RunsAlone(path, t, s, At(s, t, Finished, None))
    decreases if s.lock.value.ownerFile.Absent? then 0 else 1, |s.lock.value.claims|
  {
    var dir, pc := s.lock.value, s.attempts[t].pc;
    var end := At(s, t, Finished, None);
    assert s.attempts[t := s.attempts[t]] == s.attempts;
    if dir.ownerFile.Absent? && dir.claims == {} {
      path := [s, end];
    } else {
      var rest := dir.(ownerFile := Absent);
      if dir.ownerFile.Absent? {
        var c :| c in dir.claims;
        rest := dir.(claims := dir.claims - {c});
      }
      var next := s.(lock := Some(rest));
      assert GoesWithLock(s, t, next, pc, Some(rest));
      assert At(next, t, Finished, None) == end;
      var later := SoloRemoval(next, t);
      PathGrows(s, t, next, later, end);
      path := [s] + later;
    }
  }

  /** Releasing frees the lock: the holder running alone gets through its owner check and removes its directory. */
  lemma {:induction false} SoloRelease(s: State, t: Token) returns (path: seq<State>)
    requires Inv(s) && t in s.attempts && s.Alive(t) && s.attempts[t].pc.Held?
    ensures RunsAlone(path, t, s, At(s, t, Finished, None))
  {
    assert OwnsLock(s, t);
    var g := s.attempts[t].pc.generation;
    var checking, removing := At(s, t, ReleaseCheck(g), s.lock), At(s, t, Remove(g), s.lock);
    var later := SoloRemoval(removing, t);
    AtStep(s, t, ReleaseCheck(g), s.lock, Remove(g), s.lock);
    assert Next(checking, Call(t), removing);
    assert At(removing, t, Finished, None) == At(s, t, Finished, None);
    PathGrows(checking, t, removing, later, At(s, t, Finished, None));
    PathGrows(s, t, checking, [checking] + later, At(s, t, Finished, None));
    path := [s, checking] + later;
    assert path == [s] + ([checking] + later);
  }

  /** So does the cleanup after an owner file that could not be opened or written. */
  lemma {:induction false} SoloCleanup(s: State, t: Token) returns (path: seq<State>)
    requires Inv(s) && t in s.attempts && s.Alive(t) && (s.attempts[t].pc.Create? || s.attempts[t].pc.Write?)
    ensures RunsAlone(path, t, s, At(s, t, Finished, None))
  {
    assert OwnsLock(s, t);
    var removing := At(s, t, Remove(s.attempts[t].pc.generation), s.lock);
    var later := SoloRemoval(removing, t);
    assert Next(s, Call(t), removing);
    assert At(removing, t, Finished, None) == At(s, t, Finished, None);
    PathGrows(s, t, removing, later, At(s, t, Finished, None));
    path := [s] + later;
  }

  /** The lock changes hands: once the holder has released, the next installer in line signs a directory of its own. */
  lemma {:induction false} HandOver(s: State, t: Token, u: Token) returns (path: seq<State>, events: seq<Event>)
    requires Inv(s) && t in s.attempts && s.Alive(t) && s.attempts[t].pc.Held?
    requires u in s.attempts && s.Alive(u) && s.attempts[u].pc.Start?
    ensures IsPath(path, events, s)
    ensures var end := path[|events|];
            && t in end.attempts && end.attempts[t].pc.Finished? && u in end.attempts
            && end.attempts[u].pc == Held(s.nextGeneration)
            && end.lock == Some(LockDir(s.nextGeneration, u, Published(s.OwnerOf(u)), {}))
  {
    var first := SoloRelease(s, t);
    var mid := At(s, t, Finished, None);
    var es := AloneIsPath(first, t, s, mid);
    var second, end := SoloAcquire(mid, u);
    var fs := AloneIsPath(second, u, mid, end);
    hide Inv, Next;
    PathJoin(first, es, second, fs, s);
    path, events := first + second[1..], es + fs;
  }

  /** A removal that finishes took away the directory the attempt had made, once it was empty. */
  lemma {:induction false} RemovalTakesOwn(s: State, t: Token, s': State)
    requires Inv(s) && AttemptStep(s, t, s') && t in s'.attempts
    requires s'.attempts[t].pc.Finished? && s'.lock != s.lock && s.attempts[t].pc.Owning()
    ensures s.lock.Some? && s.attempts[t].made == Some(s.lock.value.generation) && s'.lock.None?
    ensures s.lock.value.ownerFile.Absent? && s.lock.value.claims == {}
  {
    assert OwnsLock(s, t);
  }

  /** Even where something else has meddled with the directory: a release removes only what carries its own signature,
      an owner file is made only where there is none, and only the directory it was made in is signed. */
  lemma {:induction false} GuardsHold(s: State, t: Token, s': State)
    requires AttemptStep(s, t, s') && t in s'.attempts
    ensures var pc, pc' := s.attempts[t].pc, s'.attempts[t].pc;
            && (pc.ReleaseCheck? && pc'.Remove? ==>
                  && s.lock.Some? && s.lock.value.ownerFile.Published?
                  && s.lock.value.ownerFile.owner.pid == s.attempts[t].pid
                  && s.lock.value.ownerFile.owner.token == t)
            && (pc.Create? && pc'.Write? ==> s.lock.Some? && s.lock.value.ownerFile.Absent?)
            && (pc.Write? && s'.lock != s.lock ==>
                  && s.lock.Some? && s.lock.value.generation == pc.generation
                  && s'.lock == Some(s.lock.value.(ownerFile := Published(s.OwnerOf(t)))))
  {
    var pc := s.attempts[t].pc;
    assert pc.ReleaseCheck? || pc.Create? || pc.Write? ==> OwningStep(s, t, s');
    hide RemovalStep, RecoveryStep;
  }

  /** A directory that has left the lock path. */
  predicate Gone(s: State, g: nat) {
    g < s.nextGeneration && (s.lock.Some? ==> s.lock.value.generation != g)
  }

  /** And it never comes back: what an acquire makes later is another directory. */
  lemma {:induction false} GoneStaysGone(run: seq<State>, events: seq<Event>, i: nat, j: nat, g: nat)
    requires IsRun(run, events) && i <= j < |run| && Gone(run[i], g)
    ensures Gone(run[j], g)
  {
    if i < j {
      GoneStaysGone(run, events, i, j - 1, g);
      assert Next(run[j - 1], events[j - 1], run[j]);
    }
  }

  // ---------- How every attempt ends ----------

  /** The place of a call in an attempt. */
  function Rank(pc: Pc): nat {
    match pc
    case Start => 0 case ReadOwner => 1 case ProbeOwner(_) => 2 case Claim(_) => 3 case Recheck(_, _) => 4
    case Reprobe(_, _) => 5 case Detach(_, _) => 6 case Unclaim(_, _) => 7 case Clean => 8 case Retry => 9
    case Create(_) => 10 case Write(_) => 11 case Held(_) => 12 case ReleaseCheck(_) => 13 case Remove(_) => 14
    case Finished => 15
  }

  function Entries(lock: Option<LockDir>): nat {
    if lock.None? then 0 else |lock.value.claims| + if lock.value.ownerFile.Absent? then 0 else 1
  }

  lemma RecoveryGoesForward(s: State, t: Token, s': State)
    requires t in s.attempts && RecoveryStep(s, t, s') && t in s'.attempts
    ensures var pc, pc' := s.attempts[t].pc, s'.attempts[t].pc;
            && Rank(pc) < Rank(pc')
            && (pc'.Clean? ==> pc.Detach? && s.lock.Some? && s'.lock.None?)
            && (pc'.Retry? ==> pc.Clean?)
            && (pc'.Create? ==> s.lock.None? && (pc.Start? || pc.Retry?))
  {}

  lemma RemovalGoesForward(s: State, t: Token, s': State)
    requires t in s.attempts && RemovalStep(s, t, s') && t in s'.attempts && s.attempts[t].pc.Remove?
    ensures s'.attempts[t].pc.Finished?
            || (s'.attempts[t].pc == s.attempts[t].pc && Entries(s'.lock) < Entries(s.lock))
  {
    var dir, pc := s.lock.value, s.attempts[t].pc;
    if c :| c in dir.claims && GoesWithLock(s, t, s', pc, Some(dir.(claims := dir.claims - {c}))) {
      assert |dir.claims - {c}| < |dir.claims|;
    }
  }

  lemma OwningGoesForward(s: State, t: Token, s': State)
    requires t in s.attempts && OwningStep(s, t, s') && t in s'.attempts && !s.attempts[t].pc.Remove?
    ensures var pc, pc' := s.attempts[t].pc, s'.attempts[t].pc;
            Rank(pc) < Rank(pc') && !pc'.Clean? && !pc'.Retry? && !pc'.Create?
  {}

  /** Every call brings its attempt nearer to its end: to a later place, or by one entry removed. It tries again only
      after it has taken an old directory away, and makes a directory only where there is none. */
  lemma {:induction false} CallsGoForward(s: State, t: Token, s': State)
    requires AttemptStep(s, t, s') && t in s'.attempts
    ensures var pc, pc' := s.attempts[t].pc, s'.attempts[t].pc;
            && (Rank(pc) < Rank(pc') || (pc' == pc && pc.Remove? && Entries(s'.lock) < Entries(s.lock)))
            && (pc'.Clean? ==> pc.Detach? && s.lock.Some? && s'.lock.None?)
            && (pc'.Retry? ==> pc.Clean?)
            && (pc'.Create? ==> s.lock.None? && (pc.Start? || pc.Retry?))
  {
    hide RecoveryStep, RemovalStep, GoesWithLock, Entries;
    if RecoveryStep(s, t, s') {
      RecoveryGoesForward(s, t, s');
    } else if !s.attempts[t].pc.Remove? {
      hide OwningStep;
      OwningGoesForward(s, t, s');
    } else if RemovalStep(s, t, s') {
      RemovalGoesForward(s, t, s');
    }
  }

  /** Where a call that fails leaves its attempt: with a claim to give back, a directory to remove, or nothing to do. */
  predicate Fails(pc: Pc, pc': Pc) {
    if pc.Recheck? || pc.Reprobe? || pc.Detach? then pc' == Unclaim(pc.owner, pc.at)
    else if pc.Create? || pc.Write? then pc' == Remove(pc.generation)
    else pc'.Finished?
  }

  /** Every call to the file system may fail, and a call that fails changes nothing. */
  lemma {:induction false} CallsMayFail(s: State, t: Token) returns (s': State)
    requires t in s.attempts && s.Alive(t)
    requires var pc := s.attempts[t].pc; !pc.Finished? && !pc.Held? && !pc.Clean?
    ensures AttemptStep(s, t, s') && t in s'.attempts && Fails(s.attempts[t].pc, s'.attempts[t].pc)
    ensures s' == s.(attempts := s.attempts[t := s'.attempts[t]])
  {
    var pc := s.attempts[t].pc;
    var pc' := if pc.Recheck? || pc.Reprobe? || pc.Detach? then Unclaim(pc.owner, pc.at)
               else if pc.Create? || pc.Write? then Remove(pc.generation) else Finished;
    s' := At(s, t, pc', s.lock);
    assert Goes(s, t, s', pc');
  }

  /** The lock is there, and either its owner cannot be read, or runs, or its recovery has been claimed already. */
  predicate Refuses(s: State, t: Token)
    requires t in s.attempts
  {
    s.lock.Some? &&
    (s.lock.value.ownerFile.Published? ==>
       || !ProbeSaysExited(s, t, s.lock.value.ownerFile.owner)
       || s.lock.value.ownerFile.owner.token in s.lock.value.claims)
  }

  /** Whatever a refused installer does by itself, it changes nothing at the lock path, claims nothing and does not try
      again. */
  lemma {:induction false} RefusedChangesNothing(path: seq<State>, t: Token, s: State, end: State, k: nat)
    requires t in s.attempts && s.Alive(t) && s.attempts[t].pc.Start? && Refuses(s, t)
    requires RunsAlone(path, t, s, end) && k < |path|
    ensures path[k].lock == s.lock && path[k].live == s.live && t in path[k].attempts
    ensures path[k].attempts[t].pid == s.attempts[t].pid
    ensures var pc := path[k].attempts[t].pc;
            && (pc.Start? || pc.ReadOwner? || pc.ProbeOwner? || pc.Claim? || pc.Finished?)
            && (pc.ProbeOwner? || pc.Claim? ==> s.lock.value.ownerFile == Published(pc.owner))
            && (pc.Claim? ==> ProbeSaysExited(s, t, pc.owner))
  {
    if k > 0 {
      RefusedChangesNothing(path, t, s, end, k - 1);
      assert Next(path[k - 1], Call(t), path[k]);
    }
  }

  /** A recovery running alone takes over from an exited owner whose file was published and whose token is unclaimed. */
  lemma {:induction false} SoloRecoverySucceeds(s: State, t: Token) returns (path: seq<State>, end: State)
    requires Inv(s) && t in s.attempts && s.Alive(t) && s.attempts[t].pc.Start?
    requires s.lock.Some? && s.lock.value.ownerFile.Published?
    requires ProbeSaysExited(s, t, s.lock.value.ownerFile.owner)
    requires s.lock.value.creator !in s.lock.value.claims
    ensures RunsAlone(path, t, s, end)
    ensures t in end.attempts && end.attempts[t].pc == Held(s.nextGeneration)
    ensures end.lock == Some(LockDir(s.nextGeneration, t, Published(s.OwnerOf(t)), {}))
  {
    var first := SoloDetach(s, t, s.lock.value.ownerFile.owner);
    var mid := At(s, t, Retry, None);
    var second, last := SoloAcquire(mid, t);
    end := last;
    path := first + second[1..];
    forall i | 0 <= i < |path| - 1 ensures Next(path[i], Call(t), path[i + 1]) {
      if i >= |first| - 1 {
        assert path[i] == second[i - (|first| - 1)];
      }
    }
  }

  /** The creator is gone or done, and its directory is unsigned or its recovery was interrupted after the claim. */
  predicate Orphaned(s: State) {
    && s.lock.Some? && s.lock.value.creator in s.attempts
    && var dir := s.lock.value;
       && !(s.Alive(dir.creator) && s.attempts[dir.creator].pc.Owning())
       && (|| !dir.ownerFile.Published?
           || (dir.creator in dir.claims && forall t :: t in s.attempts && s.Alive(t) ==> !HoldsClaim(s, t)))
  }

  lemma CallKeepsOrphanDir(s: State, t: Token, s': State)
    requires Inv(s) && Orphaned(s) && AttemptStep(s, t, s')
    ensures s'.lock.Some? && s'.lock.value.generation == s.lock.value.generation
    ensures s'.lock.value.creator == s.lock.value.creator && s'.lock.value.ownerFile == s.lock.value.ownerFile
    ensures t in s'.attempts && (!s.attempts[t].pc.Owning() ==> !s'.attempts[t].pc.Owning())
    ensures s.lock.value.ownerFile.Published? ==> s.lock.value.creator in s'.lock.value.claims && !HoldsClaim(s', t)
  {
    assert OwnsLock(s, t) && RecoveryWell(s, t);
    hide Inv, ProcessesWell, LockWell, ClaimsWell;
    if s.attempts[t].pc.Unclaim? && s.attempts[t].pc.owner.token == s.lock.value.creator {
      assert HoldsClaim(s, t);
    }
  }

  lemma CallFrame(s: State, t: Token, s': State)
    requires AttemptStep(s, t, s')
    ensures s'.live == s.live && s'.attempts.Keys == s.attempts.Keys
    ensures forall u :: u in s.attempts && u != t ==> s'.attempts[u] == s.attempts[u]
    ensures s'.attempts[t].process == s.attempts[t].process
  {}

  /** An orphaned lock stays at the lock path through every step, so no installer acquires it. */
  lemma StepKeepsOrphan(s: State, e: Event, s': State)
    requires Inv(s) && Orphaned(s) && Next(s, e, s')
    ensures Orphaned(s') && s'.lock.value.generation == s.lock.value.generation
  {
    if e.Call? {
      CallKeepsOrphanDir(s, e.token, s');
      CallFrame(s, e.token, s');
    }
    forall t | t in s'.attempts && s'.Alive(t) && s.lock.value.ownerFile.Published? ensures !HoldsClaim(s', t) {
      if !(e.Call? && t == e.token) {
        assert t in s.attempts && s.Alive(t) ==> !HoldsClaim(s, t);
      }
    }
  }

  lemma {:induction false} OrphanIsPermanent(run: seq<State>, events: seq<Event>, i: nat, j: nat)
    requires IsRun(run, events) && i <= j < |run| && Orphaned(run[i])
    ensures Orphaned(run[j]) && run[j].lock.value.generation == run[i].lock.value.generation
  {
    hide Inv, Orphaned, Next;
    if i < j {
      OrphanIsPermanent(run, events, i, j - 1);
      RunKeepsInv(run, events, j - 1);
      StepKeepsOrphan(run[j - 1], events[j - 1], run[j]);
    }
  }

  // ---------- When a lock can still be taken over ----------

  /** What may happen from s on. */
  predicate IsPath(path: seq<State>, events: seq<Event>, s: State) {
    && |path| == |events| + 1 && path[0] == s
    && forall i :: 0 <= i < |events| ==> Next(path[i], events[i], path[i + 1])
  }

  lemma PathJoin(a: seq<State>, es: seq<Event>, b: seq<State>, fs: seq<Event>, s: State)
    requires IsPath(a, es, s) && IsPath(b, fs, a[|es|])
    ensures IsPath(a + b[1..], es + fs, s) && (a + b[1..])[|es + fs|] == b[|fs|]
  {
    hide Next;
    var path, events := a + b[1..], es + fs;
    forall i | 0 <= i < |events| ensures Next(path[i], events[i], path[i + 1]) {
      if i >= |es| {
        assert path[i] == b[i - |es|] && path[i + 1] == b[i + 1 - |es|] && events[i] == fs[i - |es|];
      }
    }
  }

  lemma AloneIsPath(path: seq<State>, t: Token, s: State, end: State) returns (events: seq<Event>)
    requires RunsAlone(path, t, s, end)
    ensures IsPath(path, events, s) && path[|events|] == end
  {
    events := seq(|path| - 1, i requires 0 <= i < |path| - 1 => Call(t));
    hide Next;
  }

  lemma {:induction false} PathKeepsInv(path: seq<State>, events: seq<Event>, s: State, k: nat)
    requires Inv(s) && IsPath(path, events, s) && k < |path|
    ensures Inv(path[k])
  {
    hide Inv, Next;
    if k > 0 {
      PathKeepsInv(path, events, s, k - 1);
      StepKeepsInv(path[k - 1], events[k - 1], path[k]);
    }
  }

  lemma {:induction false} PathKeepsOrphan(path: seq<State>, events: seq<Event>, s: State, k: nat)
    requires Inv(s) && Orphaned(s) && IsPath(path, events, s) && k < |path|
    ensures Orphaned(path[k]) && path[k].lock.value.generation == s.lock.value.generation
  {
    hide Inv, Orphaned, Next;
    if k > 0 {
      PathKeepsOrphan(path, events, s, k - 1);
      PathKeepsInv(path, events, s, k - 1);
      StepKeepsOrphan(path[k - 1], events[k - 1], path[k]);
    }
  }

  lemma {:induction false} Fresh(used: set<nat>) returns (n: nat)
    ensures n !in used && forall k: nat :: k in used ==> k < n
    decreases |used|
  {
    if used == {} {
      n := 0;
    } else {
      var k: nat :| k in used;
      var m := Fresh(used - {k});
      n := if k < m then m else k + 1;
      forall x: nat | x in used ensures x < n {
        assert x == k || x in used - {k};
      }
    }
  }

  /** The owner has signed, has given its directory up, and its token is unclaimed. */
  predicate Unclaimed(s: State) {
    && s.lock.Some? && s.lock.value.ownerFile.Published?
    && s.lock.value.creator !in s.lock.value.claims
  }

  /** A live recovery that holds the claim may give it back. */
  lemma ClaimReturns(s: State, u: Token) returns (path: seq<State>, events: seq<Event>)
    requires Inv(s) && u in s.attempts && s.Alive(u) && HoldsClaim(s, u) && s.lock.value.ownerFile.Published?
    ensures IsPath(path, events, s) && Unclaimed(path[|events|])
    ensures path[|events|].lock.value.generation == s.lock.value.generation
  {
    var pc := s.attempts[u].pc;
    var waiting := s.(attempts := s.attempts[u := s.attempts[u].(pc := Unclaim(pc.owner, pc.at))]);
    var done := waiting.(lock := Some(s.lock.value.(claims := s.lock.value.claims - {pc.owner.token})),
                         attempts := waiting.attempts[u := waiting.attempts[u].(pc := Finished)]);
    if pc.Unclaim? {
      assert waiting.attempts == s.attempts;
      path, events := [s, done], [Call(u)];
    } else {
      assert Goes(s, u, waiting, Unclaim(pc.owner, pc.at));
      path, events := [s, waiting, done], [Call(u), Call(u)];
    }
    assert GoesWithLock(waiting, u, done, Finished, done.lock);
  }

  /** The process with the owner's number, its own or another's, may exit. */
  lemma NumberFreed(s: State, pid: Pid) returns (path: seq<State>, events: seq<Event>)
    requires Inv(s)
    ensures IsPath(path, events, s)
    ensures path[|events|].lock == s.lock && path[|events|].NoSuchProcess(pid)
  {
    if pid in s.live.Values {
      var q :| q in s.live && s.live[q] == pid;
      var s' := s.(live := s.live - {q}, exited := s.exited + {q});
      path, events := [s, s'], [Exit(q)];
      forall p | p in s'.live ensures s'.live[p] != pid {
        assert p in s.live && p != q;
      }
    } else {
      path, events := [s], [];
    }
  }

  /** A new process with a number of its own may start a call. */
  lemma NewInstaller(s: State, pid: Pid) returns (path: seq<State>, events: seq<Event>, t: Token)
    requires s.NoSuchProcess(pid)
    ensures IsPath(path, events, s)
    ensures var s' := path[|events|];
            && s'.lock == s.lock && s'.nextGeneration == s.nextGeneration && t in s'.attempts && s'.Alive(t)
                && s'.attempts[t].pc.Start?
            && s'.attempts[t].pid != pid && s'.NoSuchProcess(pid)
  {
    var p := Fresh(s.live.Keys + s.exited);
    var own := Fresh(s.live.Values + {pid});
    t := Fresh(s.attempts.Keys);
    var s1 := s.(live := s.live[p := own]);
    var s2 := s1.(attempts := s1.attempts[t := Attempt(p, own, 0, None, Start)]);
    path, events := [s, s1, s2], [Spawn(p, own), Begin(p, t, 0)];
    forall q | q in s2.live ensures s2.live[q] != pid {
      assert q != p ==> q in s.live && s.live[q] in s.live.Values;
    }
  }

  lemma UnclaimedRecovers(s: State) returns (path: seq<State>, events: seq<Event>)
    requires Inv(s) && Unclaimed(s)
    ensures IsPath(path, events, s) && TakenOver(s, path[|events|])
  {
    var owner := s.lock.value.ownerFile.owner;
    var a, es := NumberFreed(s, owner.pid);
    var b, fs, t := NewInstaller(a[|es|], owner.pid);
    PathJoin(a, es, b, fs, s);
    var c, gs := a + b[1..], es + fs;
    PathKeepsInv(c, gs, s, |gs|);
    var solo, end := SoloRecoverySucceeds(c[|gs|], t);
    var hs := AloneIsPath(solo, t, c[|gs|], end);
    AloneIsAlive(solo, t, c[|gs|], end, |solo| - 1);
    PathJoin(c, gs, solo, hs, s);
    NewerGeneration(s, c[|gs|], c, gs);
    path, events := c + solo[1..], gs + hs;
  }

  lemma {:induction false} AloneIsAlive(path: seq<State>, t: Token, s: State, end: State, k: nat)
    requires RunsAlone(path, t, s, end) && t in s.attempts && s.Alive(t) && k < |path|
    ensures t in path[k].attempts && path[k].Alive(t)
  {
    if k > 0 {
      AloneIsAlive(path, t, s, end, k - 1);
      assert Next(path[k - 1], Call(t), path[k]);
      CallFrame(path[k - 1], t, path[k]);
      hide Next;
    }
  }

  lemma NewerGeneration(s: State, s': State, path: seq<State>, events: seq<Event>)
    requires Inv(s) && Inv(s') && s.lock.Some? && s'.lock == s.lock
    ensures s.lock.value.generation < s'.nextGeneration
  {}

  /** A live installer holds a directory that is not the one of before. */
  predicate TakenOver(s: State, s': State) {
    && s.lock.Some? && s'.lock.Some? && s'.lock.value.generation != s.lock.value.generation
    && var t := s'.lock.value.creator;
       t in s'.attempts && s'.Alive(t) && s'.attempts[t].pc == Held(s'.lock.value.generation)
  }

  /** A lock whose creator has exited or finished can be taken over in some continuation exactly when it is not
      orphaned: when its owner file was published, and no claim is left on it or the claim's maker still lives. */
  lemma {:induction false} RecoverableExactlyWhen(s: State)
    requires Inv(s) && s.lock.Some? && !(s.Alive(s.lock.value.creator) && s.attempts[s.lock.value.creator].pc.Owning())
    ensures (exists path, events :: IsPath(path, events, s) && TakenOver(s, path[|events|])) <==> !Orphaned(s)
  {
    if Orphaned(s) {
      forall path, events | IsPath(path, events, s) ensures !TakenOver(s, path[|events|]) {
        PathKeepsOrphan(path, events, s, |events|);
      }
    } else {
      var path, events := Recovery(s);
    }
  }

  lemma Recovery(s: State) returns (path: seq<State>, events: seq<Event>)
    requires Inv(s) && s.lock.Some? && !Orphaned(s)
    requires !(s.Alive(s.lock.value.creator) && s.attempts[s.lock.value.creator].pc.Owning())
    ensures IsPath(path, events, s) && TakenOver(s, path[|events|])
  {
    if s.lock.value.creator in s.lock.value.claims {
      var u :| u in s.attempts && s.Alive(u) && HoldsClaim(s, u);
      var a, es := ClaimReturns(s, u);
      PathKeepsInv(a, es, s, |es|);
      var b, fs := UnclaimedRecovers(a[|es|]);
      PathJoin(a, es, b, fs, s);
      path, events := a + b[1..], es + fs;
    } else {
      path, events := UnclaimedRecovers(s);
    }
  }

  /** Orphans do come about: an installer may exit between its mkdir and its owner file. */
  lemma {:induction false} OrphanIsReachable() returns (run: seq<State>, events: seq<Event>)
    ensures IsRun(run, events) && |events| == 4 && Orphaned(run[4])
  {
    var s0 := State(None, 0, map[], map[], {});
    var s1 := s0.(live := map[0 := 7]);
    var s2 := s1.(attempts := map[0 := Attempt(0, 7, 0, None, Start)]);
    var s3 := s2.(lock := Some(LockDir(0, 0, Absent, {})), nextGeneration := 1,
        attempts := map[0 := Attempt(0, 7, 0, Some(0), Create(0))]);
    var s4 := s3.(live := map[], exited := {0});
    run, events := [s0, s1, s2, s3, s4], [Spawn(0, 7), Begin(0, 0, 0), Call(0), Exit(0)];
    assert MakesLock(s2, 0, s3);
    assert Next(s3, Exit(0), s4) by { assert s3.live - {0} == s4.live; }
  }
}
