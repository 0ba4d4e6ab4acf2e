/** Every RUNNABLE process is in exactly one place: about to be queued by the holder of its lock, queued
    once, or picked by one CPU. The status of a process follows from where its code is. */
module SchedulerClaims {
  import opened Wrappers
  import opened RunQueues
  import opened Scheduler
  import opened SchedulerLocks

  function AfterStatus(a: After): Status {
    if a.Exiting? then Zombie else Running
  }

  /** The status of a process that a CPU executes. */
  function StatusOf(pc: Pc): Status {
    match pc
    case Push0(_, k) => PushStatus(k)
    case Push1(_, k) => PushStatus(k)
    case Push2(_, k) => PushStatus(k)
    case Wake0(_, _, a) => AfterStatus(a)
    case Wake1(_, _, _, a) => AfterStatus(a)
    case Wake2(_, _, _, a) => AfterStatus(a)
    case Switch(why) => if why == Yielded then Runnable else if why == Exited then Zombie else Sleeping
    case _ => Running
  }

  function PushStatus(k: Then): Status {
    match k
    case ThenSwitch => Runnable
    case ThenForked => Running
    case ThenWake(_, _, a) => AfterStatus(a)
  }

  /** The process that is about to be queued. */
  function Pushes(pc: Pc): Option<Pid> {
    match pc
    case Push0(q, _) => Some(q)
    case Push1(q, _) => Some(q)
    case _ => None
  }

  /** The process that a scheduler loop has picked. */
  function Picks(spc: Spc): Option<Pid> {
    match spc
    case Found(next) => next
    case Take(p) => Some(p)
    case Start(p) => Some(p)
    case _ => None
  }

  /** What a process may be like that no CPU executes. */
  predicate OffOk(r: Proc) {
    match r.pc
    case Resume(Yielded) => r.status == Runnable || r.status == Initial
    case Resume(Slept(l)) => r.status == Runnable || (r.status == Sleeping && r.chan == Some(LockChan(l)))
    case Resume(Exited) => r.status == Zombie
    case _ => false
  }

  predicate OnOk(r: Proc) {
    r.status == StatusOf(r.pc) && r.pc != Resume(Exited) &&
    (r.pc.Switch? && r.pc.why.Slept? ==> r.chan == Some(LockChan(r.pc.why.l)))
  }

  /** What the code of process `p` refers to is there. */
  predicate Refers(s: State, p: Pid, pc: Pc) {
    match pc
    case Push0(q, _) => q in s.procs
    case Push1(q, _) => q in s.procs
    case Push2(q, _) => q in s.procs
    case Wake1(_, i, q, _) => q in s.procs && i < |s.list| && s.list[i] == q
    case Wake2(_, _, q, _) => q in s.procs
    case Fork1(np) => np in s.procs && s.procs[np].status == Initial && s.procs[np].parent == Some(p)
    case Fork2(np) => np in s.procs
    case Lock1(l) => l in s.locks
    case Sleep0(l) => l in s.locks
    case Sleep1(l) => l in s.locks
    case Sleep2(l) => l in s.locks
    case Switch(why) => why.Slept? ==> why.l in s.locks
    case Resume(why) => why.Slept? ==> why.l in s.locks
    case Sleep3(l) => l in s.locks
    case Sleep4(l) => l in s.locks
    case Unlock1(l) => l in s.locks
    case Check1(l) => l in s.locks
    case _ => true
  }

  /** The place that a claim names. */
  predicate ClaimOk(s: State, p: Pid, claim: Claim) {
    match claim
    case Unclaimed => true
    case Queued => p in s.rq.order
    case Pushed(c) =>
      c in s.cpus && s.cpus[c].on.Some? && s.cpus[c].on.value in s.procs
          && Pushes(s.procs[s.cpus[c].on.value].pc) == Some(p)
    case Picked(c) => c in s.cpus && s.cpus[c].on == None && Picks(s.cpus[c].spc) == Some(p)
  }

  /** What holds of a process by itself. */
  predicate Local(r: Proc, p: Pid) {
    && (r.status == Runnable <==> r.claim != Unclaimed)
    && (r.queued <==> r.claim == Queued)
    && (if r.cpu.Some? then OnOk(r) else OffOk(r))
    && PcOk(r.pc, p)
  }

  ghost predicate Locals(s: State) {
    forall p {:trigger s.procs[p]} | p in s.procs :: Local(s.procs[p], p)
  }

  ghost predicate References(s: State) {
    && (forall p {:trigger s.procs[p]} | p in s.procs :: Refers(s, p, s.procs[p].pc))
    && s.list != [] && (forall p {:trigger p in s.list} | p in s.list :: p in s.procs)
  }

  /** Claims, and what claims a process, agree. */
  ghost predicate Claims(s: State) {
    && (forall p {:trigger s.procs[p]} | p in s.procs :: ClaimOk(s, p, s.procs[p].claim))
    && (forall p {:trigger s.procs[p]} | p in s.procs && s.procs[p].cpu.Some? && Pushes(s.procs[p].pc).Some? ::
          Pushes(s.procs[p].pc).value in s.procs
              && s.procs[Pushes(s.procs[p].pc).value].claim == Pushed(s.procs[p].cpu.value))
    && (forall c {:trigger s.cpus[c].spc} | c in s.cpus && s.cpus[c].on.None? && Picks(s.cpus[c].spc).Some? ::
          Picks(s.cpus[c].spc).value in s.procs && s.procs[Picks(s.cpus[c].spc).value].claim == Picked(c))
    && (forall p {:trigger p in s.rq.order} | p in s.rq.order :: p in s.procs && s.procs[p].claim == Queued)
  }

  ghost predicate ClaimsInv(s: State) {
    Locals(s) && References(s) && Claims(s)
  }

  /** The discard branch of schedule is never taken. */
  lemma NothingDiscarded(s: State)
    requires ClaimsInv(s) && s.rq.order != []
    ensures s.rq.order[0] in s.procs && s.procs[s.rq.order[0]].status == Runnable
            && s.procs[s.rq.order[0]].claim == Queued
  {
    assert s.rq.order[0] in s.rq.order;
    assert Local(s.procs[s.rq.order[0]], s.rq.order[0]);
  }

  lemma ProcIs(s: State, p: Pid)
    requires ClaimsInv(s) && p in s.procs
    ensures Local(s.procs[p], p) && Refers(s, p, s.procs[p].pc) && ClaimOk(s, p, s.procs[p].claim)
    ensures s.procs[p].cpu.Some? && Pushes(s.procs[p].pc).Some? ==>
              Pushes(s.procs[p].pc).value in s.procs
                  && s.procs[Pushes(s.procs[p].pc).value].claim == Pushed(s.procs[p].cpu.value)
  {}

  // ----- What does not change

  ghost predicate SameCpus(s: State, t: State) {
    && t.cpus.Keys == s.cpus.Keys
    && (forall c {:trigger t.cpus[c]} {:trigger s.cpus[c]} | c in s.cpus ::
          t.cpus[c].on == s.cpus[c].on && t.cpus[c].spc == s.cpus[c].spc)
  }

  /** All processes but `p` and `q` are as before. */
  ghost predicate Others(s: State, t: State, p: Pid, q: Pid) {
    && p in s.procs && q in s.procs && t.procs.Keys == s.procs.Keys && t.list == s.list && t.locks.Keys == s.locks.Keys
    && (forall x {:trigger t.procs[x]} {:trigger s.procs[x]} | x in s.procs && x != p && x != q ::
          t.procs[x] == s.procs[x])
  }

  /** A process stops being INITIAL only at the hands of its parent. */
  predicate KeepsInitial(r: Proc, u: Proc, p: Pid) {
    r.status == Initial ==> r.parent == Some(p) || (u.status == Initial && u.parent == r.parent)
  }

  lemma OthersStay(s: State, t: State, p: Pid, q: Pid)
    requires Others(s, t, p, q) && Locals(s) && References(s)
    requires Local(t.procs[p], p) && Local(t.procs[q], q) && Refers(t, p, t.procs[p].pc) && Refers(t, q, t.procs[q].pc)
    requires KeepsInitial(s.procs[p], t.procs[p], p) && KeepsInitial(s.procs[q], t.procs[q], p)
    ensures Locals(t) && References(t)
  {
    hide Local;
    forall x | x in t.procs ensures Refers(t, x, t.procs[x].pc) {
      assert Refers(s, x, s.procs[x].pc);
    }
  }

  // ----- Steps that leave status, claims and queue alone

  lemma PcClaims(s: State, t: State, p: Pid)
    requires p in s.procs && s.procs[p].cpu.Some? && SameCpus(s, t) && Others(s, t, p, p) && t.rq.order == s.rq.order
    requires var r, u := s.procs[p], t.procs[p];
      && u.status == r.status && u.claim == r.claim && u.queued == r.queued && u.cpu == r.cpu && u.parent == r.parent
      && Pushes(u.pc) == Pushes(r.pc) && OnOk(u) && PcOk(u.pc, p) && Refers(t, p, u.pc)
    requires ClaimsInv(s)
    ensures ClaimsInv(t)
  {
    hide OnOk;
    hide OffOk;
    hide PcOk;
    hide Refers;
    hide Pushes;
    hide Claims;
    hide ClaimOk;
    ProcIs(s, p);
    OthersStay(s, t, p, p);
    SameClaims(s, t, p);
  }

  lemma SameClaims(s: State, t: State, p: Pid)
    requires p in s.procs && SameCpus(s, t) && Others(s, t, p, p) && t.rq.order == s.rq.order && Claims(s)
    requires var r, u := s.procs[p], t.procs[p];
      u.status == r.status && u.claim == r.claim && u.queued == r.queued && u.cpu == r.cpu
          && Pushes(u.pc) == Pushes(r.pc)
    ensures Claims(t)
  {
    hide Pushes;
    hide Picks;
    forall x | x in t.procs ensures ClaimOk(t, x, t.procs[x].claim) {
      assert ClaimOk(s, x, s.procs[x].claim);
    }
  }

  // ----- Steps that claim

  /** Process `p` is about to queue `q`, which nobody has claimed. */
  lemma ClaimedPush(s: State, t: State, c: nat, p: Pid, q: Pid)
    requires Executes(s, c, p) && s.procs[p].cpu == Some(c) && SameCpus(s, t) && t.rq.order == s.rq.order
             && Others(s, t, p, q)
    requires Pushes(s.procs[p].pc) == None && Pushes(t.procs[p].pc) == Some(q) && s.procs[q].claim == Unclaimed
    requires t.procs[p].cpu == s.procs[p].cpu && t.procs[q].cpu == s.procs[q].cpu && t.procs[q].claim == Pushed(c)
    requires q != p ==> t.procs[p].claim == s.procs[p].claim && t.procs[q].pc == s.procs[q].pc
    requires Claims(s)
    ensures Claims(t)
  {
    hide Pushes;
    hide Picks;
    forall x | x in t.procs ensures ClaimOk(t, x, t.procs[x].claim) {
      assert ClaimOk(s, x, s.procs[x].claim);
    }
  }

  lemma YieldClaims(s: State, c: nat, p: Pid)
    requires Executes(s, c, p) && s.procs[p].pc == Yield1 && s.procs[p].cpu == Some(c)
    requires ClaimsInv(s)
    ensures ClaimsInv(DoYield(s, c, p))
  {
    hide Locals;
    hide References;
    hide Claims;
    var t := DoYield(s, c, p);
    ProcIs(s, p);
    OthersStay(s, t, p, p);
    ClaimedPush(s, t, c, p, p);
  }

  lemma ForkClaims(s: State, c: nat, p: Pid, np: Pid)
    requires Executes(s, c, p) && s.procs[p].pc == Fork1(np) && s.procs[p].cpu == Some(c)
    requires ClaimsInv(s)
    ensures np in s.procs && ClaimsInv(DoFork(s, c, p, np))
  {
    hide Locals;
    hide References;
    hide Claims;
    ProcIs(s, p);
    ProcIs(s, np);
    var t := DoFork(s, c, p, np);
    OthersStay(s, t, p, np);
    ClaimedPush(s, t, c, p, np);
  }

  /** wakeup finds a process that sleeps: no CPU executes it, since its lock is held here. */
  lemma WakeOff(s: State, c: nat, p: Pid, q: Pid)
    requires Executes(s, c, p) && q in s.procs && q != p && s.procs[q].status == Sleeping
             && Holds(s.procs[p].pc, p, ProcLock(q))
    requires LocksInv(s) && PlacesInv(s) && ClaimsInv(s)
    ensures s.procs[q].cpu == None && s.procs[q].claim == Unclaimed
  {
    hide LocksInv;
    hide References;
    hide Claims;
    ProcIs(s, q);
    if s.procs[q].cpu.Some? {
      OneHolds(s, c, s.procs[q].cpu.value, ProcLock(q));
    }
  }

  lemma WakeClaims(s: State, c: nat, p: Pid, chan: Chan, i: nat, q: Pid, a: After)
    requires Executes(s, c, p) && s.procs[p].pc == Wake1(chan, i, q, a) && s.procs[p].cpu == Some(c)
    requires q in s.procs && s.procs[q].status == Sleeping && s.procs[q].chan == Some(chan) && q != p
    requires s.procs[q].cpu == None && s.procs[q].claim == Unclaimed
    requires ClaimsInv(s)
    ensures ClaimsInv(DoWake(s, c, p, chan, i, q, a))
  {
    hide Locals;
    hide References;
    hide Claims;
    ProcIs(s, p);
    ProcIs(s, q);
    var t := DoWake(s, c, p, chan, i, q, a);
    OthersStay(s, t, p, q);
    ClaimedPush(s, t, c, p, q);
  }

  // ----- Steps that change the status only

  lemma Unqueued(s: State, t: State, p: Pid)
    requires p in s.procs && SameCpus(s, t) && t.rq.order == s.rq.order && Others(s, t, p, p) && Claims(s)
    requires Pushes(s.procs[p].pc) == None == Pushes(t.procs[p].pc) && t.procs[p].claim == s.procs[p].claim
    ensures Claims(t)
  {
    hide Pushes;
    hide Picks;
    forall x | x in t.procs ensures ClaimOk(t, x, t.procs[x].claim) {
      assert ClaimOk(s, x, s.procs[x].claim);
    }
  }

  lemma SleepClaims(s: State, c: nat, p: Pid, l: int)
    requires Executes(s, c, p) && s.procs[p].pc == Sleep2(l) && s.procs[p].cpu == Some(c)
    requires ClaimsInv(s)
    ensures ClaimsInv(DoSleep(s, p, l))
  {
    hide Locals;
    hide References;
    hide Claims;
    var t := DoSleep(s, p, l);
    ProcIs(s, p);
    OthersStay(s, t, p, p);
    Unqueued(s, t, p);
  }

  lemma ExitClaims(s: State, c: nat, p: Pid)
    requires Executes(s, c, p) && s.procs[p].pc == Exit1 && s.procs[p].cpu == Some(c)
    requires ClaimsInv(s)
    ensures ClaimsInv(DoExit(s, p))
  {
    hide Locals;
    hide References;
    hide Claims;
    var t := DoExit(s, p);
    ProcIs(s, p);
    OthersStay(s, t, p, p);
    Unqueued(s, t, p);
  }

  // ----- rb_push_back

  lemma PushClaims(s: State, c: nat, p: Pid, q: Pid, k: Then)
    requires Executes(s, c, p) && s.procs[p].pc == Push1(q, k) && s.procs[p].cpu == Some(c)
    requires ClaimsInv(s) && PlacesInv(s) && Fair(s.rq)
    ensures q in s.procs && !s.procs[q].queued && q !in s.rq.order && ClaimsInv(DoPush(s, p, q, k))
  {
    hide Locals;
    hide References;
    hide Claims;
    hide Fair;
    hide Push;
    ProcIs(s, p);
    ProcIs(s, q);
    NotInOrder(s, q);
    PushFair(s.rq, q);
    PushIs(s, p, q, k);
    var t := DoPush(s, p, q, k);
    hide DoPush;
    hide Others;
    hide OnOk;
    hide OffOk;
    hide PcOk;
    OthersStay(s, t, p, q);
    PushedClaims(s, t, c, p, q);
  }

  /** What the insertion does to the two processes. */
  lemma PushIs(s: State, p: Pid, q: Pid, k: Then)
    requires p in s.procs && q in s.procs && s.procs[p].pc == Push1(q, k) && !s.procs[q].queued
    ensures var t := DoPush(s, p, q, k);
      && Others(s, t, p, q) && SameCpus(s, t) && t.cpus == s.cpus && t.rq == Push(s.rq, q)
      && t.held == s.held && t.locks == s.locks && t.panic == s.panic
      && Pushes(t.procs[p].pc) == None && t.procs[p].cpu == s.procs[p].cpu && t.procs[q].cpu == s.procs[q].cpu
      && t.procs[q].claim == Queued
      && (q != p ==> t.procs[p] == s.procs[p].(pc := Push2(q, k))
                     && t.procs[q] == s.procs[q].(queued := true, claim := Queued))
      && (q == p ==> t.procs[p] == s.procs[p].(pc := Push2(q, k), queued := true, claim := Queued))
  {
    hide Push;
  }

  lemma NotInOrder(s: State, q: Pid)
    requires Claims(s) && q in s.procs && s.procs[q].claim != Queued
    ensures q !in s.rq.order
  {}

  lemma PushedClaims(s: State, t: State, c: nat, p: Pid, q: Pid)
    requires Executes(s, c, p) && s.procs[p].cpu == Some(c) && t.cpus == s.cpus && Others(s, t, p, q)
    requires forall x :: x in t.rq.order <==> x == q || x in s.rq.order
    requires Pushes(s.procs[p].pc) == Some(q) && Pushes(t.procs[p].pc) == None && s.procs[q].claim == Pushed(c)
    requires t.procs[p].cpu == s.procs[p].cpu && t.procs[q].cpu == s.procs[q].cpu && t.procs[q].claim == Queued
    requires q != p ==> t.procs[p].claim == s.procs[p].claim && t.procs[q].pc == s.procs[q].pc
    requires Claims(s) && PlacesInv(s)
    ensures Claims(t)
  {
    hide Pushes;
    hide Picks;
    forall x | x in t.procs ensures ClaimOk(t, x, t.procs[x].claim) {
      assert ClaimOk(s, x, s.procs[x].claim);
    }
  }

  // ----- Switching

  lemma SwitchClaims(s: State, c: nat, p: Pid, why: Why, t: State)
    requires Executes(s, c, p) && s.procs[p].pc == Switch(why) && s.procs[p].cpu == Some(c) && s.cpus[c].spc.Back?
    requires t == SetProc(s, p, s.procs[p].(pc := Resume(why),
             cpu := None)).(cpus := s.cpus[c := s.cpus[c].(on := None)])
    requires ClaimsInv(s)
    ensures ClaimsInv(t)
  {
    hide Locals;
    hide References;
    hide Claims;
    ProcIs(s, p);
    OthersStay(s, t, p, p);
    SwitchedClaims(s, c, p, t);
  }

  lemma SwitchedClaims(s: State, c: nat, p: Pid, t: State)
    requires Executes(s, c, p) && s.cpus[c].spc.Back? && Others(s, t, p, p)
    requires Pushes(s.procs[p].pc) == None == Pushes(t.procs[p].pc) && t.rq == s.rq
             && t.cpus == s.cpus[c := s.cpus[c].(on := None)]
    requires t.procs[p].claim == s.procs[p].claim && t.procs[p].cpu == None && Claims(s)
    ensures Claims(t)
  {
    hide Pushes;
    forall x | x in t.procs ensures ClaimOk(t, x, t.procs[x].claim) {
      assert ClaimOk(s, x, s.procs[x].claim);
    }
  }

  /** The process that a CPU is about to start is executed by none: its lock is held by the scheduler. */
  lemma StartOff(s: State, c: nat, p: Pid)
    requires c in s.cpus && s.cpus[c].on == None && s.cpus[c].spc == Start(p)
    requires LocksInv(s) && PlacesInv(s) && ClaimsInv(s)
    ensures p in s.procs && s.procs[p].cpu == None && s.procs[p].claim == Picked(c) && s.procs[p].status == Runnable
    ensures s.procs[p].pc.Resume? && s.procs[p].pc.why != Exited
  {
    hide LocksInv;
    hide References;
    assert Picks(s.cpus[c].spc) == Some(p);
    ProcIs(s, p);
    if s.procs[p].cpu.Some? {
      OneHolds(s, c, s.procs[p].cpu.value, ProcLock(p));
    }
  }

  lemma StartClaims(s: State, c: nat, p: Pid)
    requires c in s.cpus && s.cpus[c].on == None && s.cpus[c].spc == Start(p)
    requires p in s.procs && s.procs[p].cpu == None && s.procs[p].pc.Resume? && s.procs[p].pc.why != Exited
             && s.procs[p].claim == Picked(c)
    requires ClaimsInv(s)
    ensures ClaimsInv(DoStart(s, c, p))
  {
    hide Locals;
    hide References;
    hide Claims;
    ProcIs(s, p);
    var t := DoStart(s, c, p);
    OthersStay(s, t, p, p);
    StartedClaims(s, c, p, t);
  }

  lemma StartedClaims(s: State, c: nat, p: Pid, t: State)
    requires c in s.cpus && s.cpus[c].on == None && Picks(s.cpus[c].spc) == Some(p) && Others(s, t, p, p)
             && t.rq == s.rq
    requires t.cpus.Keys == s.cpus.Keys && t.cpus[c].on.Some?
             && (forall d | d in s.cpus && d != c :: t.cpus[d] == s.cpus[d])
    requires s.procs[p].claim == Picked(c) && t.procs[p].claim == Unclaimed && t.procs[p].pc == s.procs[p].pc
    requires Pushes(t.procs[p].pc) == None && Claims(s)
    ensures Claims(t)
  {
    hide Pushes;
    forall x | x in t.procs ensures ClaimOk(t, x, t.procs[x].claim) {
      assert ClaimOk(s, x, s.procs[x].claim);
    }
  }

  lemma PickClaims(s: State, c: nat)
    requires c in s.cpus && s.cpus[c].on == None && s.cpus[c].spc == Pick
    requires ClaimsInv(s) && Fair(s.rq)
    ensures ClaimsInv(DoPick(s, c))
  {
    hide Locals;
    hide References;
    hide Claims;
    hide Fair;
    hide Pop;
    var t := DoPick(s, c);
    if s.rq.order == [] {
      SchedClaims(s, t, c);
    } else {
      var p := s.rq.order[0];
      NothingDiscarded(s);
      PopFair(s.rq);
      ProcIs(s, p);
      OthersStay(s, t, p, p);
      PickedClaims(s, c, p, t);
    }
  }

  lemma PickedClaims(s: State, c: nat, p: Pid, t: State)
    requires c in s.cpus && s.cpus[c].on == None && Picks(s.cpus[c].spc) == None && Others(s, t, p, p)
    requires t.cpus == s.cpus[c := s.cpus[c].(spc := Found(Some(p)))]
    requires forall x :: x in t.rq.order <==> x != p && x in s.rq.order
    requires s.procs[p].claim == Queued && t.procs[p].claim == Picked(c) && t.procs[p].pc == s.procs[p].pc
             && t.procs[p].cpu == s.procs[p].cpu
    requires Claims(s)
    ensures Claims(t)
  {
    hide Pushes;
    forall x | x in t.procs ensures ClaimOk(t, x, t.procs[x].claim) {
      assert ClaimOk(s, x, s.procs[x].claim);
    }
  }

  /** A move of a scheduler loop that keeps what it has picked. */
  lemma SchedClaims(s: State, t: State, c: nat)
    requires c in s.cpus && s.cpus[c].on == None && t.procs == s.procs && t.list == s.list && t.locks == s.locks
             && t.rq.order == s.rq.order
    requires t.cpus.Keys == s.cpus.Keys && t.cpus[c].on == None && Picks(t.cpus[c].spc) == Picks(s.cpus[c].spc)
    requires forall d | d in s.cpus && d != c :: t.cpus[d] == s.cpus[d]
    requires ClaimsInv(s)
    ensures ClaimsInv(t)
  {
    hide Local;
    hide Pushes;
    hide Picks;
    forall x | x in t.procs ensures Refers(t, x, t.procs[x].pc) && ClaimOk(t, x, t.procs[x].claim) {
      assert Refers(s, x, s.procs[x].pc);
      assert ClaimOk(s, x, s.procs[x].claim);
    }
  }

  lemma CreateClaims(s: State, np: Pid, parent: Pid, v: map<Pid, int>)
    requires np !in s.procs && ClaimsInv(s)
    ensures ClaimsInv(s.(procs := s.procs[np := NewProc(parent)], list := s.list + [np], rq := s.rq.(v := v)))
  {
    var t := s.(procs := s.procs[np := NewProc(parent)], list := s.list + [np], rq := s.rq.(v := v));
    forall x | x in t.procs
      ensures Local(t.procs[x], x) && Refers(t, x, t.procs[x].pc) && ClaimOk(t, x, t.procs[x].claim)
    {
      if x != np {
        ProcIs(s, x);
      }
    }
  }
}
