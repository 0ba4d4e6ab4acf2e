/** All the invariants of the scheduler hold in every reachable state, and what follows for whole runs. */
module SchedulerRuns {
  import opened Wrappers
  import opened RunQueues
  import opened Scheduler
  import opened SchedulerLocks
  import opened SchedulerClaims
  import opened SchedulerFair
  import opened SchedulerSleep

  ghost predicate Inv(s: State) {
    && !s.panic && LocksInv(s) && PlacesInv(s) && ClaimsInv(s) && FairInv(s)
    && MineInv(s) && NamesInv(s) && SleepInv(s)
  }

  lemma OnCpu(s: State, c: nat, p: Pid)
    requires Inv(s) && Executes(s, c, p)
    ensures s.procs[p].cpu == Some(c) && s.cpus[c].spc == Back(p) && s.cpus[c].proc == Some(p)
    ensures OnOk(s.procs[p]) && PcOk(s.procs[p].pc, p) && Refers(s, p, s.procs[p].pc)
    ensures Pushes(s.procs[p].pc).Some? ==>
              Pushes(s.procs[p].pc).value in s.procs && s.procs[Pushes(s.procs[p].pc).value].claim == Pushed(c)
  {
    hide LocksInv;
    hide FairInv;
    hide MineInv;
    hide NamesInv;
    hide SleepInv;
    hide Locals;
    hide References;
    hide Claims;
    ProcIs(s, p);
  }

  // ----- Steps that only move control and take or give back a lock

  ghost predicate PcMoves(s: State, t: State, c: nat, p: Pid, pc: Pc)
    requires Executes(s, c, p)
  {
    && t == To(s.(held := t.held, cpus := t.cpus), p, pc)
    && SameCpus(s, t)
    && (forall l {:trigger s.held[l]} | l in s.held && s.held[l] != c :: l in t.held && t.held[l] == s.held[l])
    && Pushes(pc) == Pushes(s.procs[p].pc) && StatusOf(pc) == StatusOf(s.procs[p].pc)
    && !pc.Resume? && (pc.Switch? ==> !pc.why.Slept?) && PcOk(pc, p) && Refers(s, p, pc)
    && (Yielding(s.procs[p].pc) ==> Yielding(pc))
    && (pc.Unlock1? ==> pc.l in s.procs[p].mine)
    && (forall l | Committed(s.procs[p].(pc := pc), l) :: Committed(s.procs[p], l))
    && (forall q, l | q != p && Covers(s.list, s.procs[p].pc, l, q) ::
          Covers(s.list, pc, l, q) && (LockOf(l) in s.held && s.held[LockOf(l)] == c ==>
              LockOf(l) in t.held && t.held[LockOf(l)] == c))
  }

  lemma PcMovesInv(s: State, t: State, c: nat, p: Pid, pc: Pc)
    requires Executes(s, c, p) && PcMoves(s, t, c, p, pc) && Inv(s)
    requires LocksInv(t) && PlacesInv(t)
    ensures Inv(t)
  {
    hide LocksInv;
    hide PlacesInv;
    hide ClaimsInv;
    hide FairInv;
    hide MineInv;
    hide NamesInv;
    hide SleepInv;
    hide Covers;
    hide Committed;
    hide Pushes;
    hide StatusOf;
    hide Refers;
    hide PcOk;
    OnCpu(s, c, p);
    RefersSame(s, t, p, pc);
    PcClaims(s, t, p);
    FairKeeps(s, t);
    NamesKept(s, t);
    UnlocksKept(s, t, p);
    MineKeeps(s, t);
    SleepKeeps(s, t, c, p);
  }

  lemma RefersSame(s: State, t: State, p: Pid, pc: Pc)
    requires p in s.procs && Refers(s, p, pc) && t == To(s.(held := t.held, cpus := t.cpus), p, pc)
    ensures Refers(t, p, pc)
  {}

  lemma NamesKept(s: State, t: State)
    requires NamesInv(s) && t.locks == s.locks && s.procs.Keys <= t.procs.Keys
    ensures NamesInv(t)
  {}

  lemma UnlocksKept(s: State, t: State, p: Pid)
    requires MineInv(s) && p in s.procs && t.procs.Keys == s.procs.Keys
    requires t.procs[p].pc.Unlock1? ==> t.procs[p].pc.l in t.procs[p].mine
    requires forall q {:trigger t.procs[q]} | q in s.procs && q != p ::
              t.procs[q].pc == s.procs[q].pc && t.procs[q].mine == s.procs[q].mine
    ensures forall q {:trigger t.procs[q]} | q in t.procs && t.procs[q].pc.Unlock1? ::
              t.procs[q].pc.l in t.procs[q].mine
  {}

  lemma TakenInv(s: State, c: nat, p: Pid)
    requires Executes(s, c, p) && Wants(s, p, s.procs[p].pc).Some? && CanAcquire(s, c, Wants(s, p, s.procs[p].pc).value)
    requires Inv(s)
    ensures Inv(To(Acquire(s, c, Wants(s, p, s.procs[p].pc).value), p, Taken(s, p, s.procs[p].pc)))
  {
    hide LocksInv;
    hide PlacesInv;
    hide ClaimsInv;
    hide FairInv;
    hide MineInv;
    hide NamesInv;
    hide SleepInv;
    hide Holds;
    var pc := s.procs[p].pc;
    OnCpu(s, c, p);
    TakenHolds(s, p, pc);
    AcquireInv(s, c, p, Wants(s, p, pc).value, Taken(s, p, pc));
    var t := To(Acquire(s, c, Wants(s, p, pc).value), p, Taken(s, p, pc));
    ListedProcs(s);
    TakenMoves(s, t, c, p);
    PcMovesInv(s, t, c, p, Taken(s, p, pc));
  }

  lemma ListedProcs(s: State)
    requires Inv(s)
    ensures forall i | 0 <= i < |s.list| :: s.list[i] in s.procs
  {
    forall i | 0 <= i < |s.list| ensures s.list[i] in s.procs {
      assert s.list[i] in s.list;
    }
  }

  lemma TakenMoves(s: State, t: State, c: nat, p: Pid)
    requires Executes(s, c, p) && Wants(s, p, s.procs[p].pc).Some? && CanAcquire(s, c, Wants(s, p, s.procs[p].pc).value)
    requires t == To(Acquire(s, c, Wants(s, p, s.procs[p].pc).value), p, Taken(s, p, s.procs[p].pc))
             && t.panic == s.panic
    requires t == To(s.(held := s.held[Wants(s, p, s.procs[p].pc).value := c], cpus := t.cpus), p,
             Taken(s, p, s.procs[p].pc))
    requires PcOk(s.procs[p].pc, p) && Refers(s, p, s.procs[p].pc)
             && forall i | 0 <= i < |s.list| :: s.list[i] in s.procs
    ensures PcMoves(s, t, c, p, Taken(s, p, s.procs[p].pc))
  {
    hide Ahead;
  }

  lemma GivenInv(s: State, c: nat, p: Pid)
    requires Executes(s, c, p) && Drops(p, s.procs[p].pc).Some? && Inv(s)
    ensures Inv(To(Release(s, c, Drops(p, s.procs[p].pc).value), p, Given(p, s.procs[p].pc)))
  {
    hide LocksInv;
    hide PlacesInv;
    hide ClaimsInv;
    hide FairInv;
    hide MineInv;
    hide NamesInv;
    hide SleepInv;
    hide Holds;
    var pc := s.procs[p].pc;
    OnCpu(s, c, p);
    GivenHolds(p, pc);
    ReleaseInv(s, c, p, Drops(p, pc).value, Given(p, pc));
    var t := To(Release(s, c, Drops(p, pc).value), p, Given(p, pc));
    GivenMoves(s, t, c, p);
    PcMovesInv(s, t, c, p, Given(p, pc));
  }

  lemma GivenMoves(s: State, t: State, c: nat, p: Pid)
    requires Executes(s, c, p) && Drops(p, s.procs[p].pc).Some?
    requires t == To(Release(s, c, Drops(p, s.procs[p].pc).value), p, Given(p, s.procs[p].pc)) && t.panic == s.panic
    requires t == To(s.(held := s.held - {Drops(p, s.procs[p].pc).value}, cpus := t.cpus), p, Given(p, s.procs[p].pc))
    requires Drops(p, s.procs[p].pc).value in s.held && s.held[Drops(p, s.procs[p].pc).value] == c
    requires PcOk(s.procs[p].pc, p) && Refers(s, p, s.procs[p].pc) && OnOk(s.procs[p])
    ensures PcMoves(s, t, c, p, Given(p, s.procs[p].pc))
  {
    hide Ahead;
  }

  // ----- Steps inside critical sections

  /** What one step of `p` inside a critical section leaves alone, as far as sleep locks go. */
  ghost predicate Aside(s: State, t: State, c: nat, p: Pid) {
    && SchedulerSleep.Apart(s, t, c, p) && t.locks == s.locks && t.held == s.held && t.cpus == s.cpus
    && (forall q {:trigger t.procs[q]} | q in s.procs :: t.procs[q].mine == s.procs[q].mine)
    && !t.procs[p].pc.Unlock1?
    && (forall l | Committed(t.procs[p], l) :: Committed(s.procs[p], l))
    && (forall q, l | q in s.procs && q != p && Committed(t.procs[q], l) && Covers(s.list, s.procs[p].pc, l, q) ::
          Covers(t.list, t.procs[p].pc, l, q))
  }

  /** The parts of the invariant that speak of sleep locks stay, if no lock changes and control only moves. */
  lemma LocksAside(s: State, t: State, c: nat, p: Pid)
    requires Aside(s, t, c, p) && PlacesInv(s)
    requires MineInv(s) && NamesInv(s) && SleepInv(s)
    ensures MineInv(t) && NamesInv(t) && SleepInv(t)
  {
    hide Covers;
    hide Committed;
    hide PlacesInv;
    hide MineInv;
    hide NamesInv;
    hide SleepInv;
    NamesKept(s, t);
    UnlocksKept2(s, t, p);
    MineKeeps(s, t);
    SleepKeeps(s, t, c, p);
  }

  lemma UnlocksKept2(s: State, t: State, p: Pid)
    requires MineInv(s) && p in s.procs && t.procs.Keys == s.procs.Keys && !t.procs[p].pc.Unlock1?
    requires forall q {:trigger t.procs[q]} | q in s.procs && q != p :: t.procs[q].pc == s.procs[q].pc
    requires forall q {:trigger t.procs[q]} | q in s.procs :: t.procs[q].mine == s.procs[q].mine
    ensures forall q {:trigger t.procs[q]} | q in t.procs && t.procs[q].pc.Unlock1? ::
              t.procs[q].pc.l in t.procs[q].mine
  {}

  lemma DoYieldInv(s: State, c: nat, p: Pid)
    requires Executes(s, c, p) && s.procs[p].pc == Yield1 && Inv(s)
    ensures Inv(DoYield(s, c, p))
  {
    hide LocksInv;
    hide PlacesInv;
    hide ClaimsInv;
    hide FairInv;
    hide MineInv;
    hide NamesInv;
    hide SleepInv;
    OnCpu(s, c, p);
    var t := DoYield(s, c, p);
    MovesInv(s, t, c, p);
    YieldClaims(s, c, p);
    FairKeeps(s, t);
    LocksAside(s, t, c, p);
  }

  lemma DoForkInv(s: State, c: nat, p: Pid, np: Pid)
    requires Executes(s, c, p) && s.procs[p].pc == Fork1(np) && Inv(s)
    ensures np in s.procs && Inv(DoFork(s, c, p, np))
  {
    hide LocksInv;
    hide PlacesInv;
    hide ClaimsInv;
    hide FairInv;
    hide MineInv;
    hide NamesInv;
    hide SleepInv;
    hide Aside;
    hide Moves;
    OnCpu(s, c, p);
    ForkClaims(s, c, p, np);
    ProcIs(s, np);
    var t := DoFork(s, c, p, np);
    ForkMoves(s, c, p, np);
    ForkAside(s, c, p, np);
    MovesInv(s, t, c, p);
    FairKeeps(s, t);
    LocksAside(s, t, c, p);
  }

  lemma ForkAside(s: State, c: nat, p: Pid, np: Pid)
    requires Executes(s, c, p) && s.procs[p].pc == Fork1(np) && np in s.procs && np != p
    requires s.procs[np].pc == Resume(Yielded)
    ensures Aside(s, DoFork(s, c, p, np), c, p)
  {}

  lemma ForkMoves(s: State, c: nat, p: Pid, np: Pid)
    requires Executes(s, c, p) && s.procs[p].pc == Fork1(np) && np in s.procs && np != p
    ensures Moves(s, DoFork(s, c, p, np), c, p)
  {}

  lemma DoExitInv(s: State, c: nat, p: Pid)
    requires Executes(s, c, p) && s.procs[p].pc == Exit1 && Inv(s)
    ensures Inv(DoExit(s, p))
  {
    hide LocksInv;
    hide PlacesInv;
    hide ClaimsInv;
    hide FairInv;
    hide MineInv;
    hide NamesInv;
    hide SleepInv;
    OnCpu(s, c, p);
    var t := DoExit(s, p);
    ExitMoves(s, c, p);
    MovesInv(s, t, c, p);
    ExitClaims(s, c, p);
    FairKeeps(s, t);
    LocksAside(s, t, c, p);
  }

  lemma ExitMoves(s: State, c: nat, p: Pid)
    requires Executes(s, c, p) && s.procs[p].pc == Exit1
    ensures Moves(s, DoExit(s, p), c, p)
  {}

  lemma DoSleepInv(s: State, c: nat, p: Pid, l: int)
    requires Executes(s, c, p) && s.procs[p].pc == Sleep2(l) && Inv(s)
    ensures Inv(DoSleep(s, p, l))
  {
    hide LocksInv;
    hide PlacesInv;
    hide ClaimsInv;
    hide FairInv;
    hide MineInv;
    hide NamesInv;
    hide SleepInv;
    OnCpu(s, c, p);
    var t := DoSleep(s, p, l);
    MovesInv(s, t, c, p);
    SleepClaims(s, c, p, l);
    FairKeeps(s, t);
    LocksAside(s, t, c, p);
  }

  lemma DoResumeInv(s: State, c: nat, p: Pid, why: Why)
    requires Executes(s, c, p) && s.procs[p].pc == Resume(why) && why != Yielded && Inv(s)
    ensures Inv(DoResume(s, p, why))
  {
    hide LocksInv;
    hide PlacesInv;
    hide ClaimsInv;
    hide FairInv;
    hide MineInv;
    hide NamesInv;
    hide SleepInv;
    hide Moves;
    hide Aside;
    OnCpu(s, c, p);
    ResumeMoves(s, c, p, why);
    var t := DoResume(s, p, why);
    MovesInv(s, t, c, p);
    PcClaims(s, t, p);
    FairKeeps(s, t);
    LocksAside(s, t, c, p);
  }

  lemma ResumeMoves(s: State, c: nat, p: Pid, why: Why)
    requires Executes(s, c, p) && s.procs[p].pc == Resume(why) && why.Slept?
    ensures Moves(s, DoResume(s, p, why), c, p) && Aside(s, DoResume(s, p, why), c, p)
  {
    assert DoResume(s, p, why).procs[p].pc == Sleep3(why.l);
  }

  lemma DoPushInv(s: State, c: nat, p: Pid, q: Pid, k: Then)
    requires Executes(s, c, p) && s.procs[p].pc == Push1(q, k) && Inv(s)
    ensures q in s.procs && !s.procs[q].queued && Inv(DoPush(s, p, q, k)) && DoPush(s, p, q, k).rq.minv >= s.rq.minv
  {
    hide LocksInv;
    hide PlacesInv;
    hide ClaimsInv;
    hide FairInv;
    hide MineInv;
    hide NamesInv;
    hide SleepInv;
    hide Fair;
    hide Push;
    hide Ahead;
    hide Aside;
    hide Moves;
    OnCpu(s, c, p);
    FairIs(s);
    PushClaims(s, c, p, q, k);
    if q != p {
      NotYielding(s, c, p, q, k);
    }
    FairPush(s, p, q, k);
    PushMoves(s, c, p, q, k);
    PushAside(s, c, p, q, k);
    var t := DoPush(s, p, q, k);
    MovesInv(s, t, c, p);
    LocksAside(s, t, c, p);
  }

  lemma PushAside(s: State, c: nat, p: Pid, q: Pid, k: Then)
    requires Executes(s, c, p) && s.procs[p].pc == Push1(q, k) && q in s.procs && !s.procs[q].queued
    ensures Aside(s, DoPush(s, p, q, k), c, p)
  {
    hide DoPush;
    hide Push;
    hide Committed;
    hide Covers;
    PushIs(s, p, q, k);
    var t := DoPush(s, p, q, k);
    PushUncommitted(t.procs[p], q, k);
    forall x, l | x in s.procs && x != p ensures Committed(t.procs[x], l) ==> Committed(s.procs[x], l) {
      SameCommitted(s.procs[x], t.procs[x], l);
    }
    forall x, l | Covers(s.list, Push1(q, k), l, x) ensures Covers(t.list, Push2(q, k), l, x) {
      CoversPush(s.list, q, k, l, x);
    }
  }

  lemma PushUncommitted(r: Proc, q: Pid, k: Then)
    requires r.pc == Push2(q, k)
    ensures forall l :: !Committed(r, l)
  {}

  lemma SameCommitted(r: Proc, u: Proc, l: int)
    requires r.pc == u.pc && r.status == u.status
    ensures Committed(r, l) == Committed(u, l)
  {}

  lemma CoversPush(list: seq<Pid>, q: Pid, k: Then, l: int, x: Pid)
    ensures Covers(list, Push1(q, k), l, x) == Covers(list, Push2(q, k), l, x)
  {}

  lemma PushMoves(s: State, c: nat, p: Pid, q: Pid, k: Then)
    requires Executes(s, c, p) && s.procs[p].pc == Push1(q, k) && q in s.procs
    ensures Moves(s, DoPush(s, p, q, k), c, p)
  {
    hide Push;
  }

  lemma FairIs(s: State)
    requires FairInv(s)
    ensures Fair(s.rq)
  {}

  /** A process that another one queues is not on its own way to the queue. */
  lemma NotYielding(s: State, c: nat, p: Pid, q: Pid, k: Then)
    requires Executes(s, c, p) && s.procs[p].pc == Push1(q, k) && q in s.procs && q != p && Inv(s)
    ensures !Yielding(s.procs[q].pc)
  {
    hide LocksInv;
    hide PlacesInv;
    hide FairInv;
    hide MineInv;
    hide NamesInv;
    hide SleepInv;
    hide Locals;
    hide References;
    hide Claims;
    OnCpu(s, c, p);
    ProcIs(s, q);
    if s.procs[q].cpu.Some? && Yielding(s.procs[q].pc) {
      OnePusher(s, p, q, q);
    }
  }

  lemma OnePusher(s: State, p: Pid, r: Pid, q: Pid)
    requires p in s.procs && r in s.procs && s.procs[p].cpu.Some? && s.procs[r].cpu.Some?
    requires Pushes(s.procs[p].pc) == Some(q) == Pushes(s.procs[r].pc) && Claims(s) && PlacesInv(s)
    ensures p == r
  {
    assert s.procs[q].claim == Pushed(s.procs[p].cpu.value);
    assert s.procs[q].claim == Pushed(s.procs[r].cpu.value);
  }

  lemma DoNextInv(s: State, c: nat, p: Pid, chan: Chan, i: nat, a: After)
    requires Executes(s, c, p) && s.procs[p].pc == Wake0(chan, i, a) && Wants(s, p, s.procs[p].pc).None? && Inv(s)
    ensures Inv(DoNext(s, p, chan, i, a))
  {
    hide LocksInv;
    hide PlacesInv;
    hide ClaimsInv;
    hide FairInv;
    hide MineInv;
    hide NamesInv;
    hide SleepInv;
    hide Covers;
    hide Committed;
    hide StatusOf;
    hide Moves;
    hide Aside;
    OnCpu(s, c, p);
    var t := DoNext(s, p, chan, i, a);
    NextMoves(s, c, p, chan, i, a);
    MovesInv(s, t, c, p);
    NextClaims(s, c, p, chan, i, a);
    NextIs(s, p, chan, i, a);
    FairKeeps(s, t);
    NextAside(s, c, p, chan, i, a);
    LocksAside(s, t, c, p);
  }

  lemma NextAside(s: State, c: nat, p: Pid, chan: Chan, i: nat, a: After)
    requires Executes(s, c, p) && s.procs[p].pc == Wake0(chan, i, a) && Wants(s, p, s.procs[p].pc).None?
    ensures Aside(s, DoNext(s, p, chan, i, a), c, p)
  {
    hide Covers;
    hide Committed;
    hide DoNext;
    NextIs(s, p, chan, i, a);
    CoversNext(s, DoNext(s, p, chan, i, a), p, chan, i, a);
  }

  lemma NextMoves(s: State, c: nat, p: Pid, chan: Chan, i: nat, a: After)
    requires Executes(s, c, p) && s.procs[p].pc == Wake0(chan, i, a)
    ensures Moves(s, DoNext(s, p, chan, i, a), c, p)
  {
    NextIs(s, p, chan, i, a);
    var pc := NextAfter(s.list, chan, i, a);
    assert forall x :: Holds(pc, p, x) <==> Holds(s.procs[p].pc, p, x);
  }

  lemma NextClaims(s: State, c: nat, p: Pid, chan: Chan, i: nat, a: After)
    requires Executes(s, c, p) && s.procs[p].pc == Wake0(chan, i, a) && Inv(s)
    ensures ClaimsInv(DoNext(s, p, chan, i, a))
  {
    hide LocksInv;
    hide PlacesInv;
    hide ClaimsInv;
    hide FairInv;
    hide MineInv;
    hide NamesInv;
    hide SleepInv;
    OnCpu(s, c, p);
    NextPc(s, p, chan, i, a);
    hide DoNext;
    hide Others;
    hide SameCpus;
    PcClaims(s, DoNext(s, p, chan, i, a), p);
  }

  lemma NextPc(s: State, p: Pid, chan: Chan, i: nat, a: After)
    requires p in s.procs && s.procs[p].pc == Wake0(chan, i, a) && OnOk(s.procs[p]) && PcOk(s.procs[p].pc, p)
             && Refers(s, p, s.procs[p].pc)
    ensures var t := DoNext(s, p, chan, i, a);
      && SameCpus(s, t) && Others(s, t, p, p) && t.rq.order == s.rq.order
      && (var r, u := s.procs[p], t.procs[p];
          && u.status == r.status && u.claim == r.claim && u.queued == r.queued && u.cpu == r.cpu
          && u.parent == r.parent
          && Pushes(u.pc) == Pushes(r.pc) && OnOk(u) && PcOk(u.pc, p) && Refers(t, p, u.pc))
  {
    hide PcOk;
    hide Refers;
    hide OnOk;
    hide Pushes;
    NextIs(s, p, chan, i, a);
    NextOk(s, p, s.procs[p], chan, i, a);
  }

  lemma NextIs(s: State, p: Pid, chan: Chan, i: nat, a: After)
    requires p in s.procs
    ensures DoNext(s, p, chan, i, a) == To(s, p, NextAfter(s.list, chan, i, a))
  {}

  /** Where the caller of wakeup goes on after it has passed over itself, or come to the end of the list. */
  function NextAfter(list: seq<Pid>, chan: Chan, i: nat, a: After): Pc {
    if i < |list| then Wake0(chan, i + 1, a) else if a.Unlocking? then Unlock2(a.l) else Switch(Exited)
  }

  lemma NextOk(s: State, p: Pid, r: Proc, chan: Chan, i: nat, a: After)
    requires p in s.procs && r.pc == Wake0(chan, i, a) && OnOk(r) && PcOk(r.pc, p) && Refers(s, p, r.pc)
    ensures var pc, t := NextAfter(s.list, chan, i, a), To(s, p, NextAfter(s.list, chan, i, a));
      Pushes(pc) == Pushes(r.pc) && OnOk(r.(pc := pc)) && PcOk(pc, p) && Refers(t, p, pc)
  {}

  lemma CoversNext(s: State, t: State, p: Pid, chan: Chan, i: nat, a: After)
    requires p in s.procs && s.procs[p].pc == Wake0(chan, i, a) && Wants(s, p, s.procs[p].pc).None?
             && t == DoNext(s, p, chan, i, a)
    ensures forall l, q | q != p && Covers(s.list, s.procs[p].pc, l, q) :: Covers(t.list, t.procs[p].pc, l, q)
    ensures forall l :: !Committed(t.procs[p], l)
  {
    hide DoNext;
    hide Covers;
    hide Committed;
    NextIs(s, p, chan, i, a);
    NextUncommitted(t.procs[p], s.list, chan, i, a);
    forall l, q | q != p && Covers(s.list, s.procs[p].pc, l, q) ensures Covers(t.list, t.procs[p].pc, l, q) {
      CoversOnward(s.list, p, chan, i, a, l, q);
    }
  }

  lemma NextUncommitted(r: Proc, list: seq<Pid>, chan: Chan, i: nat, a: After)
    requires r.pc == NextAfter(list, chan, i, a)
    ensures forall l :: !Committed(r, l)
  {}

  /** Who is covered and is not the caller, over which wakeup passes, is covered after it. */
  lemma CoversOnward(list: seq<Pid>, p: Pid, chan: Chan, i: nat, a: After, l: int, q: Pid)
    requires (i < |list| ==> list[i] == p) && q != p && Covers(list, Wake0(chan, i, a), l, q)
    ensures Covers(list, NextAfter(list, chan, i, a), l, q)
  {
    AheadNext(list, i, q);
    AheadEnds(list, i, q);
  }

  lemma AheadEnds(list: seq<Pid>, i: nat, p: Pid)
    ensures Ahead(list, i, p) ==> i < |list|
  {}

  lemma DoWakeInv(s: State, c: nat, p: Pid, chan: Chan, i: nat, q: Pid, a: After)
    requires Executes(s, c, p) && s.procs[p].pc == Wake1(chan, i, q, a) && Inv(s)
    ensures q in s.procs && Inv(DoWake(s, c, p, chan, i, q, a))
  {
    hide LocksInv;
    hide PlacesInv;
    hide ClaimsInv;
    hide FairInv;
    hide MineInv;
    hide NamesInv;
    hide SleepInv;
    OnCpu(s, c, p);
    if s.procs[q].status == Sleeping && s.procs[q].chan == Some(chan) {
      WakeUpInv(s, c, p, chan, i, q, a);
    } else {
      WakePassInv(s, c, p, chan, i, q, a);
    }
  }

  lemma WakeUpInv(s: State, c: nat, p: Pid, chan: Chan, i: nat, q: Pid, a: After)
    requires Executes(s, c, p) && s.procs[p].pc == Wake1(chan, i, q, a) && q in s.procs
    requires s.procs[q].status == Sleeping && s.procs[q].chan == Some(chan) && Inv(s)
    ensures Inv(DoWake(s, c, p, chan, i, q, a))
  {
    hide LocksInv;
    hide PlacesInv;
    hide ClaimsInv;
    hide FairInv;
    hide MineInv;
    hide NamesInv;
    hide SleepInv;
    hide Ahead;
    hide Covers;
    hide Committed;
    hide StatusOf;
    hide Moves;
    OnCpu(s, c, p);
    var t := DoWake(s, c, p, chan, i, q, a);
    WakeOff(s, c, p, q);
    OffResumes(s, q);
    WakeClaims(s, c, p, chan, i, q, a);
    if a.Unlocking? {
      AwakeNotCommitted(t.procs[q], a.l);
    }
    WakeMoves(s, c, p, chan, i, q, a);
    MovesInv(s, t, c, p);
    FairKeeps(s, t);
    CoversWake(s, t, c, p, chan, i, q, a);
    LocksAside(s, t, c, p);
  }

  lemma WakeMoves(s: State, c: nat, p: Pid, chan: Chan, i: nat, q: Pid, a: After)
    requires Executes(s, c, p) && s.procs[p].pc == Wake1(chan, i, q, a) && q in s.procs && q != p
    requires s.procs[q].status == Sleeping && s.procs[q].chan == Some(chan)
    ensures Moves(s, DoWake(s, c, p, chan, i, q, a), c, p)
  {
    var t := DoWake(s, c, p, chan, i, q, a);
    assert t.procs[p].pc == Push0(q, ThenWake(chan, i, a)) && t.procs[q].pc == s.procs[q].pc
           && t.procs[q].cpu == s.procs[q].cpu;
  }

  lemma WakePassInv(s: State, c: nat, p: Pid, chan: Chan, i: nat, q: Pid, a: After)
    requires Executes(s, c, p) && s.procs[p].pc == Wake1(chan, i, q, a) && q in s.procs
    requires !(s.procs[q].status == Sleeping && s.procs[q].chan == Some(chan)) && Inv(s)
    ensures Inv(DoWake(s, c, p, chan, i, q, a))
  {
    hide LocksInv;
    hide PlacesInv;
    hide ClaimsInv;
    hide FairInv;
    hide MineInv;
    hide NamesInv;
    hide SleepInv;
    hide Ahead;
    hide Covers;
    hide Committed;
    hide StatusOf;
    OnCpu(s, c, p);
    var t := DoWake(s, c, p, chan, i, q, a);
    PassClaims(s, c, p, chan, i, q, a);
    if a.Unlocking? && chan == LockChan(a.l) {
      NotCommitted(s, c, p, q, i, a.l);
    }
    PassMoves(s, c, p, chan, i, q, a);
    MovesInv(s, t, c, p);
    FairKeeps(s, t);
    CoversWake(s, t, c, p, chan, i, q, a);
    LocksAside(s, t, c, p);
  }

  lemma PassMoves(s: State, c: nat, p: Pid, chan: Chan, i: nat, q: Pid, a: After)
    requires Executes(s, c, p) && s.procs[p].pc == Wake1(chan, i, q, a) && q in s.procs
    requires !(s.procs[q].status == Sleeping && s.procs[q].chan == Some(chan))
    ensures Moves(s, DoWake(s, c, p, chan, i, q, a), c, p)
  {
    assert DoWake(s, c, p, chan, i, q, a).procs[p].pc == Wake2(chan, i, q, a);
  }

  lemma OffResumes(s: State, q: Pid)
    requires PlacesInv(s) && q in s.procs && s.procs[q].cpu == None
    ensures s.procs[q].pc.Resume?
  {}

  lemma PassClaims(s: State, c: nat, p: Pid, chan: Chan, i: nat, q: Pid, a: After)
    requires Executes(s, c, p) && s.procs[p].pc == Wake1(chan, i, q, a) && q in s.procs && Inv(s)
    ensures ClaimsInv(To(s, p, Wake2(chan, i, q, a)))
  {
    hide LocksInv;
    hide PlacesInv;
    hide ClaimsInv;
    hide FairInv;
    hide MineInv;
    hide NamesInv;
    hide SleepInv;
    OnCpu(s, c, p);
    PcClaims(s, To(s, p, Wake2(chan, i, q, a)), p);
  }

  lemma CoversWake(s: State, t: State, c: nat, p: Pid, chan: Chan, i: nat, q: Pid, a: After)
    requires p in s.procs && q in s.procs && q != p && s.procs[p].pc == Wake1(chan, i, q, a) && i < |s.list|
             && s.list[i] == q
    requires t == DoWake(s, c, p, chan, i, q, a)
    requires a.Unlocking? && chan == LockChan(a.l) ==> !Committed(t.procs[q], a.l)
    ensures forall l, x | x != p && x in s.procs && Committed(t.procs[x], l) && Covers(s.list, s.procs[p].pc, l, x) ::
              Covers(t.list, t.procs[p].pc, l, x)
    ensures forall l :: !Committed(t.procs[p], l)
  {
    WakePc(s, t, c, p, chan, i, q, a);
    hide DoWake;
    hide Covers;
    hide Committed;
    forall l, x | x != p && x in s.procs && Committed(t.procs[x], l) && Covers(s.list, s.procs[p].pc, l, x)
      ensures Covers(t.list, t.procs[p].pc, l, x)
    {
      CoversPast(s.list, chan, i, q, a, l, x);
    }
  }

  lemma WakePc(s: State, t: State, c: nat, p: Pid, chan: Chan, i: nat, q: Pid, a: After)
    requires p in s.procs && q in s.procs && q != p && t == DoWake(s, c, p, chan, i, q, a)
    ensures t.procs.Keys == s.procs.Keys && t.list == s.list
    ensures t.procs[p].pc == Push0(q, ThenWake(chan, i, a)) || t.procs[p].pc == Wake2(chan, i, q, a)
    ensures forall l :: !Committed(t.procs[p], l)
  {
    hide DoWake;
    hide Committed;
    WakeIs(s, c, p, chan, i, q, a);
    WakeUncommitted(t.procs[p], chan, i, q, a);
  }

  lemma WakeIs(s: State, c: nat, p: Pid, chan: Chan, i: nat, q: Pid, a: After)
    requires p in s.procs && q in s.procs && q != p
    ensures var t := DoWake(s, c, p, chan, i, q, a);
      if s.procs[q].status == Sleeping && s.procs[q].chan == Some(chan) then
        t == s.(procs := s.procs[p := s.procs[p].(pc := Push0(q, ThenWake(chan, i, a)))][q := t.procs[q]])
      else t == To(s, p, Wake2(chan, i, q, a))
  {}

  lemma WakeUncommitted(r: Proc, chan: Chan, i: nat, q: Pid, a: After)
    ensures r.pc == Push0(q, ThenWake(chan, i, a)) || r.pc == Wake2(chan, i, q, a) ==> forall l :: !Committed(r, l)
  {}

  /** Who is covered and is not the process that wakeup looks at is covered after it. */
  lemma CoversPast(list: seq<Pid>, chan: Chan, i: nat, q: Pid, a: After, l: int, x: Pid)
    requires i < |list| && list[i] == q && Covers(list, Wake1(chan, i, q, a), l, x)
    ensures chan == LockChan(l) && a == Unlocking(l)
    ensures x != q ==> Covers(list, Push0(q, ThenWake(chan, i, a)), l, x) && Covers(list, Wake2(chan, i, q, a), l, x)
  {
    AheadNext(list, i, x);
  }

  lemma AwakeNotCommitted(r: Proc, l: int)
    requires r.pc.Resume? && r.status == Runnable
    ensures !Committed(r, l)
  {}

  lemma DoTestInv(s: State, c: nat, p: Pid, l: int)
    requires Executes(s, c, p) && s.procs[p].pc == Lock1(l) && Inv(s)
    ensures l in s.locks && Inv(DoTest(s, p, l))
  {
    hide LocksInv;
    hide PlacesInv;
    hide ClaimsInv;
    hide FairInv;
    hide MineInv;
    hide NamesInv;
    hide SleepInv;
    hide Covers;
    OnCpu(s, c, p);
    var t := DoTest(s, p, l);
    TestMoves(s, c, p, l);
    MovesInv(s, t, c, p);
    TestClaims(s, c, p, l);
    FairKeeps(s, t);
    MineTest(s, p, l);
    CoversNothing(s, p);
    SleepKeeps(s, t, c, p);
  }

  lemma TestMoves(s: State, c: nat, p: Pid, l: int)
    requires Executes(s, c, p) && s.procs[p].pc == Lock1(l) && l in s.locks
    ensures Moves(s, DoTest(s, p, l), c, p)
  {}

  lemma TestClaims(s: State, c: nat, p: Pid, l: int)
    requires Executes(s, c, p) && s.procs[p].pc == Lock1(l) && l in s.locks && Inv(s)
    ensures ClaimsInv(DoTest(s, p, l))
  {
    hide LocksInv;
    hide PlacesInv;
    hide ClaimsInv;
    hide FairInv;
    hide MineInv;
    hide NamesInv;
    hide SleepInv;
    OnCpu(s, c, p);
    PcClaims(s, DoTest(s, p, l), p);
  }

  lemma CoversNothing(s: State, p: Pid)
    requires p in s.procs && (s.procs[p].pc.Lock1? || s.procs[p].pc.Unlock1? || s.procs[p].pc.Switch?
             || s.procs[p].pc == Run)
    ensures forall list, l, q :: !Covers(list, s.procs[p].pc, l, q)
  {}

  // ----- releasesleeplock

  lemma DoUnlockInv(s: State, c: nat, p: Pid, l: int)
    requires Executes(s, c, p) && s.procs[p].pc == Unlock1(l) && Inv(s)
    ensures Inv(DoUnlock(s, p, l))
  {
    hide LocksInv;
    hide PlacesInv;
    hide ClaimsInv;
    hide FairInv;
    hide MineInv;
    hide NamesInv;
    hide SleepInv;
    OnCpu(s, c, p);
    var t := DoUnlock(s, p, l);
    MovesInv(s, t, c, p);
    UnlockClaims(s, c, p, l);
    FairKeeps(s, t);
    AloneUnlocking(s, c, p, l);
    MineUnlock(s, p, l);
    UnlockSleep(s, c, p, l);
  }

  lemma UnlockClaims(s: State, c: nat, p: Pid, l: int)
    requires Executes(s, c, p) && s.procs[p].pc == Unlock1(l) && Inv(s)
    ensures ClaimsInv(DoUnlock(s, p, l))
  {
    hide LocksInv;
    hide PlacesInv;
    hide ClaimsInv;
    hide FairInv;
    hide MineInv;
    hide NamesInv;
    hide SleepInv;
    OnCpu(s, c, p);
    assert Refers(s, p, s.procs[p].pc);
    PcClaims(s, DoUnlock(s, p, l), p);
  }

  lemma AloneUnlocking(s: State, c: nat, p: Pid, l: int)
    requires Executes(s, c, p) && s.procs[p].pc == Unlock1(l) && LocksInv(s) && PlacesInv(s)
    ensures LockOf(l) in s.held && s.held[LockOf(l)] == c
    ensures forall q | q in s.procs && q != p && s.procs[q].pc.Unlock1? :: s.procs[q].pc.l != l
  {
    assert HoldsC(s, c, LockOf(l)) <==> LockOf(l) in s.held && s.held[LockOf(l)] == c;
    forall q | q in s.procs && q != p && s.procs[q].pc.Unlock1? ensures s.procs[q].pc.l != l {
      var d := s.procs[q].cpu.value;
      OtherCpu(s, c, d, p);
      assert HoldsC(s, d, LockOf(s.procs[q].pc.l)) <==>
                LockOf(s.procs[q].pc.l) in s.held && s.held[LockOf(s.procs[q].pc.l)] == d;
    }
  }

  /** Whoever sleeps on the lock is ahead of the wakeup that starts now. */
  lemma UnlockSleep(s: State, c: nat, p: Pid, l: int)
    requires Executes(s, c, p) && s.procs[p].pc == Unlock1(l) && LockOf(l) in s.held && s.held[LockOf(l)] == c
    requires l in s.locks && PlacesInv(s) && SleepInv(s)
    ensures SleepInv(DoUnlock(s, p, l))
  {
    hide Ahead;
    var t := DoUnlock(s, p, l);
    forall q, x | q in t.procs && Committed(t.procs[q], x) ensures Awaited(t, q, x) {
      assert Committed(s.procs[q], x);
      assert Awaited(s, q, x);
      if x == l {
        assert Ahead(s.list, 0, q);
      } else if !s.locks[x].locked {
        OtherCpu(s, c, s.held[LockOf(x)], p);
      }
    }
  }

  // ----- sched

  lemma DoSwitchInv(s: State, c: nat, p: Pid, why: Why)
    requires Executes(s, c, p) && s.procs[p].pc == Switch(why) && Inv(s)
    ensures Inv(DoSwitch(s, c, p, why))
  {
    hide LocksInv;
    hide PlacesInv;
    hide ClaimsInv;
    hide FairInv;
    hide MineInv;
    hide NamesInv;
    hide SleepInv;
    OnCpu(s, c, p);
    SwitchPasses(s, c, p, why);
    var t := DoSwitch(s, c, p, why);
    SwitchLocks(s, c, p, why);
    SwitchClaims(s, c, p, why, t);
    FairKeeps(s, t);
    NamesKept(s, t);
    UnlocksKept2(s, t, p);
    MineKeeps(s, t);
    CoversNothing(s, p);
    SwitchSleep(s, t, c, p);
  }

  lemma SwitchSleep(s: State, t: State, c: nat, p: Pid)
    requires SchedulerSleep.Apart(s, t, c, p) && PlacesInv(s) && SleepInv(s)
    requires s.procs[p].pc.Switch? && t.procs[p].pc == Resume(s.procs[p].pc.why)
             && t.procs[p].status == s.procs[p].status
    requires forall list, l, q :: !Covers(list, s.procs[p].pc, l, q)
    ensures SleepInv(t)
  {
    hide Covers;
    hide PlacesInv;
    hide SleepInv;
    SleepKeeps(s, t, c, p);
  }

  /** The checks of sched never fail: exactly the lock of the process is held, and the process is not
      RUNNING. */
  lemma SwitchPasses(s: State, c: nat, p: Pid, why: Why)
    requires Executes(s, c, p) && s.procs[p].pc == Switch(why) && Inv(s)
    ensures ProcLock(p) in s.held && s.held[ProcLock(p)] == c && s.cpus[c].noff == 1 && s.procs[p].status != Running
  {
    hide PlacesInv;
    hide ClaimsInv;
    hide FairInv;
    hide MineInv;
    hide NamesInv;
    hide SleepInv;
    OnCpu(s, c, p);
    assert HoldsC(s, c, ProcLock(p)) <==> ProcLock(p) in s.held && s.held[ProcLock(p)] == c;
    assert s.cpus[c].noff == DepthC(s, c);
  }

  lemma SwitchLocks(s: State, c: nat, p: Pid, why: Why)
    requires Executes(s, c, p) && s.procs[p].pc == Switch(why) && s.procs[p].cpu == Some(c) && s.cpus[c].spc == Back(p)
    requires LocksInv(s) && PlacesInv(s)
    requires ProcLock(p) in s.held && s.held[ProcLock(p)] == c && s.cpus[c].noff == 1 && s.procs[p].status != Running
    ensures LocksInv(DoSwitch(s, c, p, why)) && PlacesInv(DoSwitch(s, c, p, why))
  {
    var t := DoSwitch(s, c, p, why);
    forall d, x | d in t.cpus ensures HoldsC(t, d, x) <==> x in t.held && t.held[x] == d {
      OtherCpu(s, c, d, p);
      assert HoldsC(s, d, x) <==> x in s.held && s.held[x] == d;
    }
    forall d | d in t.cpus ensures t.cpus[d].noff == DepthC(t, d) {
      OtherCpu(s, c, d, p);
      assert s.cpus[d].noff == DepthC(s, d);
    }
    forall q | q in t.procs && t.procs[q].cpu.Some? ensures t.procs[q].cpu.value in t.cpus
        && t.cpus[t.procs[q].cpu.value].on == Some(q) {
      assert s.procs[q].cpu.Some?;
    }
    forall q | q in t.procs && t.procs[q].cpu.None? ensures t.procs[q].pc.Resume? {
      assert q != p ==> s.procs[q].cpu.None?;
    }
  }

  // ----- All steps of a process

  /** What the code refers to is always there: a step only ever waits for a lock. */
  lemma NothingMissing(s: State, c: nat, p: Pid)
    requires Executes(s, c, p) && Inv(s)
    ensures Present(s, s.procs[p].pc)
  {
    hide LocksInv;
    hide PlacesInv;
    hide ClaimsInv;
    hide FairInv;
    hide MineInv;
    hide NamesInv;
    hide SleepInv;
    OnCpu(s, c, p);
  }

  lemma InsideInv(s: State, c: nat, p: Pid)
    requires Executes(s, c, p) && Present(s, s.procs[p].pc) && Wants(s, p, s.procs[p].pc).None?
             && Drops(p, s.procs[p].pc).None?
    requires Inv(s)
    ensures Inv(Inside(s, c, p))
  {
    hide Inv;
    match s.procs[p].pc
    case Yield1 => DoYieldInv(s, c, p);
    case Push1(q, k) => DoPushInv(s, c, p, q, k);
    case Lock1(l) => DoTestInv(s, c, p, l);
    case Sleep2(l) => DoSleepInv(s, c, p, l);
    case Unlock1(l) => DoUnlockInv(s, c, p, l);
    case Wake0(chan, i, a) => DoNextInv(s, c, p, chan, i, a);
    case Wake1(chan, i, q, a) => DoWakeInv(s, c, p, chan, i, q, a);
    case Exit1 => DoExitInv(s, c, p);
    case Fork1(np) => DoForkInv(s, c, p, np);
    case Switch(why) => DoSwitchInv(s, c, p, why);
    case Resume(why) => DoResumeInv(s, c, p, why);
    case _ =>
  }

  lemma StepProcInv(s: State, c: nat, p: Pid)
    requires Executes(s, c, p) && CanStep(s, c, p) && Inv(s)
    ensures Inv(StepProc(s, c, p))
  {
    hide Inv;
    if Wants(s, p, s.procs[p].pc).Some? {
      TakenInv(s, c, p);
    } else if Drops(p, s.procs[p].pc).Some? {
      GivenInv(s, c, p);
    } else {
      InsideInv(s, c, p);
    }
  }

  // ----- The scheduler loops

  /** A step of a scheduler loop. */
  ghost predicate SchedMoves(s: State, t: State, c: nat) {
    && c in s.cpus && s.cpus[c].on == None && t.cpus.Keys == s.cpus.Keys && t.cpus[c].on == None
    && t.procs == s.procs && t.list == s.list && t.locks == s.locks && t.rq == s.rq && t.ticks == s.ticks
       && t.panic == s.panic
    && (forall d {:trigger t.cpus[d]} | d in s.cpus && d != c :: t.cpus[d] == s.cpus[d])
    && (t.cpus[c].spc.Back? || t.cpus[c].proc == None)
    && Picks(t.cpus[c].spc) == Picks(s.cpus[c].spc)
  }

  lemma SchedPlaces(s: State, t: State, c: nat)
    requires PlacesInv(s) && c in s.cpus && s.cpus[c].on == None && t.procs == s.procs && t.cpus.Keys == s.cpus.Keys
    requires t.cpus[c].on == None && t.cpus[c].proc == None
    requires forall d {:trigger t.cpus[d]} | d in s.cpus && d != c :: t.cpus[d] == s.cpus[d]
    ensures PlacesInv(t)
  {}

  lemma SchedAcquire(s: State, c: nat, l: Lock, spc: Spc)
    requires c in s.cpus && s.cpus[c].on == None && CanAcquire(s, c, l) && !spc.Back? && s.cpus[c].proc == None
    requires !HoldsS(s.cpus[c].spc, l) && DepthS(spc) == DepthS(s.cpus[c].spc) + 1
    requires forall x :: HoldsS(spc, x) <==> HoldsS(s.cpus[c].spc, x) || x == l
    requires LocksInv(s) && PlacesInv(s)
    ensures var t := ToS(Acquire(s, c, l), c, spc);
      LocksInv(t) && PlacesInv(t) && t == s.(held := s.held[l := c], cpus := t.cpus) && t.cpus[c].spc == spc
          && t.cpus[c].proc == None
  {
    hide HoldsS;
    hide DepthS;
    hide LocksInv;
    hide PlacesInv;
    HeldIs(s, c, l);
    var t := ToS(Acquire(s, c, l), c, spc);
    SchedPlaces(s, t, c);
    SchedAcquireLocks(s, t, c, l, spc);
  }

  lemma SchedAcquireLocks(s: State, t: State, c: nat, l: Lock, spc: Spc)
    requires c in s.cpus && s.cpus[c].on == None && l !in s.held && t.held == s.held[l := c] && t.procs == s.procs
    requires t.cpus == s.cpus[c := s.cpus[c].(noff := s.cpus[c].noff + 1, spc := spc)]
    requires DepthS(spc) == DepthS(s.cpus[c].spc) + 1
             && forall x :: HoldsS(spc, x) <==> HoldsS(s.cpus[c].spc, x) || x == l
    requires LocksInv(s)
    ensures LocksInv(t)
  {
    hide Holds;
    hide Depth;
    hide HoldsS;
    hide DepthS;
    forall d, x | d in t.cpus ensures HoldsC(t, d, x) <==> x in t.held && t.held[x] == d {
      assert HoldsC(s, d, x) <==> x in s.held && s.held[x] == d;
    }
    forall d | d in t.cpus ensures t.cpus[d].noff == DepthC(t, d) {
      assert s.cpus[d].noff == DepthC(s, d);
    }
  }

  lemma SchedRelease(s: State, c: nat, l: Lock, spc: Spc)
    requires c in s.cpus && s.cpus[c].on == None && !spc.Back?
    requires HoldsS(s.cpus[c].spc, l) && DepthS(s.cpus[c].spc) == 1 && DepthS(spc) == 0
    requires (forall x :: HoldsS(s.cpus[c].spc, x) <==> x == l) && forall x :: !HoldsS(spc, x)
    requires LocksInv(s) && PlacesInv(s)
    ensures var t := ToS(Release(s.(cpus := s.cpus[c := s.cpus[c].(proc := None)]), c, l), c, spc);
      LocksInv(t) && PlacesInv(t) && t == s.(held := s.held - {l}, cpus := t.cpus) && t.cpus[c].spc == spc
          && t.cpus[c].proc == None
  {
    hide HoldsS;
    hide DepthS;
    hide LocksInv;
    hide PlacesInv;
    HeldIs(s, c, l);
    var t := ToS(Release(s.(cpus := s.cpus[c := s.cpus[c].(proc := None)]), c, l), c, spc);
    SchedPlaces(s, t, c);
    SchedReleaseLocks(s, t, c, l, spc);
  }

  lemma SchedReleaseLocks(s: State, t: State, c: nat, l: Lock, spc: Spc)
    requires c in s.cpus && s.cpus[c].on == None && l in s.held && s.held[l] == c && t.held == s.held - {l}
             && t.procs == s.procs
    requires t.cpus == s.cpus[c := s.cpus[c].(noff := s.cpus[c].noff - 1, spc := spc, proc := None)]
    requires DepthS(s.cpus[c].spc) == 1 && DepthS(spc) == 0
    requires (forall x :: HoldsS(s.cpus[c].spc, x) <==> x == l) && forall x :: !HoldsS(spc, x)
    requires LocksInv(s)
    ensures LocksInv(t)
  {
    hide Holds;
    hide Depth;
    hide HoldsS;
    hide DepthS;
    forall d, x | d in t.cpus ensures HoldsC(t, d, x) <==> x in t.held && t.held[x] == d {
      assert HoldsC(s, d, x) <==> x in s.held && s.held[x] == d;
    }
    forall d | d in t.cpus ensures t.cpus[d].noff == DepthC(t, d) {
      assert s.cpus[d].noff == DepthC(s, d);
    }
  }

  /** A scheduler loop never is the releaser of a sleep lock. */
  lemma SchedMovesInv(s: State, t: State, c: nat)
    requires SchedMoves(s, t, c) && LocksInv(t) && PlacesInv(t) && Inv(s)
    requires forall l {:trigger s.held[l]} | l in s.held && s.held[l] != c :: l in t.held && t.held[l] == s.held[l]
    ensures Inv(t)
  {
    hide LocksInv;
    hide PlacesInv;
    hide ClaimsInv;
    hide FairInv;
    hide MineInv;
    hide NamesInv;
    hide SleepInv;
    SchedClaims(s, t, c);
    FairKeeps(s, t);
    NamesKept(s, t);
    UnlocksAsBefore(s, t);
    MineKeeps(s, t);
    SchedSleep(s, t, c);
  }

  lemma UnlocksAsBefore(s: State, t: State)
    requires MineInv(s) && t.procs == s.procs
    ensures forall q {:trigger t.procs[q]} | q in t.procs && t.procs[q].pc.Unlock1? ::
              t.procs[q].pc.l in t.procs[q].mine
  {}

  lemma SchedSleep(s: State, t: State, c: nat)
    requires c in s.cpus && s.cpus[c].on == None && t.cpus.Keys == s.cpus.Keys && t.list == s.list && t.locks == s.locks
    requires s.procs.Keys == t.procs.Keys
             && forall d {:trigger t.cpus[d]} | d in s.cpus && d != c :: t.cpus[d] == s.cpus[d]
    requires forall q {:trigger t.procs[q]} | q in s.procs :: t.procs[q].pc == s.procs[q].pc
    requires forall q {:trigger t.procs[q]} | q in s.procs ::
              t.procs[q].status == Sleeping ==> s.procs[q].status == Sleeping
    requires forall l {:trigger s.held[l]} | l in s.held && s.held[l] != c :: l in t.held && t.held[l] == s.held[l]
    requires SleepInv(s)
    ensures SleepInv(t)
  {
    hide Covers;
    hide Ahead;
    forall q, x | q in t.procs && Committed(t.procs[q], x) ensures Awaited(t, q, x) {
      assert Committed(s.procs[q], x);
      assert Awaited(s, q, x);
    }
  }

  lemma DoPickInv(s: State, c: nat)
    requires c in s.cpus && s.cpus[c].on == None && s.cpus[c].spc == Pick && Inv(s)
    ensures Inv(DoPick(s, c)) && DoPick(s, c).rq.minv >= s.rq.minv
  {
    hide LocksInv;
    hide PlacesInv;
    hide ClaimsInv;
    hide FairInv;
    hide MineInv;
    hide NamesInv;
    hide SleepInv;
    hide Pop;
    hide Refreshed;
    var t := DoPick(s, c);
    FairIs(s);
    if s.rq.order != [] {
      NothingDiscarded(s);
    }
    PickClaims(s, c);
    FairPick(s, c);
    PickPlaces(s, c);
    NamesKept(s, t);
    PickUnlocks(s, t, c);
    MineKeeps(s, t);
    SchedSleep(s, t, c);
  }

  lemma PickUnlocks(s: State, t: State, c: nat)
    requires MineInv(s) && c in s.cpus && t == DoPick(s, c)
    ensures t.procs.Keys == s.procs.Keys
            && forall q {:trigger t.procs[q]} | q in t.procs && t.procs[q].pc.Unlock1? ::
                  t.procs[q].pc.l in t.procs[q].mine
  {
    PickSame(s, t, c);
    hide DoPick;
  }

  lemma PickSame(s: State, t: State, c: nat)
    requires c in s.cpus && t == DoPick(s, c)
    ensures t.procs.Keys == s.procs.Keys
            && forall q {:trigger t.procs[q]} | q in t.procs ::
                  t.procs[q].pc == s.procs[q].pc && t.procs[q].mine == s.procs[q].mine
  {
    hide Pop;
    hide Refreshed;
    if s.rq.order == [] || s.rq.order[0] !in s.procs {
      assert t.procs == s.procs;
    } else {
      var p := s.rq.order[0];
      assert t.procs == s.procs[p := s.procs[p].(queued := false, claim := t.procs[p].claim)];
    }
  }

  lemma PickPlaces(s: State, c: nat)
    requires c in s.cpus && s.cpus[c].on == None && s.cpus[c].spc == Pick && LocksInv(s) && PlacesInv(s) && ClaimsInv(s)
    ensures LocksInv(DoPick(s, c)) && PlacesInv(DoPick(s, c))
  {
    hide ClaimsInv;
    hide Pop;
    hide Refreshed;
    if s.rq.order != [] {
      NothingDiscarded(s);
    }
    var t := DoPick(s, c);
    assert s.cpus[c].proc == None;
    forall d, x | d in t.cpus ensures HoldsC(t, d, x) <==> x in t.held && t.held[x] == d {
      assert HoldsC(s, d, x) <==> x in s.held && s.held[x] == d;
    }
    forall d | d in t.cpus ensures t.cpus[d].noff == DepthC(t, d) {
      assert s.cpus[d].noff == DepthC(s, d);
    }
  }

  lemma DoStartInv(s: State, c: nat, p: Pid)
    requires c in s.cpus && s.cpus[c].on == None && s.cpus[c].spc == Start(p) && Inv(s)
    ensures p in s.procs && Inv(DoStart(s, c, p))
  {
    hide LocksInv;
    hide PlacesInv;
    hide ClaimsInv;
    hide FairInv;
    hide MineInv;
    hide NamesInv;
    hide SleepInv;
    StartOff(s, c, p);
    var t := DoStart(s, c, p);
    StartClaims(s, c, p);
    StartLocks(s, c, p);
    FairKeeps(s, t);
    NamesKept(s, t);
    UnlocksKept2(s, t, p);
    MineKeeps(s, t);
    SchedSleep(s, t, c);
  }

  lemma StartLocks(s: State, c: nat, p: Pid)
    requires c in s.cpus && s.cpus[c].on == None && s.cpus[c].spc == Start(p)
    requires p in s.procs && s.procs[p].cpu == None && s.procs[p].pc.Resume? && LocksInv(s) && PlacesInv(s)
    ensures LocksInv(DoStart(s, c, p)) && PlacesInv(DoStart(s, c, p))
  {
    var t := DoStart(s, c, p);
    forall d, x | d in t.cpus ensures HoldsC(t, d, x) <==> x in t.held && t.held[x] == d {
      assert HoldsC(s, d, x) <==> x in s.held && s.held[x] == d;
    }
    forall d | d in t.cpus ensures t.cpus[d].noff == DepthC(t, d) {
      assert s.cpus[d].noff == DepthC(s, d);
    }
    forall d | d in t.cpus && t.cpus[d].on.Some?
      ensures t.cpus[d].on.value in t.procs && t.procs[t.cpus[d].on.value].cpu == Some(d)
      ensures t.cpus[d].spc == Back(t.cpus[d].on.value) && t.cpus[d].proc == Some(t.cpus[d].on.value)
    {
      if d != c {
        assert s.cpus[d].on.Some?;
      }
    }
  }

  lemma StepSchedInv(s: State, c: nat)
    requires c in s.cpus && s.cpus[c].on == None && CanStepSched(s, c) && Inv(s)
    ensures Inv(StepSched(s, c))
  {
    hide LocksInv;
    hide PlacesInv;
    hide ClaimsInv;
    hide FairInv;
    hide MineInv;
    hide NamesInv;
    hide SleepInv;
    match s.cpus[c].spc
    case Idle =>
      IdleProc(s, c);
      SchedAcquire(s, c, RunQueueLock, Pick);
      SchedMovesInv(s, StepSched(s, c), c);
    case Pick => DoPickInv(s, c);
    case Found(next) =>
      IdleProc(s, c);
      assert s.cpus[c := s.cpus[c].(proc := None)] == s.cpus;
      SchedRelease(s, c, RunQueueLock, if next.Some? then Take(next.value) else Idle);
      SchedMovesInv(s, StepSched(s, c), c);
    case Take(p) =>
      IdleProc(s, c);
      SchedAcquire(s, c, ProcLock(p), Start(p));
      SchedMovesInv(s, StepSched(s, c), c);
    case Start(p) => DoStartInv(s, c, p);
    case Back(p) =>
      SchedRelease(s, c, ProcLock(p), Idle);
      SchedMovesInv(s, StepSched(s, c), c);
  }

  lemma IdleProc(s: State, c: nat)
    requires c in s.cpus && !s.cpus[c].spc.Back? && PlacesInv(s)
    ensures s.cpus[c].proc == None
  {}

  // ----- What a process may do at any time

  lemma CallInv(s: State, c: nat, p: Pid, l: Lock, pc: Pc)
    requires Executes(s, c, p) && s.procs[p].pc == Run && CanAcquire(s, c, l)
    requires Depth(pc) == 1 && forall x :: Holds(pc, p, x) <==> x == l
    requires Pushes(pc) == None && StatusOf(pc) == Running && !pc.Resume? && !pc.Switch? && PcOk(pc, p)
             && Refers(s, p, pc)
    requires (pc.Unlock1? ==> pc.l in s.procs[p].mine) && forall x :: !Committed(s.procs[p].(pc := pc), x)
    requires Inv(s)
    ensures Inv(To(Acquire(s, c, l), p, pc))
  {
    hide LocksInv;
    hide PlacesInv;
    hide ClaimsInv;
    hide FairInv;
    hide MineInv;
    hide NamesInv;
    hide SleepInv;
    hide PcOk;
    hide Refers;
    hide Pushes;
    hide StatusOf;
    hide Committed;
    OnCpu(s, c, p);
    var t := To(Acquire(s, c, l), p, pc);
    AcquireInv(s, c, p, l, pc);
    CoversNothing(s, p);
    RunIs(s, p);
    PcMovesInv(s, t, c, p, pc);
  }

  lemma RunIs(s: State, p: Pid)
    ensures Pushes(Run) == None && StatusOf(Run) == Running && !Yielding(Run)
  {}

  lemma TickInv(s: State, c: nat)
    requires Enabled(s, Tick(c)) && Inv(s)
    ensures Inv(Apply(s, Tick(c)))
  {
    hide LocksInv;
    hide PlacesInv;
    hide ClaimsInv;
    hide FairInv;
    hide MineInv;
    hide NamesInv;
    hide SleepInv;
    hide Moves;
    var p := s.cpus[c].on.value;
    OnCpu(s, c, p);
    ProcIs(s, p);
    var t := Apply(s, Tick(c));
    TickMoves(s, c);
    MovesInv(s, t, c, p);
    TickClaims(s, c);
    assert Claims(s) by {
      ClaimsAre(s);
    }
    FairTick(s, c, p);
    CoversNothing(s, p);
    LocksAside(s, t, c, p);
  }

  lemma TickClaims(s: State, c: nat)
    requires Enabled(s, Tick(c)) && Inv(s)
    ensures ClaimsInv(Apply(s, Tick(c)))
  {
    hide LocksInv;
    hide PlacesInv;
    hide ClaimsInv;
    hide FairInv;
    hide MineInv;
    hide NamesInv;
    hide SleepInv;
    var p := s.cpus[c].on.value;
    OnCpu(s, c, p);
    PcClaims(s, Apply(s, Tick(c)), p);
  }

  lemma TickMoves(s: State, c: nat)
    requires Enabled(s, Tick(c)) && s.cpus[c].proc == s.cpus[c].on
    ensures Moves(s, Apply(s, Tick(c)), c, s.cpus[c].on.value)
  {
    assert Apply(s, Tick(c)).procs[s.cpus[c].on.value].pc == Yield0;
  }

  lemma ClaimsAre(s: State)
    requires ClaimsInv(s)
    ensures Claims(s)
  {}

  lemma DoCreateInv(s: State, c: nat, np: Pid)
    requires Enabled(s, Create(c, np)) && Inv(s)
    ensures Inv(Apply(s, Create(c, np)))
  {
    hide LocksInv;
    hide PlacesInv;
    hide ClaimsInv;
    hide FairInv;
    hide MineInv;
    hide NamesInv;
    hide SleepInv;
    var p := s.cpus[c].on.value;
    OnCpu(s, c, p);
    var t := Apply(s, Create(c, np));
    MovesInv(s, t, c, p);
    ClaimsAre(s);
    CreateClaims(s, np, p, s.rq.v[np := 0]);
    FairCreate(s, np, p);
    CreateMine(s, t, np);
    CreateSleep(s, t, np);
  }

  lemma CreateMine(s: State, t: State, np: Pid)
    requires np !in s.procs && t.locks == s.locks && MineInv(s) && NamesInv(s)
    requires exists parent :: t.procs == s.procs[np := NewProc(parent)]
    ensures MineInv(t) && NamesInv(t)
  {
    assert Nobody(s, np);
    MineKeeps(s, t);
  }

  lemma CreateSleep(s: State, t: State, np: Pid)
    requires np !in s.procs && t.locks == s.locks && t.held == s.held && t.cpus == s.cpus && t.list == s.list + [np]
    requires exists parent :: t.procs == s.procs[np := NewProc(parent)]
    requires SleepInv(s)
    ensures SleepInv(t)
  {
    forall i: nat, q | Ahead(s.list, i, q) ensures Ahead(t.list, i, q) {
      var j :| i <= j < |s.list| && s.list[j] == q;
      assert t.list[j] == q;
    }
    assert t.list[|s.list|] == np;
    assert Ahead(t.list, 0, np);
    forall q, x | q in t.procs && Committed(t.procs[q], x) ensures Awaited(t, q, x) {
      assert q in s.procs && Committed(s.procs[q], x);
      assert Awaited(s, q, x);
    }
  }

  // ----- Every step

  lemma StepInv(s: State, step: Step)
    requires Enabled(s, step) && Inv(s)
    ensures Inv(Apply(s, step))
  {
    hide LocksInv;
    hide PlacesInv;
    hide ClaimsInv;
    hide FairInv;
    hide MineInv;
    hide NamesInv;
    hide SleepInv;
    match step
    case Go(c) =>
      if s.cpus[c].on.Some? {
        StepProcInv(s, c, s.cpus[c].on.value);
      } else {
        StepSchedInv(s, c);
      }
    case Tick(c) => TickInv(s, c);
    case Create(c, np) => DoCreateInv(s, c, np);
    case _ => CallsInv(s, step);
  }

  /** The steps in which a process at large takes a spin lock. */
  lemma CallsInv(s: State, step: Step)
    requires Enabled(s, step) && Inv(s) && !step.Go? && !step.Tick? && !step.Create?
    ensures Inv(Apply(s, step))
  {
    hide LocksInv;
    hide PlacesInv;
    hide ClaimsInv;
    hide FairInv;
    hide MineInv;
    hide NamesInv;
    hide SleepInv;
    match step
    case Yield(c) => CallInv(s, c, s.cpus[c].on.value, ProcLock(s.cpus[c].on.value), Yield1);
    case LockIt(c, l) => CallInv(s, c, s.cpus[c].on.value, LockOf(l), Lock1(l));
    case UnlockIt(c, l) =>
      MineLocks(s, s.cpus[c].on.value, l);
      CallInv(s, c, s.cpus[c].on.value, LockOf(l), Unlock1(l));
    case CheckIt(c, l) => CallInv(s, c, s.cpus[c].on.value, LockOf(l), Check1(l));
    case Exit(c) => CallInv(s, c, s.cpus[c].on.value, ProcLock(s.cpus[c].on.value), Exit1);
    case Launch(c, np) =>
      OnCpu(s, c, s.cpus[c].on.value);
      CallInv(s, c, s.cpus[c].on.value, ProcLock(np), Fork1(np));
  }

  lemma MineLocks(s: State, p: Pid, l: int)
    requires MineInv(s) && p in s.procs && l in s.procs[p].mine
    ensures l in s.locks
  {}

  lemma InitInv(s: State)
    requires Init(s)
    ensures Inv(s)
  {
    var p :| s.procs == map[p := Proc(Runnable, None, None, true, Resume(Yielded), {}, None, Queued)]
             && s.list == [p] && s.rq == Queue([p], map[p := 0], 0);
    assert s.list[0] == p;
    assert Ahead(s.list, 0, p);
    assert Fair(s.rq);
  }

  // ----- Runs

  ghost predicate IsRun(states: seq<State>, steps: seq<Step>) {
    && |states| == |steps| + 1
    && forall i {:trigger steps[i]} | 0 <= i < |steps| ::
          Enabled(states[i], steps[i]) && states[i + 1] == Apply(states[i], steps[i])
  }

  /** In every run from the start, no kernel check ever panics and all the invariants hold throughout. */
  lemma {:induction false} RunInv(states: seq<State>, steps: seq<Step>, i: nat)
    requires IsRun(states, steps) && i <= |steps| && (Init(states[0]) || Inv(states[0]))
    ensures Inv(states[i])
  {
    hide Inv;
    hide Init;
    hide Enabled;
    hide Apply;
    if i == 0 {
      if Init(states[0]) {
        InitInv(states[0]);
      }
    } else {
      RunInv(states, steps, i - 1);
      assert Enabled(states[i - 1], steps[i - 1]);
      StepInv(states[i - 1], steps[i - 1]);
    }
  }
}
