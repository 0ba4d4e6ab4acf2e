/** Which spin locks a CPU holds follows from where its code is, through every swtch: the lock of a process
    is handed over with it. No process is executed by two CPUs. */
module SchedulerLocks {
  import opened Wrappers
  import opened RunQueues
  import opened Scheduler

  // ----- What is held where

  predicate HoldsAfter(a: After, p: Pid, l: Lock) {
    l == if a.Unlocking? then LockOf(a.l) else ProcLock(p)
  }

  predicate HoldsPush(q: Pid, k: Then, p: Pid, l: Lock) {
    l == ProcLock(q) || (k.ThenWake? && HoldsAfter(k.after, p, l))
  }

  /** The spin locks held at a place in the code of process `p`. */
  predicate Holds(pc: Pc, p: Pid, l: Lock) {
    match pc
    case Run | Yield0 => false
    case Yield1 | Switch(_) | Resume(_) | Exit1 | Sleep2(_) | Sleep3(_) => l == ProcLock(p)
    case Push0(q, k) => HoldsPush(q, k, p, l)
    case Push1(q, k) => HoldsPush(q, k, p, l) || l == RunQueueLock
    case Push2(q, k) => HoldsPush(q, k, p, l) || l == RunQueueLock
    case Lock1(x) => l == LockOf(x)
    case Lock2(x) => l == LockOf(x)
    case Sleep0(x) => l == LockOf(x)
    case Unlock1(x) => l == LockOf(x)
    case Unlock2(x) => l == LockOf(x)
    case Check1(x) => l == LockOf(x)
    case Sleep1(x) => l == LockOf(x) || l == ProcLock(p)
    case Sleep4(x) => l == LockOf(x) || l == ProcLock(p)
    case Wake0(_, _, a) => HoldsAfter(a, p, l)
    case Wake1(_, _, q, a) => HoldsAfter(a, p, l) || l == ProcLock(q)
    case Wake2(_, _, q, a) => HoldsAfter(a, p, l) || l == ProcLock(q)
    case Fork1(np) => l == ProcLock(np)
    case Fork2(np) => l == ProcLock(np)
  }

  /** How many they are. */
  function Depth(pc: Pc): nat {
    match pc
    case Run | Yield0 => 0
    case Sleep1(_) | Sleep4(_) | Wake1(_, _, _, _) | Wake2(_, _, _, _) => 2
    case Push0(_, k) => if k.ThenWake? then 2 else 1
    case Push1(_, k) => if k.ThenWake? then 3 else 2
    case Push2(_, k) => if k.ThenWake? then 3 else 2
    case _ => 1
  }

  predicate HoldsS(spc: Spc, l: Lock) {
    match spc
    case Idle | Take(_) => false
    case Pick | Found(_) => l == RunQueueLock
    case Start(p) => l == ProcLock(p)
    case Back(p) => l == ProcLock(p)
  }

  function DepthS(spc: Spc): nat {
    if spc.Idle? || spc.Take? then 0 else 1
  }

  predicate HoldsC(s: State, c: nat, l: Lock)
    requires c in s.cpus
  {
    match s.cpus[c].on
    case None => HoldsS(s.cpus[c].spc, l)
    case Some(p) => p in s.procs && Holds(s.procs[p].pc, p, l)
  }

  function DepthC(s: State, c: nat): nat
    requires c in s.cpus
  {
    match s.cpus[c].on
    case None => DepthS(s.cpus[c].spc)
    case Some(p) => if p in s.procs then Depth(s.procs[p].pc) else 0
  }

  // ----- The invariant

  ghost predicate LocksInv(s: State) {
    && (forall c, l {:trigger HoldsC(s, c, l)} | c in s.cpus :: HoldsC(s, c, l) <==> l in s.held && s.held[l] == c)
    && (forall l {:trigger s.held[l]} | l in s.held :: s.held[l] in s.cpus)
    && (forall c {:trigger s.cpus[c].noff} | c in s.cpus :: s.cpus[c].noff == DepthC(s, c))
  }

  /** CPUs and processes agree on who executes whom. */
  ghost predicate PlacesInv(s: State) {
    && (forall c {:trigger s.cpus[c].on} | c in s.cpus && s.cpus[c].on.Some? ::
          var p := s.cpus[c].on.value;
          p in s.procs && s.procs[p].cpu == Some(c) && s.cpus[c].spc == Back(p) && s.cpus[c].proc == Some(p))
    && (forall c {:trigger s.cpus[c].spc} | c in s.cpus && !s.cpus[c].spc.Back? :: s.cpus[c].proc == None)
    && (forall p {:trigger s.procs[p].cpu} | p in s.procs && s.procs[p].cpu.Some? ::
          s.procs[p].cpu.value in s.cpus && s.cpus[s.procs[p].cpu.value].on == Some(p))
    && (forall p {:trigger s.procs[p].cpu} | p in s.procs && s.procs[p].cpu.None? :: s.procs[p].pc.Resume?)
  }

  /** No process is executed by two CPUs. */
  lemma NoneTwice(s: State, c: nat, d: nat)
    requires PlacesInv(s) && c in s.cpus && d in s.cpus && s.cpus[c].on.Some? && s.cpus[c].on == s.cpus[d].on
    ensures c == d
  {
    assert s.procs[s.cpus[c].on.value].cpu == Some(c);
    assert s.procs[s.cpus[d].on.value].cpu == Some(d);
  }

  /** A spin lock is held by one CPU. */
  lemma OneHolds(s: State, c: nat, d: nat, l: Lock)
    requires LocksInv(s) && c in s.cpus && d in s.cpus && HoldsC(s, c, l) && HoldsC(s, d, l)
    ensures c == d
  {
    assert s.held[l] == c;
    assert s.held[l] == d;
  }

  // ----- Lock steps

  lemma TakenHolds(s: State, p: Pid, pc: Pc)
    requires Wants(s, p, pc).Some?
    ensures !Holds(pc, p, Wants(s, p, pc).value)
    ensures forall l :: Holds(Taken(s, p, pc), p, l) <==> Holds(pc, p, l) || l == Wants(s, p, pc).value
    ensures Depth(Taken(s, p, pc)) == Depth(pc) + 1 && !Taken(s, p, pc).Resume?
  {}

  lemma GivenHolds(p: Pid, pc: Pc)
    requires Drops(p, pc).Some? && PcOk(pc, p)
    ensures Holds(pc, p, Drops(p, pc).value) && Depth(pc) >= 1
    ensures forall l :: Holds(Given(p, pc), p, l) <==> Holds(pc, p, l) && l != Drops(p, pc).value
    ensures Depth(pc) == Depth(Given(p, pc)) + 1 && !Given(p, pc).Resume?
  {}

  /** A process that queues itself names itself, and wakeup passes over its caller. */
  predicate PcOk(pc: Pc, p: Pid) {
    match pc
    case Push0(q, k) => PushOk(q, k, p)
    case Push1(q, k) => PushOk(q, k, p)
    case Push2(q, k) => PushOk(q, k, p)
    case Wake1(_, _, q, _) => q != p
    case Wake2(_, _, q, _) => q != p
    case Fork1(np) => np != p
    case Fork2(np) => np != p
    case _ => true
  }

  predicate PushOk(q: Pid, k: Then, p: Pid) {
    k.ThenSwitch? <==> q == p
  }

  /** CPU `c` executes process `p`. */
  predicate Executes(s: State, c: nat, p: Pid) {
    c in s.cpus && p in s.procs && s.cpus[c].on == Some(p)
  }

  /** Taking or giving back a lock does not change who executes whom. */
  lemma PlacesMove(s: State, t: State, p: Pid, pc: Pc)
    requires PlacesInv(s) && p in s.procs && t.procs == To(s, p, pc).procs && !pc.Resume? && s.procs[p].cpu.Some?
    requires t.cpus.Keys == s.cpus.Keys
    requires forall c {:trigger t.cpus[c]} | c in s.cpus ::
               t.cpus[c].on == s.cpus[c].on && t.cpus[c].spc == s.cpus[c].spc && t.cpus[c].proc == s.cpus[c].proc
    ensures PlacesInv(t)
  {
    forall q | q in t.procs && t.procs[q].cpu.None? ensures t.procs[q].pc.Resume? {
      assert s.procs[q].cpu.None?;
    }
    forall q | q in t.procs && t.procs[q].cpu.Some? ensures t.procs[q].cpu.value in t.cpus
        && t.cpus[t.procs[q].cpu.value].on == Some(q) {
      assert s.procs[q].cpu.Some?;
    }
  }

  lemma AcquireInv(s: State, c: nat, p: Pid, l: Lock, pc: Pc)
    requires Executes(s, c, p) && CanAcquire(s, c, l)
    requires !Holds(s.procs[p].pc, p, l) && Depth(pc) == Depth(s.procs[p].pc) + 1 && !pc.Resume?
    requires forall x :: Holds(pc, p, x) <==> Holds(s.procs[p].pc, p, x) || x == l
    requires LocksInv(s) && PlacesInv(s)
    ensures var t := To(Acquire(s, c, l), p, pc);
      LocksInv(t) && PlacesInv(t) && t == To(s.(held := s.held[l := c], cpus := t.cpus), p, pc) && t.panic == s.panic
  {
    hide Holds;
    hide Depth;
    hide PlacesInv;
    hide LocksInv;
    ExecutesIs(s, c, p);
    HeldIs(s, c, l);
    assert HoldsC(s, c, l) == Holds(s.procs[p].pc, p, l);
    var t := To(Acquire(s, c, l), p, pc);
    PlacesMove(s, t, p, pc);
    AcquireLocks(s, t, c, p, l, pc);
  }

  lemma ExecutesIs(s: State, c: nat, p: Pid)
    requires Executes(s, c, p) && PlacesInv(s)
    ensures s.procs[p].cpu == Some(c)
  {}

  lemma HeldIs(s: State, c: nat, l: Lock)
    requires c in s.cpus && LocksInv(s)
    ensures HoldsC(s, c, l) <==> l in s.held && s.held[l] == c
    ensures s.cpus[c].noff == DepthC(s, c)
  {}

  lemma AcquireLocks(s: State, t: State, c: nat, p: Pid, l: Lock, pc: Pc)
    requires Executes(s, c, p) && l !in s.held && t.held == s.held[l := c] && t.procs == To(s, p, pc).procs
    requires t.cpus == s.cpus[c := s.cpus[c].(noff := s.cpus[c].noff + 1)]
    requires Depth(pc) == Depth(s.procs[p].pc) + 1
             && forall x :: Holds(pc, p, x) <==> Holds(s.procs[p].pc, p, x) || x == l
    requires LocksInv(s) && PlacesInv(s)
    ensures LocksInv(t)
  {
    hide Holds;
    hide Depth;
    hide HoldsS;
    hide DepthS;
    hide PlacesInv;
    forall d, x | d in t.cpus ensures HoldsC(t, d, x) <==> x in t.held && t.held[x] == d {
      OtherCpu(s, c, d, p);
      assert HoldsC(s, d, x) <==> x in s.held && s.held[x] == d;
    }
    forall d | d in t.cpus ensures t.cpus[d].noff == DepthC(t, d) {
      OtherCpu(s, c, d, p);
      assert s.cpus[d].noff == DepthC(s, d);
    }
  }

  lemma OtherCpu(s: State, c: nat, d: nat, p: Pid)
    requires PlacesInv(s) && Executes(s, c, p) && d in s.cpus
    ensures d != c ==> s.cpus[d].on != Some(p)
  {
    if s.cpus[d].on == Some(p) {
      NoneTwice(s, c, d);
    }
  }

  lemma ReleaseInv(s: State, c: nat, p: Pid, l: Lock, pc: Pc)
    requires Executes(s, c, p)
    requires Holds(s.procs[p].pc, p, l) && Depth(s.procs[p].pc) == Depth(pc) + 1 && !pc.Resume?
    requires forall x :: Holds(pc, p, x) <==> Holds(s.procs[p].pc, p, x) && x != l
    requires LocksInv(s) && PlacesInv(s)
    ensures var t := To(Release(s, c, l), p, pc);
      LocksInv(t) && PlacesInv(t) && t == To(s.(held := s.held - {l}, cpus := t.cpus), p, pc) && t.panic == s.panic
  {
    hide Holds;
    hide Depth;
    hide PlacesInv;
    hide LocksInv;
    ExecutesIs(s, c, p);
    HeldIs(s, c, l);
    var t := To(Release(s, c, l), p, pc);
    PlacesMove(s, t, p, pc);
    ReleaseLocks(s, t, c, p, l, pc);
  }

  lemma ReleaseLocks(s: State, t: State, c: nat, p: Pid, l: Lock, pc: Pc)
    requires Executes(s, c, p) && l in s.held && s.held[l] == c && t.held == s.held - {l}
             && t.procs == To(s, p, pc).procs
    requires t.cpus == s.cpus[c := s.cpus[c].(noff := s.cpus[c].noff - 1)]
    requires Depth(s.procs[p].pc) == Depth(pc) + 1
             && forall x :: Holds(pc, p, x) <==> Holds(s.procs[p].pc, p, x) && x != l
    requires LocksInv(s) && PlacesInv(s)
    ensures LocksInv(t)
  {
    hide Holds;
    hide Depth;
    hide HoldsS;
    hide DepthS;
    hide PlacesInv;
    forall d, x | d in t.cpus ensures HoldsC(t, d, x) <==> x in t.held && t.held[x] == d {
      OtherCpu(s, c, d, p);
      assert HoldsC(s, d, x) <==> x in s.held && s.held[x] == d;
    }
    forall d | d in t.cpus ensures t.cpus[d].noff == DepthC(t, d) {
      OtherCpu(s, c, d, p);
      assert s.cpus[d].noff == DepthC(s, d);
    }
  }

  // ----- Steps inside critical sections

  /** Control moves on without a lock being touched. */
  ghost predicate Moves(s: State, t: State, c: nat, p: Pid) {
    && Executes(s, c, p) && t.cpus == s.cpus && t.held == s.held && t.panic == s.panic && s.procs.Keys <= t.procs.Keys
    && (forall x :: Holds(t.procs[p].pc, p, x) <==> Holds(s.procs[p].pc, p, x))
    && Depth(t.procs[p].pc) == Depth(s.procs[p].pc)
    && (forall q {:trigger t.procs[q]} {:trigger s.procs[q]} | q in s.procs && q != p :: t.procs[q].pc == s.procs[q].pc)
    && (forall q {:trigger t.procs[q]} {:trigger s.procs[q]} | q in s.procs :: t.procs[q].cpu == s.procs[q].cpu)
    && (forall q {:trigger t.procs[q]} | q in t.procs && q !in s.procs ::
          t.procs[q].cpu == None && t.procs[q].pc.Resume?)
  }

  lemma MovesInv(s: State, t: State, c: nat, p: Pid)
    requires Moves(s, t, c, p) && LocksInv(s) && PlacesInv(s)
    ensures LocksInv(t) && PlacesInv(t)
  {
    forall d, x | d in t.cpus ensures HoldsC(t, d, x) <==> x in t.held && t.held[x] == d {
      OtherCpu(s, c, d, p);
      assert HoldsC(s, d, x) <==> x in s.held && s.held[x] == d;
    }
    forall d | d in t.cpus ensures t.cpus[d].noff == DepthC(t, d) {
      OtherCpu(s, c, d, p);
      assert s.cpus[d].noff == DepthC(s, d);
    }
    assert s.procs[p].cpu == Some(c);
    forall q | q in t.procs && t.procs[q].cpu.None? ensures t.procs[q].pc.Resume? {
      if q in s.procs {
        assert s.procs[q].cpu.None?;
      }
    }
    forall q | q in t.procs && t.procs[q].cpu.Some? ensures t.procs[q].cpu.value in t.cpus
        && t.cpus[t.procs[q].cpu.value].on == Some(q) {
      assert q in s.procs && s.procs[q].cpu.Some?;
    }
  }
}
