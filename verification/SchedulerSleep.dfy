/** Sleep locks: one holder at a time, and no wakeup is lost. */
module SchedulerSleep {
  import opened Wrappers
  import opened RunQueues
  import opened Scheduler
  import opened SchedulerLocks
  import opened SchedulerClaims

  // ----- One holder

  /** Whoever has acquired a sleep lock and not released it is the one that the lock names. */
  ghost predicate MineInv(s: State) {
    && (forall p, l {:trigger l in s.procs[p].mine} | p in s.procs ::
          l in s.procs[p].mine <==> l in s.locks && s.locks[l].locked && s.locks[l].pid == p)
    && (forall p {:trigger s.procs[p]} | p in s.procs && s.procs[p].pc.Unlock1? :: s.procs[p].pc.l in s.procs[p].mine)
  }

  lemma OneHolder(s: State, l: int, p: Pid, q: Pid)
    requires MineInv(s) && p in s.procs && q in s.procs && l in s.procs[p].mine && l in s.procs[q].mine
    ensures p == q
  {}

  /** What holdingsleeplock looks at tells whether the caller holds the lock. */
  lemma HoldingTells(s: State, p: Pid, l: int)
    requires MineInv(s) && p in s.procs && l in s.locks
    ensures s.locks[l].locked && s.locks[l].pid == p <==> l in s.procs[p].mine
  {}

  lemma MineKeeps(s: State, t: State)
    requires MineInv(s) && s.procs.Keys <= t.procs.Keys && t.locks == s.locks
    requires forall p {:trigger t.procs[p]} | p in s.procs :: t.procs[p].mine == s.procs[p].mine
    requires forall p {:trigger t.procs[p]} | p in t.procs && t.procs[p].pc.Unlock1? ::
              t.procs[p].pc.l in t.procs[p].mine
    requires forall p {:trigger t.procs[p]} | p in t.procs && p !in s.procs :: t.procs[p].mine == {} && Nobody(s, p)
    ensures MineInv(t)
  {
    forall p, l | p in t.procs ensures l in t.procs[p].mine <==>
        l in t.locks && t.locks[l].locked && t.locks[l].pid == p {
      if p in s.procs {
        assert l in t.procs[p].mine <==> l in s.procs[p].mine;
      } else {
        assert t.procs[p].mine == {};
      }
    }
  }

  /** No lock names `p`. */
  ghost predicate Nobody(s: State, p: Pid) {
    forall l | l in s.locks && s.locks[l].locked :: s.locks[l].pid != p
  }

  /** Locks name only processes that exist. */
  ghost predicate NamesInv(s: State) {
    forall l {:trigger s.locks[l]} | l in s.locks && s.locks[l].locked ::
        s.locks[l].pid >= 0 && s.locks[l].pid in s.procs
  }

  lemma MineTest(s: State, p: Pid, l: int)
    requires MineInv(s) && NamesInv(s) && p in s.procs && l in s.locks && s.procs[p].pc == Lock1(l)
    ensures MineInv(DoTest(s, p, l)) && NamesInv(DoTest(s, p, l))
  {
    var t := DoTest(s, p, l);
    forall q, x | q in t.procs ensures x in t.procs[q].mine <==>
        x in t.locks && t.locks[x].locked && t.locks[x].pid == q {
      assert x in s.procs[q].mine <==> x in s.locks && s.locks[x].locked && s.locks[x].pid == q;
    }
  }

  lemma MineUnlock(s: State, p: Pid, l: int)
    requires MineInv(s) && NamesInv(s) && p in s.procs && s.procs[p].pc == Unlock1(l)
    requires forall q | q in s.procs && q != p && s.procs[q].pc.Unlock1? :: s.procs[q].pc.l != l
    ensures MineInv(DoUnlock(s, p, l)) && NamesInv(DoUnlock(s, p, l))
  {
    var t := DoUnlock(s, p, l);
    assert l in s.procs[p].mine;
    forall q, x | q in t.procs ensures x in t.procs[q].mine <==>
        x in t.locks && t.locks[x].locked && t.locks[x].pid == q {
      assert x in s.procs[q].mine <==> x in s.locks && s.locks[x].locked && s.locks[x].pid == q;
    }
  }

  // ----- No lost wakeup

  /** The process sleeps on lock `l`, or is bound to. */
  predicate Committed(r: Proc, l: int) {
    match r.pc
    case Sleep0(x) => x == l
    case Sleep1(x) => x == l
    case Sleep2(x) => x == l
    case Switch(why) => why == Slept(l)
    case Resume(why) => why == Slept(l) && r.status == Sleeping
    case _ => false
  }

  /** `p` is in the part of the list that is still to come. */
  ghost predicate Ahead(list: seq<Pid>, i: nat, p: Pid) {
    exists j | i <= j < |list| :: list[j] == p
  }

  /** A releaser of lock `l` has process `p` before it. */
  ghost predicate Covers(list: seq<Pid>, pc: Pc, l: int, p: Pid) {
    match pc
    case Wake0(chan, i, a) => chan == LockChan(l) && a == Unlocking(l) && Ahead(list, i, p)
    case Wake1(chan, i, _, a) => chan == LockChan(l) && a == Unlocking(l) && Ahead(list, i, p)
    case Wake2(chan, i, _, a) => chan == LockChan(l) && a == Unlocking(l) && Ahead(list, i + 1, p)
    case Push0(_, k) => k.ThenWake? && k.chan == LockChan(l) && k.after == Unlocking(l) && Ahead(list, k.i + 1, p)
    case Push1(_, k) => k.ThenWake? && k.chan == LockChan(l) && k.after == Unlocking(l) && Ahead(list, k.i + 1, p)
    case Push2(_, k) => k.ThenWake? && k.chan == LockChan(l) && k.after == Unlocking(l) && Ahead(list, k.i + 1, p)
    case _ => false
  }

  /** The holder of the spin lock of `l` is such a releaser. */
  ghost predicate Coming(s: State, l: int, p: Pid) {
    && LockOf(l) in s.held && s.held[LockOf(l)] in s.cpus && s.cpus[s.held[LockOf(l)]].on.Some?
    && s.cpus[s.held[LockOf(l)]].on.value in s.procs
    && Covers(s.list, s.procs[s.cpus[s.held[LockOf(l)]].on.value].pc, l, p)
  }

  ghost predicate Awaited(s: State, p: Pid, l: int) {
    l in s.locks && (s.locks[l].locked || Coming(s, l, p))
  }

  ghost predicate SleepInv(s: State) {
    && (forall p, l {:trigger Committed(s.procs[p], l)} | p in s.procs && Committed(s.procs[p], l) :: Awaited(s, p, l))
    && (forall p {:trigger s.procs[p]} | p in s.procs :: Ahead(s.list, 0, p))
  }

  lemma NoLostWakeup(s: State, p: Pid, l: int)
    requires SleepInv(s) && p in s.procs && Committed(s.procs[p], l)
    ensures l in s.locks && (s.locks[l].locked || Coming(s, l, p))
  {
    assert Awaited(s, p, l);
  }

  /** What a step of process `p` on CPU `c` leaves alone. */
  ghost predicate Apart(s: State, t: State, c: nat, p: Pid) {
    && Executes(s, c, p) && t.list == s.list && t.locks.Keys == s.locks.Keys && t.procs.Keys == s.procs.Keys
    && (forall l {:trigger s.locks[l]} {:trigger t.locks[l]} | l in s.locks :: s.locks[l].locked ==> t.locks[l].locked)
    && (forall l {:trigger s.held[l]} | l in s.held && s.held[l] != c :: l in t.held && t.held[l] == s.held[l])
    && t.cpus.Keys == s.cpus.Keys && (forall d {:trigger t.cpus[d]} | d in s.cpus && d != c ::
          t.cpus[d].on == s.cpus[d].on)
    && (forall q {:trigger t.procs[q]} | q in s.procs && q != p :: t.procs[q].pc == s.procs[q].pc)
    && (forall q {:trigger t.procs[q]} | q in s.procs && q != p ::
          t.procs[q].status == Sleeping ==> s.procs[q].status == Sleeping)
  }

  lemma AwaitedStays(s: State, t: State, c: nat, p: Pid, q: Pid, l: int)
    requires Apart(s, t, c, p) && PlacesInv(s) && Awaited(s, q, l)
    requires t.locks[l].locked ||
             (Covers(s.list, s.procs[p].pc, l, q) && LockOf(l) in s.held && s.held[LockOf(l)] == c ==>
               Covers(t.list, t.procs[p].pc, l, q) && LockOf(l) in t.held && t.held[LockOf(l)] == c
               && t.cpus[c].on == Some(p))
    ensures Awaited(t, q, l)
  {
    hide Covers;
    if !t.locks[l].locked && s.held[LockOf(l)] != c {
      OtherCpu(s, c, s.held[LockOf(l)], p);
    }
  }

  /** A step of `p` that keeps, for everybody else who sleeps, the releaser that `p` may be. */
  lemma SleepKeeps(s: State, t: State, c: nat, p: Pid)
    requires Apart(s, t, c, p) && PlacesInv(s) && SleepInv(s)
    requires forall l | Committed(t.procs[p], l) :: Committed(s.procs[p], l) || (l in t.locks && t.locks[l].locked)
    requires forall q, l | q in s.procs && q != p && Committed(t.procs[q], l) && Covers(s.list, s.procs[p].pc, l, q) &&
                           LockOf(l) in s.held && s.held[LockOf(l)] == c ::
               (l in t.locks && t.locks[l].locked) ||
               (Covers(t.list, t.procs[p].pc, l, q) && LockOf(l) in t.held && t.held[LockOf(l)] == c
                   && t.cpus[c].on == Some(p))
    ensures SleepInv(t)
  {
    hide Covers;
    hide Awaited;
    forall q, l | q in t.procs && Committed(t.procs[q], l) ensures Awaited(t, q, l) {
      if q == p {
        if Committed(s.procs[p], l) {
          assert Awaited(s, p, l);
          NotCovering(s.list, s.procs[p], l, p);
          AwaitedStays(s, t, c, p, p, l);
        } else {
          AwaitedLocked(t, p, l);
        }
      } else {
        assert Committed(s.procs[q], l);
        assert Awaited(s, q, l);
        AwaitedHas(s, q, l);
        AwaitedStays(s, t, c, p, q, l);
      }
    }
  }

  lemma AwaitedHas(s: State, q: Pid, l: int)
    requires Awaited(s, q, l)
    ensures l in s.locks
  {}

  lemma AwaitedLocked(t: State, p: Pid, l: int)
    requires l in t.locks && t.locks[l].locked
    ensures Awaited(t, p, l)
  {}

  lemma NotCovering(list: seq<Pid>, r: Proc, l: int, p: Pid)
    requires Committed(r, l)
    ensures !Covers(list, r.pc, l, p)
  {}

  /** Moving along the list. */
  lemma AheadNext(list: seq<Pid>, i: nat, p: Pid)
    ensures Ahead(list, i, p) <==> (i < |list| && list[i] == p) || Ahead(list, i + 1, p)
  {}

  /** wakeup passes over a process only if it is not bound to sleep on the lock. */
  lemma NotCommitted(s: State, c: nat, p: Pid, q: Pid, i: nat, l: int)
    requires Executes(s, c, p) && s.procs[p].pc == Wake1(LockChan(l), i, q, Unlocking(l)) && q != p && q in s.procs
    requires !(s.procs[q].status == Sleeping && s.procs[q].chan == Some(LockChan(l)))
    requires LocksInv(s) && PlacesInv(s) && ClaimsInv(s)
    ensures !Committed(s.procs[q], l)
  {
    hide LocksInv;
    hide References;
    hide Claims;
    ProcIs(s, q);
    if Committed(s.procs[q], l) && s.procs[q].cpu.Some? {
      CommittedHolds(s.procs[q], q, l);
      if s.procs[q].pc.Sleep0? {
        OneHolds(s, c, s.procs[q].cpu.value, LockOf(l));
      } else {
        OneHolds(s, c, s.procs[q].cpu.value, ProcLock(q));
      }
    }
  }

  lemma CommittedHolds(r: Proc, q: Pid, l: int)
    requires Committed(r, l)
    ensures Holds(r.pc, q, if r.pc.Sleep0? then LockOf(l) else ProcLock(q))
  {}
}
