/** Mutual exclusion by sleep locks, told from what processes do: a process holds a lock from the moment that
    its call of acquiresleeplock returns until it calls releasesleeplock (kernel/sleeplock.c). */
module SchedulerHolding {
  import opened Wrappers
  import opened RunQueues
  import opened Scheduler
  import opened SchedulerLocks
  import opened SchedulerSleep
  import opened SchedulerRuns

  // ----- What a run tells

  /** Process `p` makes the step. */
  predicate By(s: State, step: Step, p: Pid) {
    step.c in s.cpus && s.cpus[step.c].on == Some(p)
  }

  predicate CallsLock(s: State, step: Step, p: Pid, l: int) {
    By(s, step, p) && step.LockIt? && step.l == l
  }

  predicate CallsUnlock(s: State, step: Step, p: Pid, l: int) {
    By(s, step, p) && step.UnlockIt? && step.l == l
  }

  /** The process is back in code that holds no spin lock. */
  predicate Outside(s: State, p: Pid) {
    p in s.procs && s.procs[p].pc == Run
  }

  /** After `i` steps `p` is within a call of acquiresleeplock. */
  predicate Acquiring(states: seq<State>, steps: seq<Step>, p: Pid, l: int, i: nat)
    requires i <= |steps| < |states|
  {
    i > 0 && (CallsLock(states[i - 1], steps[i - 1], p, l)
              || (Acquiring(states, steps, p, l, i - 1) && !Outside(states[i], p)))
  }

  /** `p` is within a call of releasesleeplock. */
  predicate Releasing(states: seq<State>, steps: seq<Step>, p: Pid, l: int, i: nat)
    requires i <= |steps| < |states|
  {
    i > 0 && (CallsUnlock(states[i - 1], steps[i - 1], p, l)
              || (Releasing(states, steps, p, l, i - 1) && !Outside(states[i], p)))
  }

  /** A call of acquiresleeplock by `p` has returned, and `p` has not called releasesleeplock since. */
  predicate Holding(states: seq<State>, steps: seq<Step>, p: Pid, l: int, i: nat)
    requires i <= |steps| < |states|
  {
    i > 0 && !CallsUnlock(states[i - 1], steps[i - 1], p, l)
    && ((Acquiring(states, steps, p, l, i - 1) && Outside(states[i], p)) || Holding(states, steps, p, l, i - 1))
  }

  // ----- What the state tells

  predicate InAcquire(pc: Pc, l: int) {
    match pc
    case Lock1(x) => x == l
    case Lock2(x) => x == l
    case Sleep0(x) => x == l
    case Sleep1(x) => x == l
    case Sleep2(x) => x == l
    case Sleep3(x) => x == l
    case Sleep4(x) => x == l
    case Switch(why) => why == Slept(l)
    case Resume(why) => why == Slept(l)
    case _ => false
  }

  /** In wakeup, called by releasesleeplock, or behind it. */
  predicate PastUnlock(pc: Pc, l: int) {
    match pc
    case Wake0(_, _, a) => a == Unlocking(l)
    case Wake1(_, _, _, a) => a == Unlocking(l)
    case Wake2(_, _, _, a) => a == Unlocking(l)
    case Push0(_, k) => k.ThenWake? && k.after == Unlocking(l)
    case Push1(_, k) => k.ThenWake? && k.after == Unlocking(l)
    case Push2(_, k) => k.ThenWake? && k.after == Unlocking(l)
    case Unlock2(x) => x == l
    case _ => false
  }

  predicate InRelease(pc: Pc, l: int) {
    pc == Unlock1(l) || PastUnlock(pc, l)
  }

  predicate InSection(r: Proc, l: int) {
    l in r.mine && r.pc != Lock2(l) && r.pc != Unlock1(l)
  }

  /** wakeup is called with the channel that belongs to its caller. */
  predicate WakeOk(pc: Pc) {
    match pc
    case Wake0(chan, _, a) => ChanOf(chan, a)
    case Wake1(chan, _, _, a) => ChanOf(chan, a)
    case Wake2(chan, _, _, a) => ChanOf(chan, a)
    case Push0(_, k) => k.ThenWake? ==> ChanOf(k.chan, k.after)
    case Push1(_, k) => k.ThenWake? ==> ChanOf(k.chan, k.after)
    case Push2(_, k) => k.ThenWake? ==> ChanOf(k.chan, k.after)
    case _ => true
  }

  predicate ChanOf(chan: Chan, a: After) {
    match a
    case Unlocking(l) => chan == LockChan(l)
    case Exiting => chan.ProcChan?
  }

  // ----- One step

  /** The own steps of a process. */
  ghost predicate OwnStep(step: Step, r: Proc, u: Proc, l: int) {
    && (InAcquire(u.pc, l) <==> step == LockIt(step.c, l) || (InAcquire(r.pc, l) && u.pc != Run))
    && (InRelease(u.pc, l) <==> step == UnlockIt(step.c, l) || (InRelease(r.pc, l) && u.pc != Run))
    && (InSection(u, l) <==> step != UnlockIt(step.c, l)
                             && ((InAcquire(r.pc, l) && u.pc == Run) || InSection(r, l)))
    && (u.pc == Lock2(l) ==> l in u.mine) && (WakeOk(r.pc) ==> WakeOk(u.pc))
  }

  lemma OwnTaken(s: State, c: nat, p: Pid, l: int)
    requires p in s.procs && c in s.cpus && Wants(s, p, s.procs[p].pc).Some?
    ensures OwnStep(Go(c), s.procs[p], s.procs[p].(pc := Taken(s, p, s.procs[p].pc)), l)
  {}

  lemma OwnGiven(c: nat, p: Pid, r: Proc, l: int)
    requires Drops(p, r.pc).Some? && (r.pc == Lock2(l) ==> l in r.mine)
    ensures OwnStep(Go(c), r, r.(pc := Given(p, r.pc)), l)
  {}

  lemma OwnInside(s: State, c: nat, p: Pid, l: int)
    requires Executes(s, c, p) && Present(s, s.procs[p].pc) && MineInv(s)
    requires Wants(s, p, s.procs[p].pc).None? && Drops(p, s.procs[p].pc).None? && s.procs[p].pc != Run
    requires (s.procs[p].pc.Wake1? ==> s.procs[p].pc.p != p) && (s.procs[p].pc.Fork1? ==> s.procs[p].pc.np != p)
    ensures p in Inside(s, c, p).procs && OwnStep(Go(c), s.procs[p], Inside(s, c, p).procs[p], l)
  {
    hide OwnStep;
    hide MineInv;
    hide DoWake;
    hide DoFork;
    hide DoNext;
    hide DoSwitch;
    hide DoResume;
    hide DoPush;
    match s.procs[p].pc
    case Yield1 => OwnMoves(c, s.procs[p], DoYield(s, c, p).procs[p], l);
    case Push1(q, k) => OwnPush(s, c, p, q, k, l);
    case Lock1(x) => OwnTest(s, c, p, x, l);
    case Sleep2(x) => OwnMoves(c, s.procs[p], DoSleep(s, p, x).procs[p], l);
    case Unlock1(x) => OwnUnlock(s, c, p, x, l);
    case Wake0(chan, i, a) => OwnNext(s, c, p, chan, i, a, l);
    case Wake1(chan, i, q, a) => OwnWake(s, c, p, chan, i, q, a, l);
    case Exit1 => OwnMoves(c, s.procs[p], DoExit(s, p).procs[p], l);
    case Fork1(np) => OwnFork(s, c, p, np, l);
    case Switch(why) => OwnSwitch(s, c, p, why, l);
    case Resume(why) => OwnResume(s, c, p, why, l);
  }

  lemma OwnMoves(c: nat, r: Proc, u: Proc, l: int)
    requires u.mine == r.mine && u.pc != Run && !u.pc.Lock2? && !u.pc.Unlock1? && !r.pc.Lock2? && !r.pc.Unlock1?
    requires WakeOk(r.pc) ==> WakeOk(u.pc)
    requires (InAcquire(u.pc, l) <==> InAcquire(r.pc, l)) && (InRelease(u.pc, l) <==> InRelease(r.pc, l))
    ensures OwnStep(Go(c), r, u, l)
  {}

  lemma OwnNext(s: State, c: nat, p: Pid, chan: Chan, i: nat, a: After, l: int)
    requires p in s.procs && s.procs[p].pc == Wake0(chan, i, a)
    ensures p in DoNext(s, p, chan, i, a).procs && OwnStep(Go(c), s.procs[p], DoNext(s, p, chan, i, a).procs[p], l)
  {
    hide OwnStep;
    OwnMoves(c, s.procs[p], DoNext(s, p, chan, i, a).procs[p], l);
  }

  lemma OwnWake(s: State, c: nat, p: Pid, chan: Chan, i: nat, q: Pid, a: After, l: int)
    requires p in s.procs && q in s.procs && q != p && s.procs[p].pc == Wake1(chan, i, q, a)
    ensures p in DoWake(s, c, p, chan, i, q, a).procs
            && OwnStep(Go(c), s.procs[p], DoWake(s, c, p, chan, i, q, a).procs[p], l)
  {
    hide OwnStep;
    hide DoWake;
    WakeGoes(s, c, p, chan, i, q, a);
    OwnMoves(c, s.procs[p], DoWake(s, c, p, chan, i, q, a).procs[p], l);
  }

  lemma WakeGoes(s: State, c: nat, p: Pid, chan: Chan, i: nat, x: Pid, a: After)
    requires p in s.procs && x in s.procs && x != p
    ensures var t := DoWake(s, c, p, chan, i, x, a);
      && p in t.procs && t.procs[p].mine == s.procs[p].mine
      && (t.procs[p].pc == Push0(x, ThenWake(chan, i, a)) || t.procs[p].pc == Wake2(chan, i, x, a))
  {}

  lemma OwnFork(s: State, c: nat, p: Pid, np: Pid, l: int)
    requires p in s.procs && np in s.procs && np != p && s.procs[p].pc == Fork1(np)
    ensures p in DoFork(s, c, p, np).procs && OwnStep(Go(c), s.procs[p], DoFork(s, c, p, np).procs[p], l)
  {
    hide OwnStep;
    OwnMoves(c, s.procs[p], DoFork(s, c, p, np).procs[p], l);
  }

  lemma OwnSwitch(s: State, c: nat, p: Pid, why: Why, l: int)
    requires p in s.procs && c in s.cpus && s.procs[p].pc == Switch(why)
    ensures p in DoSwitch(s, c, p, why).procs && OwnStep(Go(c), s.procs[p], DoSwitch(s, c, p, why).procs[p], l)
  {
    hide OwnStep;
    OwnMoves(c, s.procs[p], DoSwitch(s, c, p, why).procs[p], l);
  }

  lemma OwnResume(s: State, c: nat, p: Pid, why: Why, l: int)
    requires p in s.procs && s.procs[p].pc == Resume(why)
    ensures p in DoResume(s, p, why).procs && OwnStep(Go(c), s.procs[p], DoResume(s, p, why).procs[p], l)
  {
    hide OwnStep;
    OwnMoves(c, s.procs[p], DoResume(s, p, why).procs[p], l);
  }

  lemma OwnPush(s: State, c: nat, p: Pid, q: Pid, k: Then, l: int)
    requires p in s.procs && q in s.procs && s.procs[p].pc == Push1(q, k)
    ensures p in DoPush(s, p, q, k).procs && OwnStep(Go(c), s.procs[p], DoPush(s, p, q, k).procs[p], l)
  {
    hide Push;
  }

  lemma OwnTest(s: State, c: nat, p: Pid, x: int, l: int)
    requires p in s.procs && x in s.locks && s.procs[p].pc == Lock1(x) && MineInv(s)
    ensures OwnStep(Go(c), s.procs[p], DoTest(s, p, x).procs[p], l)
  {
    assert x in s.procs[p].mine ==> s.locks[x].locked;
  }

  lemma OwnUnlock(s: State, c: nat, p: Pid, x: int, l: int)
    requires p in s.procs && s.procs[p].pc == Unlock1(x)
    ensures OwnStep(Go(c), s.procs[p], DoUnlock(s, p, x).procs[p], l)
  {}

  /** A process at Lock2 has taken the lock; behind the middle of releasesleeplock it is free. */
  ghost predicate Calm(s: State) {
    forall p, l {:trigger InSection(s.procs[p], l)} | p in s.procs ::
      (s.procs[p].pc == Lock2(l) ==> l in s.procs[p].mine) && WakeOk(s.procs[p].pc)
      && (PastUnlock(s.procs[p].pc, l) ==> l in s.locks && s.locks[l] == SleepLock(false, -1))
  }

  lemma OwnSteps(s: State, step: Step, p: Pid, l: int)
    requires Enabled(s, step) && By(s, step, p) && p in s.procs && Inv(s) && Calm(s)
    ensures p in Apply(s, step).procs && OwnStep(step, s.procs[p], Apply(s, step).procs[p], l)
  {
    hide Inv;
    hide Inside;
    hide Taken;
    hide Given;
    hide Acquire;
    hide Release;
    InvParts(s);
    assert InSection(s.procs[p], l) || !InSection(s.procs[p], l);
    if step.Go? {
      OnCpu(s, step.c, p);
      OwnGo(s, step.c, p, l);
    } else {
      OwnCalls(s, step, p, l);
    }
  }

  lemma InvParts(s: State)
    requires Inv(s)
    ensures MineInv(s) && NamesInv(s) && LocksInv(s) && PlacesInv(s)
  {}

  lemma OwnGo(s: State, c: nat, p: Pid, l: int)
    requires Executes(s, c, p) && CanStep(s, c, p) && MineInv(s) && PcOk(s.procs[p].pc, p)
    requires s.procs[p].pc == Lock2(l) ==> l in s.procs[p].mine
    ensures p in StepProc(s, c, p).procs && OwnStep(Go(c), s.procs[p], StepProc(s, c, p).procs[p], l)
  {
    hide MineInv;
    hide OwnStep;
    hide Inside;
    var pc := s.procs[p].pc;
    if Wants(s, p, pc).Some? {
      OwnTaken(s, c, p, l);
    } else if Drops(p, pc).Some? {
      OwnGiven(c, p, s.procs[p], l);
    } else {
      OwnInside(s, c, p, l);
    }
  }

  lemma OwnCalls(s: State, step: Step, p: Pid, l: int)
    requires Enabled(s, step) && By(s, step, p) && p in s.procs && !step.Go?
    ensures p in Apply(s, step).procs && OwnStep(step, s.procs[p], Apply(s, step).procs[p], l)
  {
    hide OwnStep;
    hide Acquire;
    var u := Apply(s, step).procs[p];
    CallsTo(s, step, p);
    FromRun(step, s.procs[p], u, l);
  }

  lemma CallsTo(s: State, step: Step, p: Pid)
    requires Enabled(s, step) && By(s, step, p) && p in s.procs && !step.Go?
    ensures s.procs[p].pc == Run && p in Apply(s, step).procs
    ensures Apply(s, step).procs[p] == s.procs[p].(pc :=
              match step
              case LockIt(_, l) => Lock1(l)
              case UnlockIt(_, l) => Unlock1(l)
              case CheckIt(_, l) => Check1(l)
              case Exit(_) => Exit1
              case Launch(_, np) => Fork1(np)
              case Create(_, _) => Run
              case Tick(_) => Yield0
              case _ => Yield1)
  {}

  lemma FromRun(step: Step, r: Proc, u: Proc, l: int)
    requires r.pc == Run && u.mine == r.mine && u.pc != Lock2(l)
    requires InAcquire(u.pc, l) <==> step == LockIt(step.c, l)
    requires (InRelease(u.pc, l) <==> step == UnlockIt(step.c, l)) && !PastUnlock(u.pc, l) && WakeOk(u.pc)
    ensures OwnStep(step, r, u, l)
  {}

  /** No step moves a process other than the one that makes it. */
  lemma OthersUntouched(s: State, step: Step, q: Pid)
    requires Enabled(s, step) && q in s.procs && !By(s, step, q)
    ensures Stays(s, Apply(s, step), q)
  {
    hide Inside;
    hide StepSched;
    hide Taken;
    hide Given;
    if step.Go? {
      if s.cpus[step.c].on.Some? {
        var p := s.cpus[step.c].on.value;
        if Wants(s, p, s.procs[p].pc).None? && Drops(p, s.procs[p].pc).None? {
          InsideStays(s, step.c, p, q);
        }
      } else {
        SchedStays(s, step.c, q);
      }
    }
  }

  predicate Stays(s: State, t: State, q: Pid)
    requires q in s.procs
  {
    q in t.procs && t.procs[q].pc == s.procs[q].pc && t.procs[q].mine == s.procs[q].mine
  }

  lemma InsideStays(s: State, c: nat, p: Pid, q: Pid)
    requires c in s.cpus && p in s.procs && q in s.procs && p != q && Present(s, s.procs[p].pc)
    ensures Stays(s, Inside(s, c, p), q)
  {
    hide Push;
    hide DoWake;
    hide DoFork;
    hide DoPush;
    match s.procs[p].pc
    case Wake1(chan, i, x, a) => WakeStays(s, c, p, chan, i, x, a, q);
    case Fork1(np) => ForkStays(s, c, p, np, q);
    case Push1(x, k) => PushStays(s, p, x, k, q);
    case _ =>
  }

  lemma WakeStays(s: State, c: nat, p: Pid, chan: Chan, i: nat, x: Pid, a: After, q: Pid)
    requires p in s.procs && x in s.procs && q in s.procs && p != q
    ensures Stays(s, DoWake(s, c, p, chan, i, x, a), q)
  {}

  lemma ForkStays(s: State, c: nat, p: Pid, np: Pid, q: Pid)
    requires p in s.procs && np in s.procs && q in s.procs && p != q
    ensures Stays(s, DoFork(s, c, p, np), q)
  {}

  lemma PushStays(s: State, p: Pid, x: Pid, k: Then, q: Pid)
    requires p in s.procs && x in s.procs && q in s.procs && p != q
    ensures Stays(s, DoPush(s, p, x, k), q)
  {}

  lemma SchedStays(s: State, c: nat, q: Pid)
    requires c in s.cpus && CanStepSched(s, c) && q in s.procs
    ensures Stays(s, StepSched(s, c), q)
  {
    hide DoPick;
    if s.cpus[c].spc == Pick {
      PickStays(s, c, q);
    }
  }

  lemma PickStays(s: State, c: nat, q: Pid)
    requires c in s.cpus && q in s.procs
    ensures Stays(s, DoPick(s, c), q)
  {
    hide Pop;
    hide Refreshed;
  }

  /** A sleep lock changes only in the two places of sleeplock.c. */
  predicate LockStays(s: State, t: State, pc: Pc, l: int)
    requires l in s.locks
  {
    l in t.locks && (t.locks[l] == s.locks[l] || pc == Lock1(l)
        || (pc == Unlock1(l) && t.locks[l] == SleepLock(false, -1)))
  }

  lemma LocksStay(s: State, step: Step, l: int)
    requires Enabled(s, step) && l in s.locks
    ensures LockStays(s, Apply(s, step), if s.cpus[step.c].on.Some? then s.procs[s.cpus[step.c].on.value].pc
            else Run, l)
  {
    hide Inside;
    hide StepSched;
    hide Taken;
    hide Given;
    if step.Go? {
      if s.cpus[step.c].on.Some? {
        var p := s.cpus[step.c].on.value;
        if Wants(s, p, s.procs[p].pc).None? && Drops(p, s.procs[p].pc).None? {
          InsideLocks(s, step.c, p, l);
        }
      } else {
        SchedLocks(s, step.c);
      }
    }
  }

  lemma InsideLocks(s: State, c: nat, p: Pid, l: int)
    requires c in s.cpus && p in s.procs && Present(s, s.procs[p].pc) && l in s.locks
    ensures LockStays(s, Inside(s, c, p), s.procs[p].pc, l)
  {
    hide Push;
  }

  lemma SchedLocks(s: State, c: nat)
    requires c in s.cpus && CanStepSched(s, c)
    ensures StepSched(s, c).locks == s.locks
  {
    hide DoPick;
    if s.cpus[c].spc == Pick {
      PickLocks(s, c);
    }
  }

  lemma PickLocks(s: State, c: nat)
    requires c in s.cpus
    ensures DoPick(s, c).locks == s.locks
  {
    hide Pop;
    hide Refreshed;
  }

  lemma CalmStep(s: State, step: Step)
    requires Enabled(s, step) && Inv(s) && Calm(s)
    ensures Calm(Apply(s, step))
  {
    hide Inv;
    hide Apply;
    hide Enabled;
    hide PastUnlock;
    hide InSection;
    hide Calm;
    var t := Apply(s, step);
    forall p, l | p in t.procs ensures CalmAt(t, p, l) {
      if p !in s.procs {
        NewIs(s, step, p, l);
      } else {
        CalmIs(s, p, l);
        if By(s, step, p) {
          OwnSteps(s, step, p, l);
          OwnCalm(s, step, p, l);
        } else {
          OthersUntouched(s, step, p);
          OtherCalm(s, step, p, l);
        }
      }
    }
    AllCalm(t);
  }

  ghost predicate CalmAt(s: State, p: Pid, l: int) {
    p in s.procs && (s.procs[p].pc == Lock2(l) ==> l in s.procs[p].mine) && WakeOk(s.procs[p].pc)
    && (PastUnlock(s.procs[p].pc, l) ==> l in s.locks && s.locks[l] == SleepLock(false, -1))
  }

  lemma AllCalm(s: State)
    requires forall p, l | p in s.procs :: CalmAt(s, p, l)
    ensures Calm(s)
  {
    hide PastUnlock;
    hide InSection;
    forall p, l | p in s.procs ensures (s.procs[p].pc == Lock2(l) ==> l in s.procs[p].mine) && WakeOk(s.procs[p].pc)
        && (PastUnlock(s.procs[p].pc, l) ==> l in s.locks && s.locks[l] == SleepLock(false, -1))
    {
      assert CalmAt(s, p, l);
    }
  }

  lemma CalmIs(s: State, p: Pid, l: int)
    requires Calm(s) && p in s.procs
    ensures CalmAt(s, p, l)
  {
    assert InSection(s.procs[p], l) || !InSection(s.procs[p], l);
  }

  lemma NewIs(s: State, step: Step, p: Pid, l: int)
    requires Enabled(s, step) && p in Apply(s, step).procs && p !in s.procs
    ensures CalmAt(Apply(s, step), p, l) && !InSection(Apply(s, step).procs[p], l)
    ensures !InAcquire(Apply(s, step).procs[p].pc, l) && !InRelease(Apply(s, step).procs[p].pc, l)
  {
    hide Apply;
    if !step.Create? {
      KeysStay(s, step);
    } else {
      NewProcIs(s, step);
    }
  }

  lemma NewProcIs(s: State, step: Step)
    requires Enabled(s, step) && step.Create?
    ensures Apply(s, step).procs == s.procs[step.np := NewProc(s.cpus[step.c].on.value)]
  {}

  lemma KeysStay(s: State, step: Step)
    requires Enabled(s, step) && !step.Create?
    ensures Apply(s, step).procs.Keys == s.procs.Keys
  {
    hide Inside;
    hide StepSched;
    hide Taken;
    hide Given;
    if step.Go? {
      if s.cpus[step.c].on.Some? {
        var p := s.cpus[step.c].on.value;
        if Wants(s, p, s.procs[p].pc).None? && Drops(p, s.procs[p].pc).None? {
          InsideKeys(s, step.c, p);
        }
      } else {
        SchedKeys(s, step.c);
      }
    }
  }

  lemma InsideKeys(s: State, c: nat, p: Pid)
    requires c in s.cpus && p in s.procs && Present(s, s.procs[p].pc)
    ensures Inside(s, c, p).procs.Keys == s.procs.Keys
  {
    hide Push;
    hide DoWake;
    hide DoFork;
    hide DoPush;
    match s.procs[p].pc
    case Wake1(chan, i, q, a) => WakeKeys(s, c, p, chan, i, q, a);
    case Fork1(np) => ForkKeys(s, c, p, np);
    case Push1(q, k) => PushKeys(s, p, q, k);
    case _ =>
  }

  lemma WakeKeys(s: State, c: nat, p: Pid, chan: Chan, i: nat, q: Pid, a: After)
    requires p in s.procs && q in s.procs
    ensures DoWake(s, c, p, chan, i, q, a).procs.Keys == s.procs.Keys
  {}

  lemma ForkKeys(s: State, c: nat, p: Pid, np: Pid)
    requires p in s.procs && np in s.procs
    ensures DoFork(s, c, p, np).procs.Keys == s.procs.Keys
  {}

  lemma PushKeys(s: State, p: Pid, q: Pid, k: Then)
    requires p in s.procs && q in s.procs
    ensures DoPush(s, p, q, k).procs.Keys == s.procs.Keys
  {}

  lemma SchedKeys(s: State, c: nat)
    requires c in s.cpus && CanStepSched(s, c)
    ensures StepSched(s, c).procs.Keys == s.procs.Keys
  {
    hide Pop;
    hide Refreshed;
    hide DoPick;
    if s.cpus[c].spc == Pick {
      PickKeys(s, c);
    }
  }

  lemma PickKeys(s: State, c: nat)
    requires c in s.cpus
    ensures DoPick(s, c).procs.Keys == s.procs.Keys
  {
    hide Pop;
    hide Refreshed;
  }

  lemma OwnCalm(s: State, step: Step, p: Pid, l: int)
    requires Enabled(s, step) && By(s, step, p) && CalmAt(s, p, l) && p in Apply(s, step).procs
    requires OwnStep(step, s.procs[p], Apply(s, step).procs[p], l)
    ensures CalmAt(Apply(s, step), p, l)
  {
    hide Apply;
    hide InSection;
    hide InAcquire;
    hide PastUnlock;
    var r, u := s.procs[p], Apply(s, step).procs[p];
    if PastUnlock(u.pc, l) {
      if !step.Go? {
        CallsTo(s, step, p);
        NotPast(u.pc, l);
      } else if PastUnlock(r.pc, l) {
        NotPast(r.pc, l);
        LocksStay(s, step, l);
      } else {
        UnlockFrees(s, step.c, p, l);
      }
    }
  }

  lemma NotPast(pc: Pc, l: int)
    ensures PastUnlock(pc, l) ==> !pc.Lock1? && !pc.Unlock1? && !pc.Run? && !pc.Yield0? && !pc.Yield1? && !pc.Exit1?
    ensures PastUnlock(pc, l) ==> !pc.Check1? && !pc.Fork1? && !pc.Resume? && forall p :: Holds(pc, p, LockOf(l))
  {}

  /** releasesleeplock frees the lock. */
  lemma UnlockFrees(s: State, c: nat, p: Pid, l: int)
    requires Enabled(s, Go(c)) && Executes(s, c, p) && s.procs[p].pc == Unlock1(l)
    ensures l in Apply(s, Go(c)).locks && Apply(s, Go(c)).locks[l] == SleepLock(false, -1)
  {}

  lemma OtherCalm(s: State, step: Step, p: Pid, l: int)
    requires Enabled(s, step) && p in s.procs && !By(s, step, p) && CalmAt(s, p, l) && Inv(s)
    requires Stays(s, Apply(s, step), p)
    ensures CalmAt(Apply(s, step), p, l)
  {
    hide Inv;
    hide Apply;
    hide PastUnlock;
    if PastUnlock(s.procs[p].pc, l) {
      NotPast(s.procs[p].pc, l);
      LocksStay(s, step, l);
      if s.cpus[step.c].on.Some? && s.procs[s.cpus[step.c].on.value].pc == Lock1(l) {
        InvParts(s);
        OtherHolds(s, step.c, s.cpus[step.c].on.value, p, l);
      }
    }
  }

  lemma OtherHolds(s: State, c: nat, q: Pid, p: Pid, l: int)
    requires LocksInv(s) && PlacesInv(s) && Executes(s, c, q) && s.procs[q].pc == Lock1(l)
    requires p in s.procs && !s.procs[p].pc.Resume? && Holds(s.procs[p].pc, p, LockOf(l))
    ensures p == q
  {
    hide LocksInv;
    assert s.procs[p].cpu.Some?;
    var d := s.procs[p].cpu.value;
    assert s.cpus[d].on == Some(p);
    OneHolds(s, c, d, LockOf(l));
  }

  // ----- Whole runs

  lemma {:induction false} CalmRun(states: seq<State>, steps: seq<Step>, i: nat)
    requires IsRun(states, steps) && Init(states[0]) && i <= |steps|
    ensures Inv(states[i]) && Calm(states[i])
  {
    hide Inv;
    hide Enabled;
    hide Apply;
    RunInv(states, steps, i);
    if i > 0 {
      CalmRun(states, steps, i - 1);
      assert Enabled(states[i - 1], steps[i - 1]);
      CalmStep(states[i - 1], steps[i - 1]);
    } else {
      CalmInit(states[0]);
    }
  }

  lemma CalmInit(s: State)
    requires Init(s)
    ensures Calm(s)
  {
    hide InSection;
    forall p, l | p in s.procs ensures CalmAt(s, p, l) {}
    AllCalm(s);
  }

  /** What the run tells of a process, its state tells too. */
  ghost predicate Told(states: seq<State>, steps: seq<Step>, p: Pid, l: int, i: nat)
    requires i <= |steps| < |states|
  {
    var a, r, h := Acquiring(states, steps, p, l, i), Releasing(states, steps, p, l, i),
        Holding(states, steps, p, l, i);
    if p in states[i].procs then
      (a <==> InAcquire(states[i].procs[p].pc, l)) && (r <==> InRelease(states[i].procs[p].pc, l))
      && (h <==> InSection(states[i].procs[p], l))
    else !a && !r && !h
  }

  lemma {:induction false} ToldRun(states: seq<State>, steps: seq<Step>, p: Pid, l: int, i: nat)
    requires IsRun(states, steps) && Init(states[0]) && i <= |steps|
    ensures Told(states, steps, p, l, i)
  {
    hide Inv;
    hide Enabled;
    hide Apply;
    hide Calm;
    hide InAcquire;
    hide InRelease;
    hide InSection;
    if i == 0 {
      ToldInit(states[0], p, l);
    } else {
      var s, step := states[i - 1], steps[i - 1];
      ToldRun(states, steps, p, l, i - 1);
      CalmRun(states, steps, i - 1);
      assert Enabled(s, step);
      ByWhom(s, step, p);
      if p in s.procs {
        if By(s, step, p) {
          OwnSteps(s, step, p, l);
        } else {
          OthersUntouched(s, step, p);
          OtherStays(s.procs[p], Apply(s, step).procs[p], l);
        }
      } else if p in Apply(s, step).procs {
        NewIs(s, step, p, l);
      }
    }
  }

  lemma ByWhom(s: State, step: Step, p: Pid)
    requires Inv(s)
    ensures By(s, step, p) ==> p in s.procs
  {
    hide LocksInv;
    hide MineInv;
    hide SleepInv;
  }

  lemma ToldInit(s: State, p: Pid, l: int)
    requires Init(s)
    ensures p in s.procs ==>
              !InAcquire(s.procs[p].pc, l) && !InRelease(s.procs[p].pc, l) && !InSection(s.procs[p], l)
  {}

  lemma OtherStays(r: Proc, u: Proc, l: int)
    requires u.pc == r.pc && u.mine == r.mine
    ensures InAcquire(u.pc, l) == InAcquire(r.pc, l) && InRelease(u.pc, l) == InRelease(r.pc, l)
    ensures InSection(u, l) == InSection(r, l) && (InAcquire(r.pc, l) || InRelease(r.pc, l) ==> r.pc != Run)
  {}

  /** Between the return of acquiresleeplock and the call of releasesleeplock the lock names its holder, and no
      other process is there. */
  lemma MutualExclusion(states: seq<State>, steps: seq<Step>, l: int, p: Pid, q: Pid, i: nat)
    requires IsRun(states, steps) && Init(states[0]) && i <= |steps|
    requires Holding(states, steps, p, l, i)
    ensures l in states[i].locks && states[i].locks[l] == SleepLock(true, p)
    ensures Holding(states, steps, q, l, i) ==> p == q
  {
    hide Inv;
    hide Enabled;
    hide Apply;
    hide Init;
    hide Acquiring;
    hide Releasing;
    hide Holding;
    ToldRun(states, steps, p, l, i);
    ToldRun(states, steps, q, l, i);
    CalmRun(states, steps, i);
    InvParts(states[i]);
    MineNames(states[i], p, l);
    if Holding(states, steps, q, l, i) {
      MineNames(states[i], q, l);
    }
  }

  lemma MineNames(s: State, p: Pid, l: int)
    requires MineInv(s) && p in s.procs && l in s.procs[p].mine
    ensures l in s.locks && s.locks[l] == SleepLock(true, p)
  {}

  /** A call of releasesleeplock that has returned leaves the lock free. */
  lemma ReleaseFrees(states: seq<State>, steps: seq<Step>, l: int, p: Pid, i: nat)
    requires IsRun(states, steps) && Init(states[0]) && 0 < i <= |steps|
    requires Releasing(states, steps, p, l, i - 1) && !Releasing(states, steps, p, l, i)
    ensures Outside(states[i], p) && l in states[i].locks && states[i].locks[l] == SleepLock(false, -1)
  {
    hide Inv;
    hide Init;
    hide Enabled;
    hide Apply;
    hide InAcquire;
    hide InSection;
    var s, step := states[i - 1], steps[i - 1];
    ToldRun(states, steps, p, l, i - 1);
    CalmRun(states, steps, i - 1);
    assert Enabled(s, step) && states[i] == Apply(s, step);
    CalmIs(s, p, l);
    if By(s, step, p) {
      ReleaseEnds(s, step, p, l);
    } else {
      OthersUntouched(s, step, p);
    }
  }

  lemma ReleaseEnds(s: State, step: Step, p: Pid, l: int)
    requires Enabled(s, step) && Executes(s, step.c, p) && CalmAt(s, p, l) && InRelease(s.procs[p].pc, l)
    requires Outside(Apply(s, step), p)
    ensures l in Apply(s, step).locks && Apply(s, step).locks[l] == SleepLock(false, -1)
  {
    hide Apply;
    hide Enabled;
    hide PastUnlock;
    NotPast(s.procs[p].pc, l);
    if PastUnlock(s.procs[p].pc, l) {
      LocksStay(s, step, l);
    } else {
      GoesOn(s, step, p);
      UnlockFrees(s, step.c, p, l);
    }
  }

  lemma GoesOn(s: State, step: Step, p: Pid)
    requires Enabled(s, step) && Executes(s, step.c, p) && s.procs[p].pc != Run
    ensures step == Go(step.c)
  {}

  /** A process at large may call releasesleeplock for just the locks that it holds; and whom a lock names, it
      either holds the lock or is at the end of one call or the beginning of the other. */
  lemma HoldersNamed(states: seq<State>, steps: seq<Step>, l: int, p: Pid, i: nat)
    requires IsRun(states, steps) && Init(states[0]) && i <= |steps| && p in states[i].procs
    ensures Outside(states[i], p) ==> (l in states[i].procs[p].mine <==> Holding(states, steps, p, l, i))
    ensures l in states[i].locks && states[i].locks[l] == SleepLock(true, p) ==>
              Holding(states, steps, p, l, i) || Acquiring(states, steps, p, l, i) || Releasing(states, steps, p, l, i)
  {
    hide Inv;
    hide Enabled;
    hide Apply;
    hide Init;
    hide Acquiring;
    hide Releasing;
    hide Holding;
    ToldRun(states, steps, p, l, i);
    CalmRun(states, steps, i);
    InvParts(states[i]);
    if l in states[i].locks {
      HoldingTells(states[i], p, l);
    }
  }
}
