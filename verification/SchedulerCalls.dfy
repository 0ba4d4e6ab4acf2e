/** What calls have brought about when they return, and whom a CPU turns to, over whole runs. */
module SchedulerCalls {
  import opened Wrappers
  import opened RunQueues
  import opened Scheduler
  import opened SchedulerLocks
  import opened SchedulerClaims
  import opened SchedulerFair
  import opened SchedulerSleep
  import opened SchedulerRuns
  import opened SchedulerHolding

  // ----- releasesleeplock wakes all who sleep on the lock

  ghost predicate SleepsOn(r: Proc, l: int) {
    r.status == Sleeping && r.chan == Some(LockChan(l))
  }

  lemma SleeperCommitted(s: State, q: Pid, l: int)
    requires ClaimsInv(s) && q in s.procs && SleepsOn(s.procs[q], l)
    ensures Committed(s.procs[q], l)
  {
    hide Claims;
    hide References;
    ProcIs(s, q);
  }

  lemma NoneCommitted(s: State, c: nat, p: Pid, l: int)
    requires Inv(s) && Executes(s, c, p) && s.procs[p].pc == Unlock2(l) && l in s.locks && !s.locks[l].locked
    ensures forall q | q in s.procs :: !SleepsOn(s.procs[q], l)
  {
    hide ClaimsInv;
    hide FairInv;
    hide PlacesInv;
    hide MineInv;
    hide SleepsOn;
    hide Committed;
    assert HoldsC(s, c, LockOf(l));
    forall q | q in s.procs ensures !SleepsOn(s.procs[q], l) {
      if SleepsOn(s.procs[q], l) {
        SleeperCommitted(s, q, l);
        NoLostWakeup(s, q, l);
      }
    }
  }

  /** When releasesleeplock returns, nobody sleeps on the lock. */
  lemma ReleaseWakes(states: seq<State>, steps: seq<Step>, l: int, p: Pid, q: Pid, i: nat)
    requires IsRun(states, steps) && Init(states[0]) && 0 < i <= |steps|
    requires Releasing(states, steps, p, l, i - 1) && !Releasing(states, steps, p, l, i)
    ensures q in states[i].procs ==> !SleepsOn(states[i].procs[q], l)
  {
    hide Inv;
    hide Init;
    hide Enabled;
    hide Apply;
    hide InAcquire;
    hide InSection;
    var s, step := states[i - 1], steps[i - 1];
    ToldRun(states, steps, p, l, i - 1);
    CalmRun(states, steps, i - 1);
    assert Enabled(s, step) && states[i] == Apply(s, step);
    CalmIs(s, p, l);
    if By(s, step, p) {
      OnCpu(s, step.c, p);
      LastOfRelease(s, step, p, l);
      NoneCommitted(s, step.c, p, l);
      JustDrops(s, step.c, p);
    } else {
      OthersUntouched(s, step, p);
    }
  }

  lemma LastOfRelease(s: State, step: Step, p: Pid, l: int)
    requires Enabled(s, step) && Executes(s, step.c, p) && InRelease(s.procs[p].pc, l) && Outside(Apply(s, step), p)
    requires PcOk(s.procs[p].pc, p)
    ensures step == Go(step.c) && s.procs[p].pc == Unlock2(l)
  {}

  lemma JustDrops(s: State, c: nat, p: Pid)
    requires Enabled(s, Go(c)) && Executes(s, c, p) && s.procs[p].pc.Unlock2?
    ensures Apply(s, Go(c)).procs == s.procs[p := s.procs[p].(pc := Run)]
  {}

  // ----- Whom a CPU turns to

  /** The CPU takes the first process off the queue in this step. */
  predicate Takes(s: State, step: Step, c: nat) {
    step == Go(c) && c in s.cpus && s.cpus[c].on == None && s.cpus[c].spc == Pick && s.rq.order != []
  }

  /** The process that stood first in the queue when the CPU last took one off. */
  function LastTaken(states: seq<State>, steps: seq<Step>, c: nat, i: nat): Option<Pid>
    requires i <= |steps| < |states|
  {
    if i == 0 then None
    else if Takes(states[i - 1], steps[i - 1], c) then Some(states[i - 1].rq.order[0])
    else LastTaken(states, steps, c, i - 1)
  }

  /** The process that the loop of CPU `c` is about to start. */
  function Chosen(s: State, c: nat): Option<Pid> {
    if c in s.cpus && s.cpus[c].on == None then Picks(s.cpus[c].spc) else None
  }

  lemma OtherCpus(s: State, step: Step, c: nat)
    requires Enabled(s, step) && step.c != c
    ensures c in s.cpus <==> c in Apply(s, step).cpus
    ensures c in s.cpus ==> Apply(s, step).cpus[c] == s.cpus[c]
  {
    hide Inside;
    hide StepSched;
    hide Taken;
    hide Given;
    if step.Go? {
      if s.cpus[step.c].on.Some? {
        var p := s.cpus[step.c].on.value;
        if Wants(s, p, s.procs[p].pc).None? && Drops(p, s.procs[p].pc).None? {
          InsideCpus(s, step.c, p);
        }
      } else {
        SchedCpus(s, step.c, c);
      }
    }
  }

  lemma InsideCpus(s: State, c: nat, p: Pid)
    requires c in s.cpus && p in s.procs && Present(s, s.procs[p].pc)
    ensures var t := Inside(s, c, p); t.cpus == s.cpus || t.cpus == s.cpus[c := s.cpus[c].(on := None)]
  {
    hide Push;
    hide DoWake;
    hide DoFork;
    hide DoPush;
    match s.procs[p].pc
    case Wake1(chan, i, q, a) => WakeCpus(s, c, p, chan, i, q, a);
    case Fork1(np) => ForkCpus(s, c, p, np);
    case Push1(q, k) => PushCpus(s, p, q, k);
    case _ =>
  }

  lemma WakeCpus(s: State, c: nat, p: Pid, chan: Chan, i: nat, q: Pid, a: After)
    requires p in s.procs && q in s.procs
    ensures DoWake(s, c, p, chan, i, q, a).cpus == s.cpus
  {}

  lemma ForkCpus(s: State, c: nat, p: Pid, np: Pid)
    requires p in s.procs && np in s.procs
    ensures DoFork(s, c, p, np).cpus == s.cpus
  {}

  lemma PushCpus(s: State, p: Pid, q: Pid, k: Then)
    requires p in s.procs && q in s.procs
    ensures DoPush(s, p, q, k).cpus == s.cpus
  {}

  lemma SchedCpus(s: State, c: nat, d: nat)
    requires c in s.cpus && CanStepSched(s, c) && d != c
    ensures d in s.cpus <==> d in StepSched(s, c).cpus
    ensures d in s.cpus ==> StepSched(s, c).cpus[d] == s.cpus[d]
  {
    hide DoPick;
    if s.cpus[c].spc == Pick {
      PickCpus(s, c);
    }
  }

  lemma PickCpus(s: State, c: nat)
    requires c in s.cpus
    ensures DoPick(s, c).cpus.Keys == s.cpus.Keys && DoPick(s, c).cpus[c] == s.cpus[c].(spc := DoPick(s, c).cpus[c].spc)
    ensures forall d | d in s.cpus && d != c :: DoPick(s, c).cpus[d] == s.cpus[d]
  {
    hide Refreshed;
    hide Pop;
  }

  lemma ChosenStep(s: State, step: Step, c: nat)
    requires Enabled(s, step) && Inv(s)
    ensures Chosen(Apply(s, step), c).Some? ==>
              Chosen(Apply(s, step), c) == if Takes(s, step, c) then Some(s.rq.order[0]) else Chosen(s, c)
  {
    hide Inv;
    hide Apply;
    if step.c != c {
      OtherCpus(s, step, c);
    } else if s.cpus[c].on == None {
      SchedChosen(s, c);
    } else {
      NoneChosen(s, step, c);
    }
  }

  lemma NoneChosen(s: State, step: Step, c: nat)
    requires Enabled(s, step) && Inv(s) && step.c == c && s.cpus[c].on.Some?
    ensures Chosen(Apply(s, step), c) == None
  {
    hide Inv;
    hide Inside;
    hide Taken;
    hide Given;
    BackThere(s, c);
    var p := s.cpus[c].on.value;
    if step.Go? && Wants(s, p, s.procs[p].pc).None? && Drops(p, s.procs[p].pc).None? {
      InsideCpus(s, c, p);
    }
  }

  lemma BackThere(s: State, c: nat)
    requires Inv(s) && c in s.cpus && s.cpus[c].on.Some?
    ensures s.cpus[c].spc.Back?
  {
    hide LocksInv;
    hide ClaimsInv;
    hide FairInv;
    hide MineInv;
    hide SleepInv;
  }

  lemma SchedChosen(s: State, c: nat)
    requires Enabled(s, Go(c)) && Inv(s) && s.cpus[c].on == None
    ensures var t := Apply(s, Go(c));
      && Chosen(t, c) == (if Takes(s, Go(c), c) then Some(s.rq.order[0])
                          else if s.cpus[c].spc.Start? || s.cpus[c].spc == Pick then None else Chosen(s, c))
      && (Takes(s, Go(c), c) ==> t.rq.order == s.rq.order[1..])
  {
    hide LocksInv;
    hide PlacesInv;
    hide FairInv;
    hide MineInv;
    hide SleepInv;
    hide ClaimsInv;
    hide VOf;
    if s.rq.order != [] {
      NothingDiscarded(s);
    }
  }

  /** The process that is taken has the least virtual runtime of all that wait, and of those that tie the
      least pid. */
  lemma TakesLeast(s: State, step: Step, c: nat, q: Pid)
    requires Inv(s) && Takes(s, step, c) && q in s.rq.order
    ensures var p := s.rq.order[0];
      VOf(s.rq.v, p) < VOf(s.rq.v, q) || (VOf(s.rq.v, p) == VOf(s.rq.v, q) && p <= q)
  {
    hide LocksInv;
    hide PlacesInv;
    hide ClaimsInv;
    hide MineInv;
    hide SleepInv;
    hide Fair;
    FrontFirst(s.rq, q);
  }

  /** A CPU turns to the process that it took off the queue last. */
  lemma {:induction false} ChosenIsTaken(states: seq<State>, steps: seq<Step>, c: nat, i: nat)
    requires IsRun(states, steps) && Init(states[0]) && i <= |steps|
    ensures Chosen(states[i], c).Some? ==> Chosen(states[i], c) == LastTaken(states, steps, c, i)
  {
    hide Inv;
    hide Enabled;
    hide Apply;
    hide Chosen;
    hide Takes;
    if i == 0 {
      ChosenAtStart(states[0], c);
    } else {
      ChosenIsTaken(states, steps, c, i - 1);
      RunInv(states, steps, i - 1);
      assert Enabled(states[i - 1], steps[i - 1]);
      ChosenStep(states[i - 1], steps[i - 1], c);
    }
  }

  lemma ChosenAtStart(s: State, c: nat)
    requires Init(s)
    ensures Chosen(s, c) == None
  {}

  lemma DispatchesTaken(states: seq<State>, steps: seq<Step>, c: nat, p: Pid, i: nat)
    requires IsRun(states, steps) && Init(states[0]) && i < |steps|
    requires c in states[i].cpus && states[i].cpus[c].on == None && Executes(states[i + 1], c, p)
    ensures LastTaken(states, steps, c, i) == Some(p)
    ensures states[i + 1].procs[p].status == Running && states[i + 1].cpus[c].proc == Some(p)
  {
    hide Inv;
    hide Enabled;
    hide Apply;
    hide Chosen;
    hide Takes;
    ChosenIsTaken(states, steps, c, i);
    RunInv(states, steps, i);
    var s, step := states[i], steps[i];
    assert Enabled(s, step) && states[i + 1] == Apply(s, step);
    if step.c == c {
      OnlyStart(s, c, p, step);
    } else {
      OtherCpus(s, step, c);
    }
  }

  lemma OnlyStart(s: State, c: nat, p: Pid, step: Step)
    requires Enabled(s, step) && step.c == c && Inv(s) && s.cpus[c].on == None && Executes(Apply(s, step), c, p)
    ensures Chosen(s, c) == Some(p) && Apply(s, step).procs[p].status == Running
            && Apply(s, step).cpus[c].proc == Some(p)
  {
    hide Inv;
    hide DoPick;
    if s.cpus[c].spc == Pick {
      PickCpus(s, c);
    }
  }

  // ----- fork

  /** `p` is within the part of fork that holds the lock of the child. */
  predicate Launching(states: seq<State>, steps: seq<Step>, p: Pid, np: Pid, i: nat)
    requires i <= |steps| < |states|
  {
    i > 0 && ((By(states[i - 1], steps[i - 1], p) && steps[i - 1].Launch? && steps[i - 1].np == np)
              || (Launching(states, steps, p, np, i - 1) && !Outside(states[i], p)))
  }

  /** The child may be queued. */
  predicate PastFork(pc: Pc, np: Pid) {
    match pc
    case Push0(q, k) => q == np && k == ThenForked
    case Push1(q, k) => q == np && k == ThenForked
    case Push2(q, k) => q == np && k == ThenForked
    case Fork2(q) => q == np
    case _ => false
  }

  predicate InFork(pc: Pc, np: Pid) {
    pc == Fork1(np) || PastFork(pc, np)
  }

  /** RUNNABLE, and executed by nobody. */
  predicate Waiting(s: State, q: Pid, parent: Option<Pid>) {
    q in s.procs && s.procs[q].status == Runnable && s.procs[q].cpu == None && s.procs[q].parent == parent
  }

  predicate StartsOf(s: State, step: Step, q: Pid) {
    step.Go? && step.c in s.cpus && s.cpus[step.c].on == None && s.cpus[step.c].spc == Start(q)
  }

  /** A RUNNABLE process that nobody executes stays so until a CPU starts it. */
  lemma StaysWaiting(s: State, step: Step, q: Pid, parent: Option<Pid>)
    requires Enabled(s, step) && Inv(s) && Waiting(s, q, parent) && !StartsOf(s, step, q)
    ensures Waiting(Apply(s, step), q, parent)
  {
    hide Inv;
    hide Inside;
    hide StepSched;
    hide Taken;
    hide Given;
    if step.c in s.cpus && s.cpus[step.c].on.Some? {
      var p := s.cpus[step.c].on.value;
      ByWhom(s, step, p);
      OnCpu(s, step.c, p);
      if step.Go? && Wants(s, p, s.procs[p].pc).None? && Drops(p, s.procs[p].pc).None? {
        InsideWaits(s, step.c, p, q, parent);
      }
    } else if step.Go? {
      SchedWaits(s, step.c, q, parent);
    }
  }

  lemma InsideWaits(s: State, c: nat, p: Pid, q: Pid, parent: Option<Pid>)
    requires c in s.cpus && p in s.procs && p != q && Present(s, s.procs[p].pc) && Refers(s, p, s.procs[p].pc)
    requires Waiting(s, q, parent)
    ensures Waiting(Inside(s, c, p), q, parent)
  {
    hide Push;
    hide DoWake;
    hide DoFork;
    hide DoPush;
    match s.procs[p].pc
    case Wake1(chan, i, x, a) => WakeWaits(s, c, p, chan, i, x, a, q, parent);
    case Fork1(np) => ForkWaits(s, c, p, np, q, parent);
    case Push1(x, k) => PushWaits(s, p, x, k, q, parent);
    case _ =>
  }

  lemma WakeWaits(s: State, c: nat, p: Pid, chan: Chan, i: nat, x: Pid, a: After, q: Pid, parent: Option<Pid>)
    requires p in s.procs && x in s.procs && p != q && Waiting(s, q, parent)
    ensures Waiting(DoWake(s, c, p, chan, i, x, a), q, parent)
  {}

  lemma ForkWaits(s: State, c: nat, p: Pid, np: Pid, q: Pid, parent: Option<Pid>)
    requires p in s.procs && np in s.procs && s.procs[np].status == Initial && p != q && Waiting(s, q, parent)
    ensures Waiting(DoFork(s, c, p, np), q, parent)
  {}

  lemma PushWaits(s: State, p: Pid, x: Pid, k: Then, q: Pid, parent: Option<Pid>)
    requires p in s.procs && x in s.procs && p != q && Waiting(s, q, parent)
    ensures Waiting(DoPush(s, p, x, k), q, parent)
  {}

  lemma SchedWaits(s: State, c: nat, q: Pid, parent: Option<Pid>)
    requires c in s.cpus && CanStepSched(s, c) && s.cpus[c].spc != Start(q) && Waiting(s, q, parent)
    ensures Waiting(StepSched(s, c), q, parent)
  {
    hide DoPick;
    if s.cpus[c].spc == Pick {
      PickWaits(s, c, q, parent);
    }
  }

  lemma PickWaits(s: State, c: nat, q: Pid, parent: Option<Pid>)
    requires c in s.cpus && Waiting(s, q, parent)
    ensures Waiting(DoPick(s, c), q, parent)
  {
    hide Refreshed;
    hide Pop;
  }

  // The own steps of a process in fork

  predicate ForkStep(step: Step, r: Proc, u: Proc, np: Pid) {
    InFork(u.pc, np) <==> step == Launch(step.c, np) || (InFork(r.pc, np) && u.pc != Run)
  }

  lemma ForkSteps(s: State, step: Step, p: Pid, np: Pid)
    requires Enabled(s, step) && Executes(s, step.c, p) && Inv(s) && p in Apply(s, step).procs
    ensures ForkStep(step, s.procs[p], Apply(s, step).procs[p], np)
  {
    hide Inv;
    hide Inside;
    hide Taken;
    hide Given;
    if step.Go? {
      var pc := s.procs[p].pc;
      if Wants(s, p, pc).Some? {
        ForkTaken(s, p, pc, np);
      } else if Drops(p, pc).Some? {
        ForkGiven(p, pc, np);
      } else {
        OnCpu(s, step.c, p);
        ForkInside(s, step.c, p, np);
      }
    } else {
      CallsTo(s, step, p);
    }
  }

  lemma ForkTaken(s: State, p: Pid, pc: Pc, np: Pid)
    requires Wants(s, p, pc).Some?
    ensures InFork(Taken(s, p, pc), np) == InFork(pc, np) && Taken(s, p, pc) != Run
  {}

  lemma ForkGiven(p: Pid, pc: Pc, np: Pid)
    requires Drops(p, pc).Some?
    ensures InFork(Given(p, pc), np) <==> InFork(pc, np) && Given(p, pc) != Run
  {}

  lemma ForkInside(s: State, c: nat, p: Pid, np: Pid)
    requires Executes(s, c, p) && Present(s, s.procs[p].pc) && PcOk(s.procs[p].pc, p) && s.procs[p].pc != Run
    requires Wants(s, p, s.procs[p].pc).None? && Drops(p, s.procs[p].pc).None? && p in Inside(s, c, p).procs
    ensures ForkStep(Go(c), s.procs[p], Inside(s, c, p).procs[p], np)
  {
    hide Push;
    hide DoWake;
    hide DoFork;
    hide DoPush;
    hide DoTest;
    hide DoUnlock;
    hide DoSwitch;
    hide DoResume;
    hide DoNext;
    hide DoYield;
    match s.procs[p].pc
    case Wake1(chan, i, x, a) => WakeGoes(s, c, p, chan, i, x, a);
    case Fork1(x) => ForkGoes(s, c, p, x);
    case Push1(x, k) => PushGoes(s, p, x, k);
    case _ => OthersGo(s, c, p);
  }

  /** Not in fork, and not about to be. */
  predicate Elsewhere(pc: Pc) {
    !pc.Fork1? && !pc.Fork2? && !pc.Push1? && !pc.Push2? && (pc.Push0? ==> pc.k.ThenSwitch?)
  }

  lemma OthersGo(s: State, c: nat, p: Pid)
    requires Executes(s, c, p) && Present(s, s.procs[p].pc) && p in Inside(s, c, p).procs
    requires Wants(s, p, s.procs[p].pc).None? && Drops(p, s.procs[p].pc).None?
    requires !s.procs[p].pc.Wake1? && !s.procs[p].pc.Fork1? && !s.procs[p].pc.Push1? && s.procs[p].pc != Run
    ensures Elsewhere(Inside(s, c, p).procs[p].pc)
  {
    hide DoTest;
    hide DoUnlock;
    hide DoSwitch;
    hide DoResume;
    hide DoNext;
    hide DoYield;
    hide DoSleep;
    hide DoExit;
    hide Elsewhere;
    match s.procs[p].pc
    case Yield1 => YieldGoes(s, c, p);
    case Lock1(l) => LockGoes(s, p, l);
    case Sleep2(l) => LockGoes(s, p, l);
    case Unlock1(l) => LockGoes(s, p, l);
    case Wake0(chan, i, a) => NextGoes(s, p, chan, i, a);
    case Exit1 => YieldGoes(s, c, p);
    case Switch(why) => SwitchGoes(s, c, p, why);
    case Resume(why) => SwitchGoes(s, c, p, why);
  }

  lemma YieldGoes(s: State, c: nat, p: Pid)
    requires p in s.procs
    ensures p in DoYield(s, c, p).procs && Elsewhere(DoYield(s, c, p).procs[p].pc)
    ensures p in DoExit(s, p).procs && Elsewhere(DoExit(s, p).procs[p].pc)
  {}

  lemma LockGoes(s: State, p: Pid, l: int)
    requires p in s.procs
    ensures l in s.locks ==> p in DoTest(s, p, l).procs && Elsewhere(DoTest(s, p, l).procs[p].pc)
    ensures p in DoSleep(s, p, l).procs && Elsewhere(DoSleep(s, p, l).procs[p].pc)
    ensures p in DoUnlock(s, p, l).procs && Elsewhere(DoUnlock(s, p, l).procs[p].pc)
  {}

  lemma NextGoes(s: State, p: Pid, chan: Chan, i: nat, a: After)
    requires p in s.procs
    ensures p in DoNext(s, p, chan, i, a).procs && Elsewhere(DoNext(s, p, chan, i, a).procs[p].pc)
  {}

  lemma SwitchGoes(s: State, c: nat, p: Pid, why: Why)
    requires p in s.procs && c in s.cpus && (s.procs[p].pc == Switch(why) || s.procs[p].pc == Resume(why))
    ensures p in DoSwitch(s, c, p, why).procs && Elsewhere(DoSwitch(s, c, p, why).procs[p].pc)
    ensures p in DoResume(s, p, why).procs && Elsewhere(DoResume(s, p, why).procs[p].pc)
  {}

  lemma ForkGoes(s: State, c: nat, p: Pid, np: Pid)
    requires p in s.procs && np in s.procs && np != p
    ensures var t := DoFork(s, c, p, np);
      && p in t.procs && t.procs[p].pc == Push0(np, ThenForked) && np in t.procs
      && t.procs[np].status == Runnable && t.procs[np].parent == Some(p) && t.procs[np].cpu == s.procs[np].cpu
  {}

  lemma PushGoes(s: State, p: Pid, x: Pid, k: Then)
    requires p in s.procs && x in s.procs
    ensures p in DoPush(s, p, x, k).procs && DoPush(s, p, x, k).procs[p].pc == Push2(x, k)
  {
    hide Push;
  }

  // What the parent may rely on

  ghost predicate ForkAt(s: State, p: Pid, np: Pid) {
    p in s.procs && PastFork(s.procs[p].pc, np) ==> Waiting(s, np, Some(p))
  }

  lemma ForkAtStep(s: State, step: Step, p: Pid, np: Pid)
    requires Enabled(s, step) && Inv(s) && ForkAt(s, p, np)
    ensures ForkAt(Apply(s, step), p, np)
  {
    hide Inv;
    hide Enabled;
    hide Apply;
    hide Waiting;
    hide PastFork;
    ByWhom(s, step, p);
    if p !in s.procs {
      if p in Apply(s, step).procs {
        NewForks(s, step, p, np);
      }
    } else {
      if PastFork(s.procs[p].pc, np) {
        NotStarted(s, step, p, np);
        StaysWaiting(s, step, np, Some(p));
      }
      if By(s, step, p) {
        if s.procs[p].pc == Fork1(np) {
          ForkMakes(s, step, p, np);
        } else {
          ProcStays(s, step, p);
          ForkSteps(s, step, p, np);
          LaunchGoes(s, step, p, np);
        }
      } else {
        OthersUntouched(s, step, p);
      }
    }
  }

  lemma ProcStays(s: State, step: Step, p: Pid)
    requires Enabled(s, step) && p in s.procs
    ensures p in Apply(s, step).procs
  {
    hide Apply;
    if step.Create? {
      NewProcIs(s, step);
    } else {
      KeysStay(s, step);
    }
  }

  lemma NewForks(s: State, step: Step, p: Pid, np: Pid)
    requires Enabled(s, step) && p in Apply(s, step).procs && p !in s.procs
    ensures !InFork(Apply(s, step).procs[p].pc, np)
  {
    hide Apply;
    if step.Create? {
      NewProcIs(s, step);
    } else {
      KeysStay(s, step);
    }
  }

  /** While the parent is in fork no CPU can start the child: its lock is taken. */
  lemma NotStarted(s: State, step: Step, p: Pid, np: Pid)
    requires Inv(s) && p in s.procs && PastFork(s.procs[p].pc, np)
    ensures !StartsOf(s, step, np)
  {
    hide ClaimsInv;
    hide FairInv;
    hide MineInv;
    hide SleepInv;
    assert s.procs[p].cpu.Some?;
    var d := s.procs[p].cpu.value;
    assert s.cpus[d].on == Some(p);
    assert HoldsC(s, d, ProcLock(np));
    assert StartsOf(s, step, np) ==> HoldsC(s, step.c, ProcLock(np)) && step.c != d;
    if StartsOf(s, step, np) {
      OneHolds(s, step.c, d, ProcLock(np));
    }
  }

  lemma ForkMakes(s: State, step: Step, p: Pid, np: Pid)
    requires Enabled(s, step) && Executes(s, step.c, p) && s.procs[p].pc == Fork1(np) && Inv(s)
    ensures Waiting(Apply(s, step), np, Some(p))
  {
    hide Inv;
    hide DoFork;
    OnCpu(s, step.c, p);
    InitialOff(s, np);
    ForkGoes(s, step.c, p, np);
  }

  lemma InitialOff(s: State, q: Pid)
    requires Inv(s) && q in s.procs && s.procs[q].status == Initial
    ensures s.procs[q].cpu == None
  {
    hide LocksInv;
    hide PlacesInv;
    hide FairInv;
    hide MineInv;
    hide SleepInv;
    hide Claims;
    hide References;
    ProcIs(s, q);
  }

  /** From elsewhere a process comes only to the beginning. */
  lemma LaunchGoes(s: State, step: Step, p: Pid, np: Pid)
    requires Enabled(s, step) && Executes(s, step.c, p) && p in Apply(s, step).procs
    requires ForkStep(step, s.procs[p], Apply(s, step).procs[p], np) && s.procs[p].pc != Fork1(np)
    ensures PastFork(Apply(s, step).procs[p].pc, np) ==> PastFork(s.procs[p].pc, np)
  {
    hide Apply;
    hide PastFork;
    if !step.Go? {
      CallsTo(s, step, p);
      Fork1Is(np);
    }
  }

  lemma Fork1Is(np: Pid)
    ensures !PastFork(Fork1(np), np)
  {}

  lemma {:induction false} LaunchRun(states: seq<State>, steps: seq<Step>, p: Pid, np: Pid, i: nat)
    requires IsRun(states, steps) && Init(states[0]) && i <= |steps|
    ensures Inv(states[i]) && ForkAt(states[i], p, np)
    ensures Launching(states, steps, p, np, i) <==> p in states[i].procs && InFork(states[i].procs[p].pc, np)
  {
    hide Inv;
    hide Enabled;
    hide Apply;
    hide InFork;
    hide ForkAt;
    RunInv(states, steps, i);
    if i == 0 {
      LaunchInit(states[0], p, np);
    } else {
      var s, step := states[i - 1], steps[i - 1];
      LaunchRun(states, steps, p, np, i - 1);
      assert Enabled(s, step) && states[i] == Apply(s, step);
      ForkAtStep(s, step, p, np);
      ByWhom(s, step, p);
      NotRun(np);
      if p !in s.procs {
        if p in states[i].procs {
          NewForks(s, step, p, np);
        }
      } else {
        ProcStays(s, step, p);
        if By(s, step, p) {
          ForkSteps(s, step, p, np);
        } else {
          OthersUntouched(s, step, p);
        }
      }
    }
  }

  lemma NotRun(np: Pid)
    ensures !InFork(Run, np)
  {}

  lemma LaunchInit(s: State, p: Pid, np: Pid)
    requires Init(s)
    ensures ForkAt(s, p, np) && (p in s.procs ==> !InFork(s.procs[p].pc, np))
  {}

  /** When fork returns, the child is RUNNABLE. */
  lemma ForkReturns(states: seq<State>, steps: seq<Step>, p: Pid, np: Pid, i: nat)
    requires IsRun(states, steps) && Init(states[0]) && 0 < i <= |steps|
    requires Launching(states, steps, p, np, i - 1) && !Launching(states, steps, p, np, i)
    ensures Outside(states[i], p) && np in states[i].procs
    ensures states[i].procs[np].status == Runnable && states[i].procs[np].parent == Some(p)
  {
    hide Inv;
    hide Init;
    hide Enabled;
    hide Apply;
    hide PastFork;
    var s, step := states[i - 1], steps[i - 1];
    LaunchRun(states, steps, p, np, i - 1);
    assert Enabled(s, step) && states[i] == Apply(s, step);
    if PastFork(s.procs[p].pc, np) {
      NotStarted(s, step, p, np);
      StaysWaiting(s, step, np, Some(p));
    } else {
      StillInFork(s, step, p, np);
    }
  }

  lemma StillInFork(s: State, step: Step, p: Pid, np: Pid)
    requires Enabled(s, step) && Inv(s) && p in s.procs && s.procs[p].pc == Fork1(np)
    ensures !Outside(Apply(s, step), p)
  {
    hide Inv;
    hide DoFork;
    if By(s, step, p) {
      OnCpu(s, step.c, p);
      ForkGoes(s, step.c, p, np);
    } else {
      OthersUntouched(s, step, p);
    }
  }

  // ----- The status of a process

  /** What the status of `q` is after a step: a table of all moves. */
  function Becomes(s: State, step: Step, q: Pid): Status
    requires q in s.procs
  {
    if !step.Go? || step.c !in s.cpus then s.procs[q].status
    else match s.cpus[step.c].on
      case None => if s.cpus[step.c].spc == Start(q) then Running else s.procs[q].status
      case Some(p) => if p in s.procs then Moved(s.procs[q], s.procs[p].pc, p, q) else s.procs[q].status
  }

  /** `p` makes a step at `pc`. */
  function Moved(r: Proc, pc: Pc, p: Pid, q: Pid): Status {
    match pc
    case Yield1 => if q == p then Runnable else r.status
    case Sleep2(_) => if q == p then Sleeping else r.status
    case Exit1 => if q == p then Zombie else r.status
    case Fork1(np) => if q == np then Runnable else r.status
    case Wake1(chan, _, x, _) => if q == x && r.status == Sleeping && r.chan == Some(chan) then Runnable else r.status
    case _ => r.status
  }

  lemma StatusIs(s: State, step: Step, q: Pid)
    requires Enabled(s, step) && q in s.procs
    ensures q in Apply(s, step).procs && Apply(s, step).procs[q].status == Becomes(s, step, q)
  {
    hide Inside;
    hide StepSched;
    hide Taken;
    hide Given;
    hide Moved;
    if step.Go? {
      if s.cpus[step.c].on.Some? {
        var p := s.cpus[step.c].on.value;
        LockStatus(s, p, q);
        if Wants(s, p, s.procs[p].pc).None? && Drops(p, s.procs[p].pc).None? {
          InsideStatus(s, step.c, p, q);
        }
      } else {
        SchedStatus(s, step.c, q);
      }
    }
  }

  lemma LockStatus(s: State, p: Pid, q: Pid)
    requires p in s.procs && q in s.procs
    ensures Wants(s, p, s.procs[p].pc).Some? || Drops(p, s.procs[p].pc).Some? ==>
              Moved(s.procs[q], s.procs[p].pc, p, q) == s.procs[q].status
  {}

  lemma InsideStatus(s: State, c: nat, p: Pid, q: Pid)
    requires c in s.cpus && p in s.procs && q in s.procs && Present(s, s.procs[p].pc)
    ensures var t := Inside(s, c, p); q in t.procs && t.procs[q].status == Moved(s.procs[q], s.procs[p].pc, p, q)
  {
    hide Push;
    hide DoWake;
    hide DoFork;
    hide DoPush;
    hide DoNext;
    match s.procs[p].pc
    case Wake1(chan, i, x, a) => WakeStatus(s, c, p, chan, i, x, a, q);
    case Fork1(np) => ForkStatus(s, c, p, np, q);
    case Push1(x, k) => PushKeeps(s, p, x, k, q);
    case Wake0(chan, i, a) => NextStatus(s, p, chan, i, a, q);
    case _ =>
  }

  lemma WakeStatus(s: State, c: nat, p: Pid, chan: Chan, i: nat, x: Pid, a: After, q: Pid)
    requires p in s.procs && x in s.procs && q in s.procs && s.procs[p].pc == Wake1(chan, i, x, a)
    ensures var t := DoWake(s, c, p, chan, i, x, a);
      q in t.procs && t.procs[q].status == Moved(s.procs[q], s.procs[p].pc, p, q)
  {}

  lemma ForkStatus(s: State, c: nat, p: Pid, np: Pid, q: Pid)
    requires p in s.procs && np in s.procs && q in s.procs
    ensures var t := DoFork(s, c, p, np);
      q in t.procs && t.procs[q].status == if q == np then Runnable else s.procs[q].status
  {}

  lemma PushKeeps(s: State, p: Pid, x: Pid, k: Then, q: Pid)
    requires p in s.procs && x in s.procs && q in s.procs
    ensures q in DoPush(s, p, x, k).procs && DoPush(s, p, x, k).procs[q].status == s.procs[q].status
  {
    hide Push;
  }

  lemma NextStatus(s: State, p: Pid, chan: Chan, i: nat, a: After, q: Pid)
    requires p in s.procs && q in s.procs
    ensures q in DoNext(s, p, chan, i, a).procs && DoNext(s, p, chan, i, a).procs[q].status == s.procs[q].status
  {}

  lemma SchedStatus(s: State, c: nat, q: Pid)
    requires c in s.cpus && CanStepSched(s, c) && q in s.procs
    ensures var t := StepSched(s, c);
      q in t.procs && t.procs[q].status == if s.cpus[c].spc == Start(q) then Running else s.procs[q].status
  {
    hide DoPick;
    if s.cpus[c].spc == Pick {
      PickStatus(s, c, q);
    }
  }

  lemma PickStatus(s: State, c: nat, q: Pid)
    requires c in s.cpus && q in s.procs
    ensures q in DoPick(s, c).procs && DoPick(s, c).procs[q].status == s.procs[q].status
  {
    hide Refreshed;
    hide Pop;
  }

  /** Who sleeps on a lock is woken only by a process that is within a call of releasesleeplock of this lock. */
  lemma WokenByRelease(states: seq<State>, steps: seq<Step>, q: Pid, i: nat)
    requires IsRun(states, steps) && Init(states[0]) && i < |steps|
    requires q in states[i].procs && states[i].procs[q].status == Sleeping
    ensures q in states[i + 1].procs
    ensures states[i + 1].procs[q].status == Sleeping || states[i + 1].procs[q].status == Runnable
    ensures states[i + 1].procs[q].status == Runnable ==>
              (exists l :: SleepsOn(states[i].procs[q], l) && (exists p :: Releasing(states, steps, p, l, i)))
  {
    hide Inv;
    hide Init;
    hide Enabled;
    hide Apply;
    hide InAcquire;
    hide InRelease;
    hide InSection;
    hide SleepsOn;
    CalmRun(states, steps, i);
    var s, step := states[i], steps[i];
    assert Enabled(s, step) && states[i + 1] == Apply(s, step);
    StatusIs(s, step, q);
    if Becomes(s, step, q) != Sleeping {
      var p := Waker(s, step, q);
      var l :| SleepsOn(s.procs[q], l) && InRelease(s.procs[p].pc, l);
      ToldRun(states, steps, p, l, i);
      assert SleepsOn(states[i].procs[q], l) && Releasing(states, steps, p, l, i);
    }
  }

  lemma Waker(s: State, step: Step, q: Pid) returns (p: Pid)
    requires Enabled(s, step) && Inv(s) && Calm(s) && q in s.procs && s.procs[q].status == Sleeping
    requires Becomes(s, step, q) != Sleeping
    ensures p in s.procs && Becomes(s, step, q) == Runnable
    ensures exists l :: SleepsOn(s.procs[q], l) && InRelease(s.procs[p].pc, l)
  {
    hide Enabled;
    hide LocksInv;
    hide PlacesInv;
    hide FairInv;
    hide MineInv;
    hide SleepInv;
    hide References;
    hide Claims;
    hide InRelease;
    hide Calm;
    hide Moved;
    hide Local;
    ProcIs(s, q);
    SleeperStays(s, step.c, q);
    p := s.cpus[step.c].on.value;
    OnCpu(s, step.c, p);
    CalmIs(s, p, 0);
    WakesOnly(s, p, q);
  }

  lemma SleeperStays(s: State, c: nat, q: Pid)
    requires Inv(s) && c in s.cpus && q in s.procs && s.procs[q].status == Sleeping
    ensures s.cpus[c].on == None ==> s.cpus[c].spc != Start(q)
    ensures s.cpus[c].on.Some? ==> s.cpus[c].on.value in s.procs
  {
    hide FairInv;
    hide MineInv;
    hide SleepInv;
    hide ClaimsInv;
    if s.cpus[c].on == None && s.cpus[c].spc == Start(q) {
      StartOff(s, c, q);
    }
  }

  lemma WakesOnly(s: State, p: Pid, q: Pid)
    requires p in s.procs && q in s.procs && OnOk(s.procs[p]) && Refers(s, p, s.procs[p].pc) && Local(s.procs[q], q)
    requires WakeOk(s.procs[p].pc) && s.procs[q].status == Sleeping
    requires Moved(s.procs[q], s.procs[p].pc, p, q) != Sleeping
    ensures Moved(s.procs[q], s.procs[p].pc, p, q) == Runnable
    ensures exists l :: SleepsOn(s.procs[q], l) && InRelease(s.procs[p].pc, l)
  {
    var l := SleepChan(s.procs[q], q);
    assert InRelease(s.procs[p].pc, l);
  }

  lemma SleepChan(r: Proc, q: Pid) returns (l: int)
    requires Local(r, q) && r.status == Sleeping
    ensures SleepsOn(r, l)
  {
    l := r.pc.why.l;
  }
}
