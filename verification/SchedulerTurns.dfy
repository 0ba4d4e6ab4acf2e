/** Fairness over whole runs: min_vruntime never decreases, and while a process stays queued any other is
    given at most two turns that end in a clock tick. */
module SchedulerTurns {
  import opened Wrappers
  import opened RunQueues
  import opened Scheduler
  import opened SchedulerLocks
  import opened SchedulerClaims
  import opened SchedulerFair
  import opened SchedulerRuns

  /** The step is a clock tick while `q` runs. */
  predicate TickOf(s: State, step: Step, q: Pid) {
    step.Tick? && step.c in s.cpus && s.cpus[step.c].on == Some(q)
  }

  /** The step takes `q` off the queue to run it. */
  predicate PickOf(s: State, step: Step, q: Pid) {
    && step.Go? && step.c in s.cpus && s.cpus[step.c].on == None && s.cpus[step.c].spc == Pick
    && s.rq.order != [] && s.rq.order[0] == q
  }

  // ----- What one step does to the virtual runtime of a process

  /** A step that is no tick of `q` and does not pick it. */
  ghost predicate Eases(s: State, t: State, q: Pid) {
    && q in t.procs && t.rq.minv >= s.rq.minv
    && VOf(t.rq.v, q) >= VOf(s.rq.v, q)
    && (q in s.rq.order ==> VOf(t.rq.v, q) == VOf(s.rq.v, q))
    && (q in s.procs && Late(s.procs[q]) ==> Late(t.procs[q]))
  }

  lemma EasesSame(s: State, t: State, q: Pid)
    requires q in s.procs && q in t.procs && t.rq == s.rq
    requires t.procs[q].claim == s.procs[q].claim || s.procs[q].claim != Queued
    requires Yielding(s.procs[q].pc) ==> Yielding(t.procs[q].pc)
    ensures Eases(s, t, q)
  {}

  /** Nothing but control and locks change. */
  lemma EasesTo(s: State, t: State, p: Pid, q: Pid, pc: Pc)
    requires p in s.procs && q in s.procs && t.rq == s.rq && t.procs == To(s, p, pc).procs
    requires Yielding(s.procs[p].pc) ==> Yielding(pc)
    ensures Eases(s, t, q)
  {
    EasesSame(s, t, q);
  }

  lemma TakenYields(s: State, p: Pid, pc: Pc)
    ensures Wants(s, p, pc).Some? && Yielding(pc) ==> Yielding(Taken(s, p, pc))
    ensures Drops(p, pc).Some? ==> !Yielding(pc)
  {}

  lemma InsideEases(s: State, c: nat, p: Pid, q: Pid)
    requires Executes(s, c, p) && q in s.procs && Present(s, s.procs[p].pc)
    requires Wants(s, p, s.procs[p].pc).None? && Drops(p, s.procs[p].pc).None? && Inv(s)
    ensures Eases(s, Inside(s, c, p), q)
  {
    hide LocksInv;
    hide PlacesInv;
    hide FairInv;
    hide SchedulerSleep.MineInv;
    hide SchedulerSleep.NamesInv;
    hide SchedulerSleep.SleepInv;
    hide References;
    hide Claims;
    hide Push;
    OnCpu(s, c, p);
    ProcIs(s, p);
    ProcIs(s, q);
    match s.procs[p].pc
    case Push1(x, k) => PushEases(s, c, p, q, x, k);
    case Fork1(np) => ForkEases(s, c, p, q, np);
    case Wake1(chan, i, x, a) => WakeEases(s, c, p, q, chan, i, x, a);
    case _ =>
  }

  lemma ForkEases(s: State, c: nat, p: Pid, q: Pid, np: Pid)
    requires Executes(s, c, p) && q in s.procs && np in s.procs && s.procs[p].pc == Fork1(np)
             && s.procs[np].status == Initial
    requires Locals(s)
    ensures Eases(s, DoFork(s, c, p, np), q)
  {
    assert Local(s.procs[np], np);
  }

  lemma WakeEases(s: State, c: nat, p: Pid, q: Pid, chan: Chan, i: nat, x: Pid, a: After)
    requires Executes(s, c, p) && q in s.procs && x in s.procs && s.procs[p].pc == Wake1(chan, i, x, a) && x != p
    requires Locals(s)
    ensures Eases(s, DoWake(s, c, p, chan, i, x, a), q)
  {
    assert Local(s.procs[x], x);
  }

  lemma PushEases(s: State, c: nat, p: Pid, q: Pid, x: Pid, k: Then)
    requires Executes(s, c, p) && q in s.procs && s.procs[p].pc == Push1(x, k) && Inv(s)
    ensures x in s.procs && Eases(s, DoPush(s, p, x, k), q)
  {
    hide LocksInv;
    hide ClaimsInv;
    hide SchedulerSleep.MineInv;
    hide SchedulerSleep.NamesInv;
    hide SchedulerSleep.SleepInv;
    hide Fair;
    hide Push;
    OnCpu(s, c, p);
    DoPushInv(s, c, p, x, k);
    PushClaims(s, c, p, x, k);
    PushFair(s.rq, x);
  }

  lemma SchedEases(s: State, c: nat, q: Pid)
    requires c in s.cpus && s.cpus[c].on == None && CanStepSched(s, c) && q in s.procs && !PickOf(s, Go(c), q) && Inv(s)
    ensures Eases(s, StepSched(s, c), q)
  {
    hide LocksInv;
    hide PlacesInv;
    hide ClaimsInv;
    hide SchedulerSleep.MineInv;
    hide SchedulerSleep.NamesInv;
    hide SchedulerSleep.SleepInv;
    hide Fair;
    hide Pop;
    match s.cpus[c].spc
    case Pick =>
      DoPickInv(s, c);
      if s.rq.order != [] {
        NothingDiscarded(s);
        PopFair(s.rq);
      }
    case Start(p) => StartOff(s, c, p);
    case _ =>
  }

  lemma TickEases(s: State, c: nat, q: Pid)
    requires Enabled(s, Tick(c)) && q in s.procs && Inv(s)
    ensures var t := Apply(s, Tick(c)); Eases(s, t, q)
    ensures TickOf(s, Tick(c), q) ==>
              !Late(s.procs[q]) && Late(Apply(s, Tick(c)).procs[q])
                  && VOf(Apply(s, Tick(c)).rq.v, q) == VOf(s.rq.v, q) + 100
  {
    hide LocksInv;
    hide PlacesInv;
    hide FairInv;
    hide SchedulerSleep.MineInv;
    hide SchedulerSleep.NamesInv;
    hide SchedulerSleep.SleepInv;
    hide References;
    var p := s.cpus[c].on.value;
    OnCpu(s, c, p);
    ProcIs(s, p);
    NotInOrder(s, p);
  }

  lemma StepEases(s: State, step: Step, q: Pid)
    requires Enabled(s, step) && q in s.procs && !PickOf(s, step, q) && Inv(s)
    ensures Eases(s, Apply(s, step), q)
  {
    hide Inv;
    hide Eases;
    hide Yielding;
    match step
    case Go(c) =>
      if s.cpus[c].on.Some? {
        var p := s.cpus[c].on.value;
        var pc := s.procs[p].pc;
        TakenYields(s, p, pc);
        if Wants(s, p, pc).Some? {
          EasesTo(s, Apply(s, step), p, q, Taken(s, p, pc));
        } else if Drops(p, pc).Some? {
          EasesTo(s, Apply(s, step), p, q, Given(p, pc));
        } else {
          InsideEases(s, c, p, q);
        }
      } else {
        SchedEases(s, c, q);
      }
    case Tick(c) => TickEases(s, c, q);
    case Create(c, np) => CreateEases(s, c, np, q);
    case _ => CallEases(s, step, q);
  }

  lemma CreateEases(s: State, c: nat, np: Pid, q: Pid)
    requires Enabled(s, Create(c, np)) && q in s.procs && Inv(s)
    ensures Eases(s, Apply(s, Create(c, np)), q)
  {
    hide LocksInv;
    hide PlacesInv;
    hide ClaimsInv;
    hide FairInv;
  }

  lemma CallEases(s: State, step: Step, q: Pid)
    requires Enabled(s, step) && q in s.procs && !step.Go? && !step.Tick? && !step.Create?
    ensures Eases(s, Apply(s, step), q)
  {}

  /** Picking `q` brings min_vruntime up to its virtual runtime, which was the least of all in the queue. */
  lemma PickEases(s: State, step: Step, q: Pid)
    requires Enabled(s, step) && PickOf(s, step, q) && Inv(s)
    ensures q in s.procs && q in Apply(s, step).procs && VOf(s.rq.v, q) == s.rq.minv
            && Apply(s, step).rq.minv >= s.rq.minv
    ensures VOf(Apply(s, step).rq.v, q) == VOf(s.rq.v, q)
    ensures forall p | p in s.rq.order :: VOf(Apply(s, step).rq.v, p) == VOf(s.rq.v, p) >= VOf(s.rq.v, q)
  {
    hide LocksInv;
    hide PlacesInv;
    hide ClaimsInv;
    hide SchedulerSleep.MineInv;
    hide SchedulerSleep.NamesInv;
    hide SchedulerSleep.SleepInv;
    hide Fair;
    hide Pop;
    DoPickInv(s, step.c);
    NothingDiscarded(s);
    PopFair(s.rq);
    forall p | p in s.rq.order ensures VOf(s.rq.v, p) >= VOf(s.rq.v, q) {
      FrontFirst(s.rq, p);
    }
    FrontFirst(s.rq, q);
    FrontIs(s.rq);
  }

  lemma FrontIs(q: Queue)
    requires Fair(q) && q.order != []
    ensures VOf(q.v, q.order[0]) == q.minv
  {}

  // ----- Whole runs

  /** min_vruntime never decreases. */
  lemma {:induction false} MinGrows(states: seq<State>, steps: seq<Step>, i: nat, j: nat)
    requires IsRun(states, steps) && i <= j <= |steps| && Inv(states[0])
    ensures states[i].rq.minv <= states[j].rq.minv
    decreases j
  {
    hide Inv;
    hide Enabled;
    hide Apply;
    if i < j {
      MinGrows(states, steps, i, j - 1);
      RunInv(states, steps, j - 1);
      MinStep(states[j - 1], steps[j - 1]);
    }
  }

  lemma MinStep(s: State, step: Step)
    requires Enabled(s, step) && Inv(s)
    ensures Apply(s, step).rq.minv >= s.rq.minv
  {
    hide Inv;
    SomeProcess(s, step);
    var q :| q in s.procs;
    if PickOf(s, step, q) {
      PickEases(s, step, q);
    } else {
      StepEases(s, step, q);
    }
  }

  lemma SomeProcess(s: State, step: Step)
    requires Enabled(s, step) && Inv(s)
    ensures exists p :: p in s.procs
  {
    assert s.list[0] in s.list;
  }

  /** Whether `q` was picked in the first `k` steps. */
  predicate PickedBefore(states: seq<State>, steps: seq<Step>, q: Pid, k: nat)
    requires k <= |steps| < |states|
  {
    exists j | 0 <= j < k :: PickOf(states[j], steps[j], q)
  }

  /** The number of ticks of `q`, each of which ends a turn, in the first `k` steps, counting only turns that
      began in the run. */
  function Turns(states: seq<State>, steps: seq<Step>, q: Pid, k: nat): nat
    requires k <= |steps| < |states|
  {
    if k == 0 then 0
    else if TickOf(states[k - 1], steps[k - 1], q)
        && PickedBefore(states, steps, q, k - 1) then 1 + Turns(states, steps, q, k - 1)
    else Turns(states, steps, q, k - 1)
  }

  /** How far `q` has come after `k` steps, relative to min_vruntime at the beginning. */
  ghost predicate Pace(states: seq<State>, steps: seq<Step>, q: Pid, k: nat)
    requires k <= |steps| < |states| && IsRun(states, steps)
  {
    var s, n := states[k], Turns(states, steps, q, k);
    && n <= 2
    && (PickedBefore(states, steps, q, k) ==> q in s.procs && VOf(s.rq.v, q) >= states[0].rq.minv + 100 * n)
    && (n > 0 ==> PickedBefore(states, steps, q, k))
    && (n == 2 ==> Late(s.procs[q]))
  }

  /** While `p` stays queued, its virtual runtime stays what it is. */
  lemma {:induction false} WaitsStill(states: seq<State>, steps: seq<Step>, p: Pid, k: nat)
    requires IsRun(states, steps) && k <= |steps| && Inv(states[0]) && forall i | 0 <= i <= k :: p in states[i].rq.order
    ensures VOf(states[k].rq.v, p) == VOf(states[0].rq.v, p) <= states[0].rq.minv + 100
  {
    hide Inv;
    hide Enabled;
    hide Apply;
    if k == 0 {
      WaitsWithin(states[0], p);
    } else {
      WaitsStill(states, steps, p, k - 1);
      RunInv(states, steps, k - 1);
      assert Enabled(states[k - 1], steps[k - 1]);
      WaitsStep(states[k - 1], steps[k - 1], p);
    }
  }

  lemma WaitsWithin(s: State, p: Pid)
    requires Inv(s) && p in s.rq.order
    ensures p in s.procs && VOf(s.rq.v, p) <= s.rq.minv + 100
  {
    hide FairInv;
    hide Locals;
    hide References;
    QueuedWithin(s, p);
  }

  lemma WaitsStep(s: State, step: Step, p: Pid)
    requires Enabled(s, step) && Inv(s) && p in s.rq.order
    ensures VOf(Apply(s, step).rq.v, p) == VOf(s.rq.v, p)
  {
    hide Inv;
    hide Apply;
    WaitsWithin(s, p);
    if PickOf(s, step, p) {
      PickEases(s, step, p);
    } else {
      StepEases(s, step, p);
    }
  }

  lemma {:induction false} PaceKept(states: seq<State>, steps: seq<Step>, p: Pid, q: Pid, k: nat)
    requires IsRun(states, steps) && k <= |steps| && Inv(states[0]) && p != q
    requires forall i | 0 <= i <= k :: p in states[i].rq.order
    ensures Pace(states, steps, q, k)
  {
    hide Inv;
    hide Enabled;
    hide Apply;
    if k > 0 {
      PaceKept(states, steps, p, q, k - 1);
      RunInv(states, steps, k - 1);
      assert Enabled(states[k - 1], steps[k - 1]);
      WaitsStill(states, steps, p, k - 1);
      MinGrows(states, steps, 0, k - 1);
      PaceStep(states, steps, p, q, k);
    }
  }

  lemma PaceStep(states: seq<State>, steps: seq<Step>, p: Pid, q: Pid, k: nat)
    requires IsRun(states, steps) && 0 < k <= |steps| && Pace(states, steps, q, k - 1) && p != q
    requires Inv(states[k - 1]) && Enabled(states[k - 1], steps[k - 1])
             && states[k] == Apply(states[k - 1], steps[k - 1])
    requires p in states[k - 1].rq.order && VOf(states[k - 1].rq.v, p) <= states[0].rq.minv + 100
    requires states[0].rq.minv <= states[k - 1].rq.minv
    ensures Pace(states, steps, q, k)
  {
    hide Inv;
    hide Enabled;
    hide Apply;
    hide Late;
    var s, step := states[k - 1], steps[k - 1];
    PickedStep(states, steps, q, k);
    if q !in s.procs {
      Unborn(s, step, q);
    } else if PickOf(s, step, q) {
      PickEases(s, step, q);
    } else {
      StepEases(s, step, q);
      if TickOf(s, step, q) {
        TickEases(s, step.c, q);
      }
    }
  }

  lemma Unborn(s: State, step: Step, q: Pid)
    requires Inv(s) && q !in s.procs
    ensures !PickOf(s, step, q) && !TickOf(s, step, q)
  {
    hide LocksInv;
    hide FairInv;
    if PickOf(s, step, q) {
      NothingDiscarded(s);
    }
  }

  lemma PickedStep(states: seq<State>, steps: seq<Step>, q: Pid, k: nat)
    requires 0 < k <= |steps| < |states|
    ensures PickedBefore(states, steps, q, k) <==>
              PickedBefore(states, steps, q, k - 1) || PickOf(states[k - 1], steps[k - 1], q)
  {}

  /** While `p` stays queued, `q` gets at most two turns that end in a tick. */
  lemma AtMostTwoTurns(states: seq<State>, steps: seq<Step>, p: Pid, q: Pid)
    requires IsRun(states, steps) && Inv(states[0]) && p != q
    requires forall i | 0 <= i <= |steps| :: p in states[i].rq.order
    ensures Turns(states, steps, q, |steps|) <= 2
  {
    PaceKept(states, steps, p, q, |steps|);
  }

  // ----- What holds in every reachable state, in the terms of the code

  lemma ReachableSafe(states: seq<State>, steps: seq<Step>, i: nat)
    requires IsRun(states, steps) && Init(states[0]) && i <= |steps|
    ensures !states[i].panic
    ensures ContextsApart(states[i]) && QueueSound(states[i]) && LocksSound(states[i]) && RuntimesBounded(states[i])
  {
    hide Inv;
    hide Init;
    RunInv(states, steps, i);
    StateSafe(states[i]);
  }

  /** No process context is executed by two CPUs. */
  ghost predicate ContextsApart(s: State) {
    forall c, d | c in s.cpus && d in s.cpus && s.cpus[c].on.Some? && s.cpus[c].on == s.cpus[d].on :: c == d
  }

  /** A process is on the run queue once if in_run_queue is set and not at all otherwise, and it is RUNNABLE
      while it is there. */
  ghost predicate QueueSound(s: State) {
    && (forall j, k | 0 <= j < k < |s.rq.order| :: s.rq.order[j] != s.rq.order[k])
    && (forall p | p in s.rq.order :: p in s.procs && s.procs[p].status == Runnable)
    && (forall p | p in s.procs :: s.procs[p].queued <==> p in s.rq.order)
  }

  /** A sleep lock has one holder, the one it names; nobody sleeps on a free lock unseen by a releaser. */
  ghost predicate LocksSound(s: State) {
    && (forall p, q, l | p in s.procs && q in s.procs && l in s.procs[p].mine && l in s.procs[q].mine :: p == q)
    && (forall p, l | p in s.procs && l in s.locks ::
          s.locks[l].locked && s.locks[l].pid == p <==> l in s.procs[p].mine)
    && (forall p, l | p in s.procs && SchedulerSleep.Committed(s.procs[p], l) ::
          l in s.locks && (s.locks[l].locked || SchedulerSleep.Coming(s, l, p)))
  }

  ghost predicate RuntimesBounded(s: State) {
    && (forall p | p in s.procs :: 0 <= VOf(s.rq.v, p) <= s.rq.minv + 100 && VOf(s.rq.v, p) <= 100 * s.ticks)
    && (forall p | p in s.rq.order :: s.rq.minv <= VOf(s.rq.v, p))
  }

  lemma StateSafe(s: State)
    requires Inv(s)
    ensures !s.panic && ContextsApart(s) && QueueSound(s) && LocksSound(s) && RuntimesBounded(s)
  {
    hide LocksInv;
    hide PlacesInv;
    hide ClaimsInv;
    hide FairInv;
    hide SchedulerSleep.MineInv;
    hide SchedulerSleep.NamesInv;
    hide SchedulerSleep.SleepInv;
    hide SchedulerSleep.Coming;
    forall c, d | c in s.cpus && d in s.cpus && s.cpus[c].on.Some? && s.cpus[c].on == s.cpus[d].on ensures c == d {
      NoneTwice(s, c, d);
    }
    SafeQueue(s);
    forall p, q, l | p in s.procs && q in s.procs && l in s.procs[p].mine && l in s.procs[q].mine ensures p == q {
      SchedulerSleep.OneHolder(s, l, p, q);
    }
    forall p, l | p in s.procs && l in s.locks ensures s.locks[l].locked && s.locks[l].pid == p <==>
        l in s.procs[p].mine {
      SchedulerSleep.HoldingTells(s, p, l);
    }
    forall p, l | p in s.procs && SchedulerSleep.Committed(s.procs[p], l)
      ensures l in s.locks && (s.locks[l].locked || SchedulerSleep.Coming(s, l, p))
    {
      SchedulerSleep.NoLostWakeup(s, p, l);
    }
    SafeRuntimes(s);
  }

  lemma SafeQueue(s: State)
    requires ClaimsInv(s) && FairInv(s)
    ensures QueueSound(s)
  {
    hide Refers;
    hide OnOk;
    hide OffOk;
    hide PcOk;
    forall p | p in s.procs ensures s.procs[p].queued <==> p in s.rq.order {
      ProcIs(s, p);
    }
    forall p | p in s.rq.order ensures p in s.procs && s.procs[p].status == Runnable {
      assert s.procs[p].claim == Queued;
      ProcIs(s, p);
    }
  }

  lemma SafeRuntimes(s: State)
    requires ClaimsInv(s) && FairInv(s)
    ensures RuntimesBounded(s)
  {
    hide Fair;
    hide Locals;
    hide References;
    forall p | p in s.rq.order ensures s.rq.minv <= VOf(s.rq.v, p) {
      QueuedWithin(s, p);
    }
  }
}
