/** The scheduler, sleep and wakeup, and sleep locks (kernel/schedule.c, kernel/proc.c,
    kernel/sleeplock.c, kernel/spinlock.c and the clock tick of kernel/trap.c) as a system of steps that
    any number of CPUs take in any order. A step ends where a spin lock is taken or given back, or inside a
    critical section. Control points are numbered along the code. */
module Scheduler {
  import opened Wrappers
  import opened RunQueues

  datatype Status = Zombie | Initial | Runnable | Running | Sleeping
  datatype Lock = ProcLock(p: Pid) | RunQueueLock | LockOf(l: int)
  datatype Chan = LockChan(l: int) | ProcChan(p: Pid)

  /** What follows a wakeup: the end of releasesleeplock, or that of process_exit. */
  datatype After = Unlocking(l: int) | Exiting

  /** Why sched is called. */
  datatype Why = Yielded | Slept(l: int) | Exited

  /** What follows a rb_push_back. */
  datatype Then = ThenSwitch | ThenForked | ThenWake(chan: Chan, i: nat, after: After)

  /** Where a process is in its kernel code. */
  datatype Pc =
    | Run                                         // anywhere no spin lock is held
    | Yield0 | Yield1                             // yield: take the own lock; become RUNNABLE
    | Push0(q: Pid, k: Then)                   // rb_push_back of q: take rq_lock
    | Push1(q: Pid, k: Then)                   //   insert
    | Push2(q: Pid, k: Then)                   //   give rq_lock back
    | Switch(why: Why) | Resume(why: Why)         // sched, before and after swtch
    | Lock1(l: int) | Lock2(l: int)               // acquiresleeplock: test; give lk back
    | Sleep0(l: int) | Sleep1(l: int)             // sleep: take the own lock; give lk back
    | Sleep2(l: int)                              //   become SLEEPING
    | Sleep3(l: int) | Sleep4(l: int)             //   after sched: take lk; give the own lock back
    | Unlock1(l: int) | Unlock2(l: int)           // releasesleeplock: clear; give lk back
    | Check1(l: int)                              // holdingsleeplock: look, give lk back
    | Wake0(chan: Chan, i: nat, after: After)     // wakeup: next process of process_list
    | Wake1(chan: Chan, i: nat, p: Pid, after: After)
    | Wake2(chan: Chan, i: nat, p: Pid, after: After)
    | Exit1                                       // process_exit: become ZIMBIE
    | Fork1(np: Pid) | Fork2(np: Pid)             // fork: child RUNNABLE; give its lock back

  /** Where the scheduler loop of a CPU is; at Back a process runs, or has just switched back. */
  datatype Spc = Idle | Pick | Found(next: Option<Pid>) | Take(p: Pid) | Start(p: Pid) | Back(p: Pid)

  /** Auxiliary: who is about to run a RUNNABLE process. */
  datatype Claim = Unclaimed | Pushed(c: nat) | Queued | Picked(c: nat)

  /** `mine` (the sleep locks acquired and not released), `cpu` (the CPU that executes the process) and
      `claim` are auxiliary: no step looks at them, except that a process releases only what is its own. */
  datatype Proc = Proc(status: Status, chan: Option<Chan>, parent: Option<Pid>, queued: bool, pc: Pc,
                       mine: set<int>, cpu: Option<nat>, claim: Claim)
  datatype Cpu = Cpu(proc: Option<Pid>, on: Option<Pid>, spc: Spc, noff: int)
  datatype SleepLock = SleepLock(locked: bool, pid: int)

  /** `held` maps every taken spin lock to the CPU that took it; `ticks` counts the ticks of processes. */
  datatype State = State(procs: map<Pid, Proc>, list: seq<Pid>, cpus: map<nat, Cpu>, held: map<Lock, nat>,
                         locks: map<int, SleepLock>, rq: Queue, ticks: nat, panic: bool)

  // ----- kernel/spinlock.c

  function Acquire(s: State, c: nat, l: Lock): State
    requires c in s.cpus
  {
    if l in s.held && s.held[l] == c then s.(panic := true)
    else s.(held := s.held[l := c], cpus := s.cpus[c := s.cpus[c].(noff := s.cpus[c].noff + 1)])
  }

  function Release(s: State, c: nat, l: Lock): State
    requires c in s.cpus
  {
    if !(l in s.held && s.held[l] == c) || s.cpus[c].noff < 1 then s.(panic := true)
    else s.(held := s.held - {l}, cpus := s.cpus[c := s.cpus[c].(noff := s.cpus[c].noff - 1)])
  }

  /** acquire spins while another CPU holds the lock. */
  predicate CanAcquire(s: State, c: nat, l: Lock) {
    l in s.held ==> s.held[l] == c
  }

  function To(s: State, p: Pid, pc: Pc): State
    requires p in s.procs
  {
    s.(procs := s.procs[p := s.procs[p].(pc := pc)])
  }

  function ToS(s: State, c: nat, spc: Spc): State
    requires c in s.cpus
  {
    s.(cpus := s.cpus[c := s.cpus[c].(spc := spc)])
  }

  // ----- What a process takes and gives back

  /** The lock that the next step takes. */
  function Wants(s: State, p: Pid, pc: Pc): Option<Lock> {
    match pc
    case Yield0 => Some(ProcLock(p))
    case Push0(_, _) => Some(RunQueueLock)
    case Sleep0(_) => Some(ProcLock(p))
    case Sleep3(l) => Some(LockOf(l))
    case Wake0(_, i, _) => if i < |s.list| && s.list[i] != p then Some(ProcLock(s.list[i])) else None
    case _ => None
  }

  function Taken(s: State, p: Pid, pc: Pc): Pc
    requires Wants(s, p, pc).Some?
  {
    match pc
    case Yield0 => Yield1
    case Push0(q, t) => Push1(q, t)
    case Sleep0(l) => Sleep1(l)
    case Sleep3(l) => Sleep4(l)
    case Wake0(chan, i, a) => Wake1(chan, i, s.list[i], a)
  }

  /** The lock that the next step gives back. */
  function Drops(p: Pid, pc: Pc): Option<Lock> {
    match pc
    case Push2(_, _) => Some(RunQueueLock)
    case Lock2(l) => Some(LockOf(l))
    case Sleep1(l) => Some(LockOf(l))
    case Sleep4(_) => Some(ProcLock(p))
    case Unlock2(l) => Some(LockOf(l))
    case Check1(l) => Some(LockOf(l))
    case Wake2(_, _, q, _) => Some(ProcLock(q))
    case Fork2(np) => Some(ProcLock(np))
    case Resume(Yielded) => Some(ProcLock(p))
    case _ => None
  }

  function Given(p: Pid, pc: Pc): Pc
    requires Drops(p, pc).Some?
  {
    match pc
    case Push2(q, ThenSwitch) => Switch(Yielded)
    case Push2(q, ThenForked) => Fork2(q)
    case Push2(q, ThenWake(chan, i, a)) => Wake2(chan, i, q, a)
    case Lock2(_) => Run
    case Sleep1(l) => Sleep2(l)
    case Sleep4(l) => Lock1(l)
    case Unlock2(_) => Run
    case Check1(_) => Run
    case Wake2(chan, i, _, a) => Wake0(chan, i + 1, a)
    case Fork2(_) => Run
    case Resume(_) => Run
  }

  // ----- Inside critical sections

  function SetProc(s: State, p: Pid, r: Proc): State {
    s.(procs := s.procs[p := r])
  }

  /** yield: the process becomes RUNNABLE and queues itself. */
  function DoYield(s: State, c: nat, p: Pid): State
    requires p in s.procs
  {
    SetProc(s, p, s.procs[p].(status := Runnable, claim := Pushed(c), pc := Push0(p, ThenSwitch)))
  }

  /** rb_push_back under rq_lock */
  function DoPush(s: State, p: Pid, q: Pid, k: Then): State
    requires p in s.procs && q in s.procs
  {
    var t := To(s, p, Push2(q, k));
    if s.procs[q].queued then t
    else SetProc(t, q, t.procs[q].(queued := true, claim := Queued)).(rq := Push(s.rq, q))
  }

  /** acquiresleeplock: the test of the loop */
  function DoTest(s: State, p: Pid, l: int): State
    requires p in s.procs && l in s.locks
  {
    if s.locks[l].locked then To(s, p, Sleep0(l))
    else SetProc(s, p, s.procs[p].(mine := s.procs[p].mine + {l},
        pc := Lock2(l))).(locks := s.locks[l := SleepLock(true, p)])
  }

  function DoSleep(s: State, p: Pid, l: int): State
    requires p in s.procs
  {
    SetProc(s, p, s.procs[p].(chan := Some(LockChan(l)), status := Sleeping, pc := Switch(Slept(l))))
  }

  /** releasesleeplock up to wakeup */
  function DoUnlock(s: State, p: Pid, l: int): State
    requires p in s.procs
  {
    SetProc(s, p, s.procs[p].(mine := s.procs[p].mine - {l}, pc := Wake0(LockChan(l), 0, Unlocking(l)))).(
      locks := s.locks[l := SleepLock(false, -1)])
  }

  /** wakeup holds the lock of `q` */
  function DoWake(s: State, c: nat, p: Pid, chan: Chan, i: nat, q: Pid, a: After): State
    requires p in s.procs && q in s.procs
  {
    if s.procs[q].status == Sleeping && s.procs[q].chan == Some(chan) then
      SetProc(To(s, p, Push0(q, ThenWake(chan, i, a))), q, To(s, p, Push0(q, ThenWake(chan, i, a))).procs[q].(
        status := Runnable, claim := Pushed(c)))
    else
      To(s, p, Wake2(chan, i, q, a))
  }

  /** wakeup passes over the caller, and ends after the last process */
  function DoNext(s: State, p: Pid, chan: Chan, i: nat, a: After): State
    requires p in s.procs
  {
    if i < |s.list| then To(s, p, Wake0(chan, i + 1, a))
    else To(s, p, if a.Unlocking? then Unlock2(a.l) else Switch(Exited))
  }

  function DoExit(s: State, p: Pid): State
    requires p in s.procs
  {
    SetProc(s, p, s.procs[p].(status := Zombie,
      pc := if s.procs[p].parent.Some? then Wake0(ProcChan(s.procs[p].parent.value), 0, Exiting) else Switch(Exited)))
  }

  /** fork holds the lock of the child */
  function DoFork(s: State, c: nat, p: Pid, np: Pid): State
    requires p in s.procs && np in s.procs
  {
    var t := To(s, p, Push0(np, ThenForked));
    SetProc(t, np, t.procs[np].(status := Runnable, claim := Pushed(c), parent := Some(p)))
  }

  /** sched: its four checks, then swtch to the scheduler. Interrupts are off while a spin lock is held. */
  function DoSwitch(s: State, c: nat, p: Pid, why: Why): State
    requires p in s.procs && c in s.cpus
  {
    if !(ProcLock(p) in s.held && s.held[ProcLock(p)] == c) || s.cpus[c].noff != 1 || s.procs[p].status == Running then
      s.(panic := true)
    else
      SetProc(s, p, s.procs[p].(pc := Resume(why), cpu := None)).(cpus := s.cpus[c := s.cpus[c].(on := None)])
  }

  /** The other ends of sched: sleep clears its channel; a process that exited must not come back. */
  function DoResume(s: State, p: Pid, why: Why): State
    requires p in s.procs
  {
    match why
    case Slept(l) => SetProc(s, p, s.procs[p].(chan := None, pc := Sleep3(l)))
    case _ => s.(panic := true)
  }

  /** One step of process `p`, which CPU `c` executes. */
  function StepProc(s: State, c: nat, p: Pid): State
    requires c in s.cpus && p in s.procs && CanStep(s, c, p)
  {
    var pc := s.procs[p].pc;
    if Wants(s, p, pc).Some? then To(Acquire(s, c, Wants(s, p, pc).value), p, Taken(s, p, pc))
    else if Drops(p, pc).Some? then To(Release(s, c, Drops(p, pc).value), p, Given(p, pc))
    else Inside(s, c, p)
  }

  function Inside(s: State, c: nat, p: Pid): State
    requires c in s.cpus && p in s.procs && Present(s, s.procs[p].pc)
  {
    match s.procs[p].pc
    case Yield1 => DoYield(s, c, p)
    case Push1(q, t) => DoPush(s, p, q, t)
    case Lock1(l) => DoTest(s, p, l)
    case Sleep2(l) => DoSleep(s, p, l)
    case Unlock1(l) => DoUnlock(s, p, l)
    case Wake0(chan, i, a) => DoNext(s, p, chan, i, a)
    case Wake1(chan, i, q, a) => DoWake(s, c, p, chan, i, q, a)
    case Exit1 => DoExit(s, p)
    case Fork1(np) => DoFork(s, c, p, np)
    case Switch(why) => DoSwitch(s, c, p, why)
    case Resume(why) => DoResume(s, p, why)
    case _ => s
  }

  /** The processes and locks that the code points to are there. */
  predicate Present(s: State, pc: Pc) {
    match pc
    case Push0(q, _) => q in s.procs
    case Push1(q, _) => q in s.procs
    case Push2(q, _) => q in s.procs
    case Lock1(l) => l in s.locks
    case Wake1(_, _, q, _) => q in s.procs
    case Fork1(np) => np in s.procs
    case _ => true
  }

  predicate CanStep(s: State, c: nat, p: Pid)
    requires p in s.procs
  {
    var pc := s.procs[p].pc;
    && pc != Run && Present(s, pc)
    && (Wants(s, p, pc).Some? ==> CanAcquire(s, c, Wants(s, p, pc).value))
  }

  // ----- The scheduler loop of a CPU

  function WantsS(spc: Spc): Option<Lock> {
    match spc
    case Idle => Some(RunQueueLock)
    case Take(p) => Some(ProcLock(p))
    case _ => None
  }

  /** The loop over the queue: what it passes over it takes off. */
  function DoPick(s: State, c: nat): State
    requires c in s.cpus
  {
    if s.rq.order == [] then ToS(s.(rq := Refreshed(s.rq)), c, Found(None))
    else
      var p := s.rq.order[0];
      if p !in s.procs then s.(panic := true)
      else if s.procs[p].status == Runnable then
        ToS(SetProc(s, p, s.procs[p].(queued := false, claim := Picked(c))).(rq := Pop(s.rq)), c, Found(Some(p)))
      else
        SetProc(s, p, s.procs[p].(queued := false)).(rq := s.rq.(order := s.rq.order[1..]))
  }

  /** The process becomes RUNNING and swtch loads its context; its lock goes along. */
  function DoStart(s: State, c: nat, p: Pid): State
    requires c in s.cpus && p in s.procs
  {
    SetProc(s, p, s.procs[p].(status := Running, claim := Unclaimed, cpu := Some(c))).(
      cpus := s.cpus[c := s.cpus[c].(proc := Some(p), on := Some(p), spc := Back(p))])
  }

  function StepSched(s: State, c: nat): State
    requires c in s.cpus && CanStepSched(s, c)
  {
    match s.cpus[c].spc
    case Idle => ToS(Acquire(s, c, RunQueueLock), c, Pick)
    case Pick => DoPick(s, c)
    case Found(next) => ToS(Release(s, c, RunQueueLock), c, if next.Some? then Take(next.value) else Idle)
    case Take(p) => ToS(Acquire(s, c, ProcLock(p)), c, Start(p))
    case Start(p) => DoStart(s, c, p)
    case Back(p) =>
      var t := Release(s.(cpus := s.cpus[c := s.cpus[c].(proc := None)]), c, ProcLock(p));
      ToS(t, c, Idle)
  }

  predicate CanStepSched(s: State, c: nat)
    requires c in s.cpus
  {
    var spc := s.cpus[c].spc;
    && (WantsS(spc).Some? ==> CanAcquire(s, c, WantsS(spc).value))
    && (spc.Start? ==> spc.p in s.procs)
  }

  // ----- Steps

  datatype Step =
    | Go(c: nat)                // the CPU goes on with what it is doing
    | Tick(c: nat)              // a clock interrupt while a process runs
    | Yield(c: nat)
    | LockIt(c: nat, l: int)    // the process calls acquiresleeplock
    | UnlockIt(c: nat, l: int)
    | CheckIt(c: nat, l: int)
    | Exit(c: nat)
    | Create(c: nat, np: Pid)   // fork, up to the child's lock
    | Launch(c: nat, np: Pid)

  /** The process that a CPU executes is at a place where it may do as it likes. */
  predicate AtLarge(s: State, c: nat) {
    c in s.cpus && s.cpus[c].on.Some? && s.cpus[c].on.value in s.procs && s.procs[s.cpus[c].on.value].pc == Run
  }

  predicate Enabled(s: State, step: Step) {
    match step
    case Go(c) =>
      && c in s.cpus
      && (if s.cpus[c].on.Some? then s.cpus[c].on.value in s.procs && CanStep(s, c, s.cpus[c].on.value)
          else CanStepSched(s, c))
    case Tick(c) => AtLarge(s, c) && s.cpus[c].proc.Some?
    case Yield(c) => AtLarge(s, c) && CanAcquire(s, c, ProcLock(s.cpus[c].on.value))
    case LockIt(c, l) => AtLarge(s, c) && l in s.locks && CanAcquire(s, c, LockOf(l))
    case UnlockIt(c, l) => AtLarge(s, c) && l in s.procs[s.cpus[c].on.value].mine && CanAcquire(s, c, LockOf(l))
    case CheckIt(c, l) => AtLarge(s, c) && l in s.locks && CanAcquire(s, c, LockOf(l))
    case Exit(c) => AtLarge(s, c) && CanAcquire(s, c, ProcLock(s.cpus[c].on.value))
    case Create(c, np) => AtLarge(s, c) && np !in s.procs
    case Launch(c, np) =>
      && AtLarge(s, c) && np in s.procs && s.procs[np].status == Initial && s.procs[np].parent == s.cpus[c].on
      && CanAcquire(s, c, ProcLock(np))
  }

  function NewProc(parent: Pid): Proc {
    Proc(Initial, None, Some(parent), false, Resume(Yielded), {}, None, Unclaimed)
  }

  function Apply(s: State, step: Step): State
    requires Enabled(s, step)
  {
    var c := step.c;
    match step
    case Go(_) => if s.cpus[c].on.Some? then StepProc(s, c, s.cpus[c].on.value) else StepSched(s, c)
    case Tick(_) =>
      var p := s.cpus[c].proc.value;
      To(s, s.cpus[c].on.value, Yield0).(rq := s.rq.(v := s.rq.v[p := VOf(s.rq.v, p) + 100]), ticks := s.ticks + 1)
    case Yield(_) => Call(s, c, ProcLock(s.cpus[c].on.value), Yield1)
    case LockIt(_, l) => Call(s, c, LockOf(l), Lock1(l))
    case UnlockIt(_, l) => Call(s, c, LockOf(l), Unlock1(l))
    case CheckIt(_, l) => Call(s, c, LockOf(l), Check1(l))
    case Exit(_) => Call(s, c, ProcLock(s.cpus[c].on.value), Exit1)
    case Create(_, np) =>
      s.(procs := s.procs[np := NewProc(s.cpus[c].on.value)], list := s.list + [np], rq := s.rq.(v := s.rq.v[np := 0]))
    case Launch(_, np) => Call(s, c, ProcLock(np), Fork1(np))
  }

  /** A running process takes a spin lock. */
  function Call(s: State, c: nat, l: Lock, pc: Pc): State
    requires AtLarge(s, c)
  {
    To(Acquire(s, c, l), s.cpus[c].on.value, pc)
  }

  /** One process, RUNNABLE and queued (init_first_proc), and every CPU in its scheduler loop. */
  ghost predicate Init(s: State) {
    && (exists p :: s.procs == map[p := Proc(Runnable, None, None, true, Resume(Yielded), {}, None, Queued)]
                    && s.list == [p] && s.rq == Queue([p], map[p := 0], 0))
    && (forall c | c in s.cpus :: s.cpus[c] == Cpu(None, None, Idle, 0))
    && s.held == map[] && (forall l | l in s.locks :: s.locks[l] == SleepLock(false, -1))
    && s.ticks == 0 && !s.panic
  }
}
