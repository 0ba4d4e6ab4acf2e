/** Virtual runtime over whole runs: min_vruntime only grows, nobody is more than one tick ahead of it, and
    while a process waits in the queue no other can take more than two turns that last a tick. */
module SchedulerFair {
  import opened Wrappers
  import opened RunQueues
  import opened Scheduler
  import opened SchedulerLocks
  import opened SchedulerClaims

  /** On the way from a tick to the queue. */
  predicate Yielding(pc: Pc) {
    match pc
    case Yield0 | Yield1 => true
    case Push0(_, k) => k.ThenSwitch?
    case Push1(_, k) => k.ThenSwitch?
    case _ => false
  }

  predicate Late(r: Proc) {
    r.claim == Queued || Yielding(r.pc)
  }

  ghost predicate FairInv(s: State) {
    && Fair(s.rq) && 0 <= s.rq.minv <= 100 * s.ticks
    && (forall p {:trigger s.procs[p]} | p in s.procs ::
          0 <= VOf(s.rq.v, p) <= 100 * s.ticks && VOf(s.rq.v, p) <= s.rq.minv + (if Late(s.procs[p]) then 100 else 0))
  }

  /** Queued processes are between min_vruntime and one tick more. */
  lemma QueuedWithin(s: State, p: Pid)
    requires FairInv(s) && p in s.rq.order && p in s.procs
    ensures s.rq.minv <= VOf(s.rq.v, p) <= s.rq.minv + 100
  {
    hide Fair;
    FrontFirst(s.rq, p);
  }

  lemma FairKeeps(s: State, t: State)
    requires FairInv(s) && t.rq == s.rq && t.ticks == s.ticks && t.procs.Keys == s.procs.Keys
    requires forall p | p in s.procs :: Late(s.procs[p]) ==> Late(t.procs[p])
    ensures FairInv(t)
  {
    hide Fair;
    hide Late;
  }

  lemma FairTick(s: State, c: nat, p: Pid)
    requires Executes(s, c, p) && s.procs[p].pc == Run && s.procs[p].claim == Unclaimed && Claims(s) && FairInv(s)
    ensures FairInv(To(s, p, Yield0).(rq := s.rq.(v := s.rq.v[p := VOf(s.rq.v, p) + 100]), ticks := s.ticks + 1))
  {
    hide Fair;
    var v := s.rq.v[p := VOf(s.rq.v, p) + 100];
    assert p !in s.rq.order;
    FairSame(s.rq, v);
    assert VOf(s.rq.v, p) <= s.rq.minv;
  }

  lemma FairPush(s: State, p: Pid, q: Pid, k: Then)
    requires p in s.procs && q in s.procs && !s.procs[q].queued && q !in s.rq.order && s.procs[p].pc == Push1(q, k)
    requires PushOk(q, k, p) && (q != p ==> !Yielding(s.procs[q].pc)) && FairInv(s)
    ensures FairInv(DoPush(s, p, q, k)) && DoPush(s, p, q, k).rq.minv >= s.rq.minv
  {
    hide Fair;
    hide Push;
    PushFair(s.rq, q);
    PushBound(s.rq, q);
    var t := DoPush(s, p, q, k);
    forall x | x in t.procs
      ensures 0 <= VOf(t.rq.v, x) <= 100 * t.ticks
              && VOf(t.rq.v, x) <= t.rq.minv + (if Late(t.procs[x]) then 100 else 0)
    {
      assert VOf(s.rq.v, x) <= s.rq.minv + (if Late(s.procs[x]) then 100 else 0);
    }
  }

  /** min_vruntime never gets beyond all virtual runtimes. */
  lemma PushBound(q: Queue, p: Pid)
    requires Fair(q) && p !in q.order
    ensures Push(q, p).minv == q.minv || Push(q, p).minv == VOf(Push(q, p).v, p)
  {
    PushFirst(q, p);
    if q.order == [] {
      assert Push(q, p).order == [p];
    }
  }

  lemma FairPick(s: State, c: nat)
    requires c in s.cpus && ClaimsInv(s) && FairInv(s)
    ensures FairInv(DoPick(s, c)) && DoPick(s, c).rq.minv >= s.rq.minv
  {
    hide Fair;
    hide Local;
    hide Refers;
    hide Claims;
    hide Pop;
    if s.rq.order != [] {
      NothingDiscarded(s);
      PopFair(s.rq);
      PopBound(s);
      var t, p := DoPick(s, c), s.rq.order[0];
      assert VOf(s.rq.v, p) <= t.rq.minv;
      forall x | x in t.procs
        ensures 0 <= VOf(t.rq.v, x) <= 100 * t.ticks
                && VOf(t.rq.v, x) <= t.rq.minv + (if Late(t.procs[x]) then 100 else 0)
      {
        assert VOf(s.rq.v, x) <= s.rq.minv + (if Late(s.procs[x]) then 100 else 0);
      }
    }
  }

  lemma PopBound(s: State)
    requires s.rq.order != [] && Fair(s.rq) && Claims(s)
    ensures Pop(s.rq).minv == s.rq.minv || exists p | p in s.procs :: Pop(s.rq).minv == VOf(s.rq.v, p)
  {
    if |s.rq.order| > 1 {
      assert s.rq.order[1] in s.rq.order;
    }
  }

  lemma FairCreate(s: State, np: Pid, parent: Pid)
    requires np !in s.procs && FairInv(s) && Claims(s)
    ensures FairInv(s.(procs := s.procs[np := NewProc(parent)], list := s.list + [np],
            rq := s.rq.(v := s.rq.v[np := 0])))
  {
    hide Fair;
    assert np !in s.rq.order;
    FairSame(s.rq, s.rq.v[np := 0]);
  }
}
