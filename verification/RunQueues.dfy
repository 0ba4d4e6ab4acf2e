/** The run queue (kernel/schedule.c): processes ordered by virtual runtime, then by pid, and the lower
    bound on virtual runtime that it keeps. */
module RunQueues {
  import opened OrderedSeqs

  type Pid = nat

  /** `v` has every process's virtual runtime, `minv` is min_vruntime. */
  datatype Queue = Queue(order: seq<Pid>, v: map<Pid, int>, minv: int)

  function VOf(v: map<Pid, int>, p: Pid): int {
    if p in v then v[p] else 0
  }

  predicate CfsLess(v: map<Pid, int>, a: Pid, b: Pid) {
    if VOf(v, a) != VOf(v, b) then VOf(v, a) < VOf(v, b) else a < b
  }

  function Cfs(v: map<Pid, int>): Less<Pid> {
    (a: Pid, b: Pid) => CfsLess(v, a, b)
  }

  lemma CfsIsOrder(v: map<Pid, int>, u: set<Pid>)
    ensures StrictWeakOrder(Cfs(v), u)
  {}

  /** refresh_min_vruntime_locked */
  function Refreshed(q: Queue): Queue {
    if q.order != [] && VOf(q.v, q.order[0]) > q.minv then q.(minv := VOf(q.v, q.order[0])) else q
  }

  function Clamped(q: Queue, p: Pid): Queue {
    if VOf(q.v, p) < q.minv then q.(v := q.v[p := q.minv]) else q
  }

  /** rb_push_back of a process that is not queued */
  function Push(q: Queue, p: Pid): Queue {
    var c := Clamped(q, p);
    Refreshed(c.(order := Inserted(c.order, p, Cfs(c.v))))
  }

  /** Taking the first process off the queue. */
  function Pop(q: Queue): Queue
    requires q.order != []
  {
    Refreshed(q.(order := q.order[1..]))
  }

  /** The queue is in order without repetition, and min_vruntime is the virtual runtime of its first
      process. */
  ghost predicate Fair(q: Queue) {
    && Sorted(q.order, Cfs(q.v))
    && (forall i, j | 0 <= i < j < |q.order| :: q.order[i] != q.order[j])
    && (q.order != [] ==> VOf(q.v, q.order[0]) == q.minv)
  }

  /** The queue is in order, with nothing below min_vruntime, which may lag behind. */
  ghost predicate Ordered(q: Queue) {
    && Sorted(q.order, Cfs(q.v))
    && (forall i, j | 0 <= i < j < |q.order| :: q.order[i] != q.order[j])
    && (forall p | p in q.order :: q.minv <= VOf(q.v, p))
  }

  /** Then a refresh makes min_vruntime the least virtual runtime of the queue; it never falls. */
  lemma RefreshedLeast(q: Queue)
    requires Ordered(q)
    ensures var r := Refreshed(q);
      && Fair(r) && r.order == q.order && r.v == q.v && r.minv >= q.minv && (q.order == [] ==> r == q)
      && (forall p | p in q.order :: r.minv <= VOf(q.v, p)) && (q.order != [] ==> r.minv == VOf(q.v, q.order[0]))
  {
    hide Sorted;
    if q.order != [] {
      assert q.order[0] in q.order;
      forall p | p in q.order ensures Refreshed(q).minv <= VOf(q.v, p) {
        FrontFirst(Refreshed(q), p);
      }
    }
  }

  lemma FrontFirst(q: Queue, p: Pid)
    requires Fair(q) && p in q.order
    ensures !CfsLess(q.v, p, q.order[0]) && q.minv <= VOf(q.v, p)
  {
    var u := set x | x in q.order;
    CfsIsOrder(q.v, u);
    var i :| 0 <= i < |q.order| && q.order[i] == p;
    SortedFromFront(q.order, Cfs(q.v), u, i);
  }

  lemma SortedSame(s: seq<Pid>, v: map<Pid, int>, w: map<Pid, int>)
    requires Sorted(s, Cfs(v)) && forall p | p in s :: VOf(w, p) == VOf(v, p)
    ensures Sorted(s, Cfs(w))
  {
    forall i | 0 < i < |s| ensures !CfsLess(w, s[i], s[i - 1]) {
      assert !Cfs(v)(s[i], s[i - 1]);
    }
  }

  lemma InsertedHas(s: seq<Pid>, x: Pid, less: Less<Pid>)
    requires x !in s && forall i, j | 0 <= i < j < |s| :: s[i] != s[j]
    ensures var r := Inserted(s, x, less);
      (forall p :: p in r <==> p == x || p in s) && forall i, j | 0 <= i < j < |r| :: r[i] != r[j]
  {
    var k, r := InsertAt(s, x, less), Inserted(s, x, less);
    forall p ensures p in r <==> p == x || p in s {
      if p in s {
        var i :| 0 <= i < |s| && s[i] == p;
        assert r[if i < k then i else i + 1] == p;
      }
      assert r[k] == x;
    }
  }

  /** What rb_push_back does for a process that is not queued. */
  lemma PushFair(q: Queue, p: Pid)
    requires Fair(q) && p !in q.order
    ensures Fair(Push(q, p)) && forall x :: x in Push(q, p).order <==> x == p || x in q.order
    ensures Push(q, p).minv >= q.minv && (q.order != [] ==> Push(q, p).minv == q.minv)
    ensures VOf(Push(q, p).v, p) == if VOf(q.v, p) < q.minv then q.minv else VOf(q.v, p)
    ensures forall x | x != p :: VOf(Push(q, p).v, x) == VOf(q.v, x)
    ensures Push(q, p).minv <= VOf(Push(q, p).v, p)
  {
    hide Sorted;
    hide CfsLess;
    var c := Clamped(q, p);
    var u := (set x | x in q.order) + {p};
    CfsIsOrder(c.v, u);
    SortedSame(q.order, q.v, c.v);
    InsertedSorted(q.order, p, Cfs(c.v), u);
    InsertedHas(q.order, p, Cfs(c.v));
    PushFirst(q, p);
    FrontFirst(Push(q, p), p);
  }

  lemma PushFirst(q: Queue, p: Pid)
    requires Fair(q) && p !in q.order
    ensures var r := Push(q, p); r.order != [] && VOf(r.v, r.order[0]) == r.minv
    ensures q.order != [] ==> Push(q, p).minv == q.minv
  {
    var c := Clamped(q, p);
    InsertAtBounds(c.order, p, Cfs(c.v));
    if q.order != [] {
      assert VOf(c.v, q.order[0]) == q.minv;
    }
  }

  lemma PopFair(q: Queue)
    requires Fair(q) && q.order != []
    ensures Fair(Pop(q)) && Pop(q).minv >= q.minv && Pop(q).v == q.v
    ensures forall x :: x in Pop(q).order <==> x != q.order[0] && x in q.order
    ensures VOf(q.v, q.order[0]) <= Pop(q).minv
  {
    if |q.order| > 1 {
      FrontFirst(q, q.order[1]);
    }
  }

  /** A change to the virtual runtime of a process that is not queued does not touch the queue. */
  lemma FairSame(q: Queue, v: map<Pid, int>)
    requires Fair(q) && forall p | p in q.order :: VOf(v, p) == VOf(q.v, p)
    ensures Fair(q.(v := v))
  {
    SortedSame(q.order, q.v, v);
  }

  // ----- The code

  /** in_run_queue is set for the processes on the queue. */
  ghost predicate Marks(marked: set<Pid>, order: seq<Pid>) {
    forall p :: p in marked <==> p in order
  }

  /** The run queue as kernel/schedule.c keeps it; every method runs under rq_lock. */
  class RunQueue {
    var queue: Queue
    var inRunQueue: set<Pid>

    ghost predicate Valid()
      reads this
    {
      Fair(queue) && Marks(inRunQueue, queue.order)
    }

    /** rb_init */
    constructor (v: map<Pid, int>)
      ensures Valid() && queue == Queue([], v, 0)
    {
      queue := Queue([], v, 0);
      inRunQueue := {};
    }

    /** refresh_min_vruntime_locked: in a queue that is in order, min_vruntime becomes the least virtual runtime. */
    method RefreshMinVruntime()
      modifies this`queue
      ensures queue == Refreshed(old(queue)) && queue.minv >= old(queue).minv
      ensures Ordered(old(queue)) ==> Fair(queue) && forall p | p in queue.order :: queue.minv <= VOf(queue.v, p)
    {
      if Ordered(queue) {
        RefreshedLeast(queue);
      }
      if queue.order != [] {
        var leftmost := queue.order[0];
        if VOf(queue.v, leftmost) > queue.minv {
          queue := queue.(minv := VOf(queue.v, leftmost));
        }
      }
    }

    method RbPushBack(p: Pid)
      requires Valid()
      modifies this
      ensures Valid() && queue == if p in old(inRunQueue) then old(queue) else Push(old(queue), p)
      ensures p in inRunQueue && inRunQueue == old(inRunQueue) + {p}
    {
      if p !in inRunQueue {
        PushFair(queue, p);
        if VOf(queue.v, p) < queue.minv {
          queue := queue.(v := queue.v[p := queue.minv]);
        }
        queue := queue.(order := Inserted(queue.order, p, Cfs(queue.v)));
        inRunQueue := inRunQueue + {p};
        RefreshMinVruntime();
      }
    }

    /** The loop of schedule that looks for a process to run. What it passes over is taken off the queue. */
    method PickNext(runnable: set<Pid>) returns (next: Pid, found: bool)
      requires Valid()
      modifies this
      ensures Valid()
      ensures found ==> next in old(queue).order && next in runnable && next !in inRunQueue
      ensures old(queue).order == [] ==> !found && queue == old(queue)
      ensures (forall p | p in old(queue).order :: p in runnable) && old(queue).order != [] ==>
                found && next == old(queue).order[0] && queue == Pop(old(queue))
      ensures !found ==> queue.order == [] && forall p | p in old(queue).order :: p !in runnable
      ensures queue.minv >= old(queue).minv
    {
      hide Fair;
      hide Refreshed;
      hide Pop;
      hide Marks;
      hide PassedOver;
      found := false;
      next := 0;
      ghost var k := 0;
      ghost var q0 := queue;
      PassedNone(q0.order, runnable);
      while queue.order != []
        invariant 0 <= k <= |q0.order| && queue == q0.(order := q0.order[k..])
        invariant Marks(inRunQueue, q0.order[k..])
        invariant PassedOver(q0.order, k, runnable)
        decreases |queue.order|
      {
        MarksRest(q0, k, inRunQueue, runnable);
        var p := queue.order[0];
        inRunQueue := inRunQueue - {p};
        queue := queue.(order := queue.order[1..]);
        if p in runnable {
          next, found := p, true;
          break;
        }
        k := k + 1;
      }
      PassedAll(q0.order, k, runnable);
      RestFair(q0, if found then k + 1 else k);
      RefreshMinVruntime();
    }
  }

  ghost predicate PassedOver(order: seq<Pid>, k: nat, runnable: set<Pid>)
    requires k <= |order|
  {
    forall i | 0 <= i < k :: order[i] !in runnable
  }

  lemma PassedNone(order: seq<Pid>, runnable: set<Pid>)
    ensures PassedOver(order, 0, runnable)
  {}

  lemma PassedAll(order: seq<Pid>, k: nat, runnable: set<Pid>)
    requires k <= |order| && PassedOver(order, k, runnable)
    ensures k > 0 ==> order[0] in order && order[0] !in runnable
    ensures k == |order| ==> forall p | p in order :: p !in runnable
  {}

  lemma MarksRest(q: Queue, k: nat, marked: set<Pid>, runnable: set<Pid>)
    requires Fair(q) && k < |q.order| && Marks(marked, q.order[k..]) && PassedOver(q.order, k, runnable)
    ensures var p := q.order[k];
      && p == q.order[k..][0] && q.order[k..][1..] == q.order[k + 1..] && p in q.order
      && Marks(marked - {p}, q.order[k + 1..])
      && (p !in runnable ==> PassedOver(q.order, k + 1, runnable))
  {
    var p := q.order[k];
    assert q.order[k..] == [p] + q.order[k + 1..];
    forall x ensures x in marked - {p} <==> x in q.order[k + 1..] {
      assert x in q.order[k..] <==> x == p || x in q.order[k + 1..];
    }
  }

  /** The refresh at the end of the loop makes up for all that was taken off. */
  lemma RestFair(q: Queue, k: nat)
    requires Fair(q) && k <= |q.order|
    ensures var r := Refreshed(q.(order := q.order[k..]));
      Fair(r) && r.order == q.order[k..] && r.minv >= q.minv && (k == 1 ==> r == Pop(q))
          && (k == |q.order| ==> q.order == [] ==> r == q)
  {
    if k < |q.order| {
      FrontFirst(q, q.order[k]);
    }
  }
}
