/** What the clients of the buffer cache get, told from their calls alone: each behaves as if it had a plain
    disk (kernel/fs/buf.c). */
module BufferAnswers {
  import opened Wrappers
  import opened BufferCache

  // ----- bget and brelse

  /** What bget leaves: the client waits for a buffer that has the block asked for, the one that had it before
      if there was one, and otherwise one that nobody used. */
  ghost predicate Answered(s: Cache, t: Cache, k: Client, blk: int, b: nat) {
    && b < |s.bufs| && |t.bufs| == |s.bufs| && t == s.(bufs := t.bufs, clients := s.clients[k := Waiting(b, blk)])
    && (forall c: nat | c < |s.bufs| && c != b :: t.bufs[c] == s.bufs[c])
    && HasKey(t.bufs[b], s.dev, blk)
    && (if exists c: nat :: c < |s.bufs| && HasKey(s.bufs[c], s.dev, blk) then
          HasKey(s.bufs[b], s.dev, blk) && t.bufs[b].valid == s.bufs[b].valid && t.bufs[b].data == s.bufs[b].data
          && t.bufs[b].refcnt == s.bufs[b].refcnt + 1
        else s.bufs[b].refcnt == 0 && !t.bufs[b].valid && t.bufs[b].refcnt == 1)
  }

  lemma GetAnswers(s: Cache, k: Client, blk: int)
    requires Inv(s) && Enabled(s, DoGet(k, blk)) && !s.panic
    ensures var t := Apply(s, DoGet(k, blk));
      if t.panic then t == s.(panic := true) && NoBuffer(s, blk)
      else t.clients[k].Waiting? && Answered(s, t, k, blk, t.clients[k].b)
  {
    hide BufOk;
    hide ClientOk;
    OrderIs(s);
    FindIs(s.bufs, s.order, s.dev, blk, 0);
    FindFreeIs(s.bufs, s.order, 0);
    var h := Find(s.bufs, s.order, s.dev, blk, 0);
    GetInv(s, k, blk);
    if h < |s.order| {
      assert HasKey(s.bufs[s.order[h]], s.dev, blk);
    } else {
      NobodyHas(s, blk);
    }
  }

  /** The element comes to the front, the others keep their order. */
  ghost predicate Fronted(order: seq<nat>, r: seq<nat>, b: nat) {
    exists i :: 0 <= i < |order| && order[i] == b && r == [b] + (order[..i] + order[i + 1..])
  }

  /** brelse gives one reference up, and the last one brings the buffer to the front of the list. */
  lemma PutAnswers(s: Cache, k: Client)
    requires Inv(s) && Enabled(s, DoPut(k))
    ensures var t, b := Apply(s, DoPut(k)), s.clients[k].b;
      && b < |s.bufs| && t.clients == s.clients[k := Away] && |t.bufs| == |s.bufs|
      && (forall c: nat | c < |s.bufs| && c != b :: t.bufs[c] == s.bufs[c])
      && t.bufs[b].refcnt == s.bufs[b].refcnt - 1 && HasKey(t.bufs[b], s.bufs[b].dev, s.bufs[b].blockno)
      && t.bufs[b].valid == s.bufs[b].valid && t.bufs[b].data == s.bufs[b].data
      && (if s.bufs[b].refcnt == 1 then Fronted(s.order, t.order, b) else t.order == s.order)
  {
    hide OrderInv;
    hide BufOk;
    hide ClientOk;
    hide Without;
    hide Fronted;
    HeldBuf(s, k);
    WithoutFronts(s, s.clients[k].b);
  }

  lemma WithoutFronts(s: Cache, b: nat)
    requires OrderInv(s) && b < |s.bufs|
    ensures Fronted(s.order, [b] + Without(s.order, b), b)
  {
    Listed(s, b);
    var i :| 0 <= i < |s.order| && s.order[i] == b;
    Distinct(s);
    WithoutIs(s.order, b, i);
  }

  lemma Listed(s: Cache, b: nat)
    requires OrderInv(s) && b < |s.bufs|
    ensures b in s.order
  {}

  lemma Distinct(s: Cache)
    requires OrderInv(s)
    ensures forall i, j | 0 <= i < j < |s.order| :: s.order[i] != s.order[j]
  {}

  lemma {:induction false} WithoutIs(order: seq<nat>, b: nat, i: nat)
    requires i < |order| && order[i] == b && forall j, k | 0 <= j < k < |order| :: order[j] != order[k]
    ensures Without(order, b) == order[..i] + order[i + 1..]
  {
    if i == 0 {
      WithoutNone(order[1..], b);
    } else {
      WithoutIs(order[1..], b, i - 1);
      assert order[..i] == [order[0]] + order[1..][..i - 1];
      assert order[1..][i..] == order[i + 1..];
    }
  }

  lemma {:induction false} WithoutNone(order: seq<nat>, b: nat)
    requires b !in order
    ensures Without(order, b) == order
  {
    if order != [] {
      WithoutNone(order[1..], b);
    }
  }

  // ----- Counting references

  /** The calls of bpin on the buffer, less those of bunpin, in the first `i` steps. */
  ghost function Pins(states: seq<Cache>, steps: seq<Step>, b: nat, i: nat): int
    requires Sound(states, steps) && i <= |steps|
  {
    if i == 0 then 0
    else
      var s, step := states[i - 1], steps[i - 1];
      Pins(states, steps, b, i - 1) +
      (if step.DoPin? && s.clients[step.k].b == b then 1 else if step == DoUnpin(b) then -1 else 0)
  }

  ghost function UsersOf(s: Cache, b: nat): set<Client> {
    set k | k in s.clients && s.clients[k] != Away && s.clients[k].b == b
  }

  lemma RefsAreUsers(s: Cache, b: nat)
    requires Inv(s) && b < |s.bufs|
    ensures s.bufs[b].refs == UsersOf(s, b) && s.bufs[b].refcnt == |UsersOf(s, b)| + s.bufs[b].pins
  {
    assert BufOk(s, b);
    forall k | k in UsersOf(s, b) ensures k in s.bufs[b].refs {
      assert ClientOk(s, k);
    }
    assert s.bufs[b].refs == UsersOf(s, b);
  }

  lemma PinsStep(s: Cache, step: Step, b: nat)
    requires Inv(s) && Enabled(s, step) && b < |s.bufs|
    ensures var t := Apply(s, step);
      |t.bufs| == |s.bufs| && t.bufs[b].pins - s.bufs[b].pins
      == if step.DoPin? && s.clients[step.k].b == b then 1 else if step == DoUnpin(b) then -1 else 0
  {
    hide OrderInv;
    hide BufOk;
    hide ClientOk;
    match step
    case DoGet(k, blk) => GetPins(s, k, blk, b);
    case DoLock(k) => HeldBuf(s, k);
    case DoFill(k) => HeldBuf(s, k);
    case DoModify(k, data) => HeldBuf(s, k);
    case DoWrite(k) => HeldBuf(s, k);
    case DoUnlock(k) => HeldBuf(s, k);
    case DoPut(k) => HeldBuf(s, k);
    case DoPin(k) => HeldBuf(s, k);
    case DoUnpin(_) =>
  }

  lemma GetPins(s: Cache, k: Client, blk: int, b: nat)
    requires Inv(s) && Enabled(s, DoGet(k, blk)) && b < |s.bufs|
    ensures |Apply(s, DoGet(k, blk)).bufs| == |s.bufs| && Apply(s, DoGet(k, blk)).bufs[b].pins == s.bufs[b].pins
  {
    hide BufOk;
    hide ClientOk;
    OrderIs(s);
  }

  /** In every run refcnt is the number of clients between bget and brelse of the buffer, and of its pins. */
  lemma RefcntCounts(states: seq<Cache>, steps: seq<Step>, b: nat, i: nat)
    requires IsRun(states, steps) && i <= |steps| && b < |states[0].bufs|
    ensures Sound(states, steps) && |states[i].bufs| == |states[0].bufs|
    ensures states[i].bufs[b].refcnt == |UsersOf(states[i], b)| + Pins(states, steps, b, i)
  {
    hide Inv;
    hide Apply;
    RunSound(states, steps);
    PinsCount(states, steps, b, i);
    RefsAreUsers(states[i], b);
  }

  lemma {:induction false} PinsCount(states: seq<Cache>, steps: seq<Step>, b: nat, i: nat)
    requires IsRun(states, steps) && Sound(states, steps) && i <= |steps| && b < |states[0].bufs|
    ensures |states[i].bufs| == |states[0].bufs| && states[i].bufs[b].pins == Pins(states, steps, b, i)
  {
    hide Inv;
    hide Apply;
    if i > 0 {
      PinsCount(states, steps, b, i - 1);
      assert Enabled(states[i - 1], steps[i - 1]) && states[i] == Apply(states[i - 1], steps[i - 1]);
      PinsStep(states[i - 1], steps[i - 1], b);
    }
  }

  // ----- The plain disk, as the clients know it

  /** `asked` maps a client to the block of its last bget, `held` to the bytes that it has. */
  datatype Plain = Plain(disk: map<int, Block>, asked: map<Client, int>, held: map<Client, Block>)

  /** One call, without any cache. */
  function PlainStep(p: Plain, step: Step): Plain {
    match step
    case DoGet(k, blk) => p.(asked := p.asked[k := blk])
    case DoFill(k) =>
      if k in p.asked && p.asked[k] in p.disk then p.(held := p.held[k := p.disk[p.asked[k]]]) else p
    case DoModify(k, data) => p.(held := p.held[k := data])
    case DoWrite(k) => if k in p.asked && k in p.held then p.(disk := p.disk[p.asked[k] := p.held[k]]) else p
    case _ => p
  }

  function PlainRun(disk: map<int, Block>, steps: seq<Step>, i: nat): Plain
    requires i <= |steps|
  {
    if i == 0 then Plain(disk, map[], map[]) else PlainStep(PlainRun(disk, steps, i - 1), steps[i - 1])
  }

  ghost predicate AgreesOn(s: Cache, p: Plain, k: Client) {
    k in s.clients && s.clients[k] != Away ==>
      && k in p.asked && p.asked[k] == s.clients[k].blk
      && (s.clients[k].Ready? ==>
            k in p.held && s.clients[k].b < |s.bufs| && s.bufs[s.clients[k].b].data == p.held[k])
  }

  ghost predicate Agrees(s: Cache, p: Plain) {
    s.disk == p.disk && forall k :: AgreesOn(s, p, k)
  }

  /** What a step leaves of another client: where it is, and its bytes. */
  lemma OthersKept(s: Cache, step: Step, j: Client)
    requires Inv(s) && Enabled(s, step) && j in s.clients && !(!step.DoUnpin? && step.k == j)
    ensures var t := Apply(s, step);
      && j in t.clients && t.clients[j] == s.clients[j] && |t.bufs| == |s.bufs|
      && (s.clients[j].Ready? ==> s.clients[j].b < |s.bufs|
                                  && t.bufs[s.clients[j].b].data == s.bufs[s.clients[j].b].data)
  {
    hide OrderInv;
    hide BufOk;
    if !step.DoUnpin? && !step.DoGet? {
      HeldBuf(s, step.k);
    }
    if s.clients[j].Ready? {
      HeldBuf(s, j);
    }
    if step.DoGet? {
      OrderIs(s);
    }
  }

  lemma OwnAgrees(s: Cache, step: Step, p: Plain)
    requires Inv(s) && Enabled(s, step) && !step.DoUnpin? && s.disk == p.disk && AgreesOn(s, p, step.k)
    ensures AgreesOn(Apply(s, step), PlainStep(p, step), step.k)
  {
    hide OrderInv;
    hide BufOk;
    hide ClientOk;
    if step.DoGet? {
      OrderIs(s);
    } else {
      HeldBuf(s, step.k);
      if step.DoFill? {
        FillsDisk(s, step.k);
      }
    }
  }

  /** bread gives what the disk has. */
  lemma FillsDisk(s: Cache, k: Client)
    requires Inv(s) && Enabled(s, DoFill(k))
    ensures var b, t := s.clients[k].b, Apply(s, DoFill(k));
      && t.clients[k] == Ready(b, s.clients[k].blk) && b < |t.bufs| && s.clients[k].blk in s.disk
      && t.bufs[b].data == s.disk[s.clients[k].blk]
  {
    HeldBuf(s, k);
  }

  lemma DiskAgrees(s: Cache, step: Step, p: Plain)
    requires Inv(s) && Enabled(s, step) && Agrees(s, p)
    ensures Apply(s, step).disk == PlainStep(p, step).disk
  {
    hide OrderInv;
    hide BufOk;
    if step.DoWrite? {
      HeldBuf(s, step.k);
      assert AgreesOn(s, p, step.k);
    }
  }

  lemma PlainOthers(p: Plain, step: Step, j: Client)
    requires !(!step.DoUnpin? && step.k == j)
    ensures var q := PlainStep(p, step);
      && (j in q.asked <==> j in p.asked) && (j in p.asked ==> q.asked[j] == p.asked[j])
      && (j in q.held <==> j in p.held) && (j in p.held ==> q.held[j] == p.held[j])
  {}

  lemma AgreesStep(s: Cache, step: Step, p: Plain)
    requires Inv(s) && Enabled(s, step) && Agrees(s, p)
    ensures Agrees(Apply(s, step), PlainStep(p, step))
  {
    hide Inv;
    hide Apply;
    hide PlainStep;
    hide Enabled;
    DiskAgrees(s, step, p);
    var t, q := Apply(s, step), PlainStep(p, step);
    forall j ensures AgreesOn(t, q, j) {
      assert AgreesOn(s, p, j);
      if !step.DoUnpin? && step.k == j {
        OwnAgrees(s, step, p);
      } else {
        SameClients(s, step);
        if j in s.clients {
          OthersKept(s, step, j);
          PlainOthers(p, step, j);
        }
      }
    }
  }

  lemma SameClients(s: Cache, step: Step)
    requires Inv(s) && Enabled(s, step)
    ensures Apply(s, step).clients.Keys == s.clients.Keys
  {
    hide OrderInv;
    hide BufOk;
    hide ClientOk;
    if !step.DoUnpin? && !step.DoGet? {
      HeldBuf(s, step.k);
    }
    if step.DoGet? {
      OrderIs(s);
    }
  }

  /** In every run from binit the disk holds what it would without the cache, and a client that has a buffer
      has the bytes that it would have without the cache, of the block that it last asked for. */
  lemma {:induction false} CacheIsPlain(states: seq<Cache>, steps: seq<Step>, i: nat)
    requires IsRun(states, steps) && i <= |steps|
    ensures Agrees(states[i], PlainRun(states[0].disk, steps, i))
  {
    hide Inv;
    hide Apply;
    hide PlainStep;
    hide Agrees;
    if i == 0 {
      AgreesInit(states[0]);
    } else {
      CacheIsPlain(states, steps, i - 1);
      RunInv(states, steps, i - 1);
      assert Next(states[i - 1], steps[i - 1], states[i]);
      AgreesStep(states[i - 1], steps[i - 1], PlainRun(states[0].disk, steps, i - 1));
    }
  }

  lemma AgreesInit(s: Cache)
    requires Init(s)
    ensures Agrees(s, Plain(s.disk, map[], map[]))
  {}

  /** The block that client `k` asked for in its last bget before step `i`. */
  function LastAsked(steps: seq<Step>, k: Client, i: nat): Option<int>
    requires i <= |steps|
  {
    if i == 0 then None
    else if steps[i - 1].DoGet? && steps[i - 1].k == k then Some(steps[i - 1].blk)
    else LastAsked(steps, k, i - 1)
  }

  lemma {:induction false} AskedIs(disk: map<int, Block>, steps: seq<Step>, k: Client, i: nat)
    requires i <= |steps|
    ensures var p := PlainRun(disk, steps, i); LastAsked(steps, k, i) == if k in p.asked then Some(p.asked[k]) else None
  {
    if i > 0 {
      AskedIs(disk, steps, k, i - 1);
    }
  }

  /** bread and bwrite concern the block of the last bget, and bread gives what was last written to it. */
  lemma ReadsAsked(states: seq<Cache>, steps: seq<Step>, i: nat)
    requires IsRun(states, steps) && i < |steps|
    ensures Sound(states, steps)
    ensures var step, e := steps[i], Seen(states[i], steps[i]);
      && (step.DoFill? ==> e.ReadBlock? && LastAsked(steps, step.k, i) == Some(e.blk)
                           && e.blk in states[0].disk && e.data == LastWritten(states, steps, i, e.blk))
      && (step.DoWrite? ==> e.WriteBlock? && LastAsked(steps, step.k, i) == Some(e.blk))
  {
    hide Inv;
    hide Apply;
    ReadsLastWritten(states, steps, i);
    CacheIsPlain(states, steps, i);
    var step, p := steps[i], PlainRun(states[0].disk, steps, i);
    assert Enabled(states[i], step);
    if step.DoFill? || step.DoWrite? {
      assert AgreesOn(states[i], p, step.k);
      AskedIs(states[0].disk, steps, step.k, i);
    }
  }
}
