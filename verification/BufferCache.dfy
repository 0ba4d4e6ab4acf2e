/** The block buffer cache (kernel/fs/buf.c) under any number of clients: it agrees with the plain disk. A
    step ends where a client gives a lock back or waits for one; a disk transfer is one step. */
module BufferCache {
  import opened Wrappers

  type Block = seq<int>
  type Client = nat

  /** `used` (bget has returned the buffer before), `dirty` (changed and not yet written), `refs` (the clients
      that hold a reference) and `pins` are auxiliary. */
  datatype Buf = Buf(valid: bool, dev: int, blockno: int, refcnt: int, data: Block, locker: Option<Client>,
                     used: bool, dirty: bool, refs: set<Client>, pins: nat)

  /** Where a client is: not at the cache; waiting for the sleep lock; holding it before and after the block
      is read; and between giving the lock back and giving up its reference. */
  datatype At = Away | Waiting(b: nat, blk: int) | Locked(b: nat, blk: int) | Ready(b: nat,
      blk: int) | Leaving(b: nat, blk: int)

  /** `bufs` is the array, `order` the list of buffers, `dev` the one device. */
  datatype Cache = Cache(bufs: seq<Buf>, order: seq<nat>, dev: int, disk: map<int, Block>, clients: map<Client, At>,
      panic: bool)

  predicate HasKey(b: Buf, dev: int, blk: int) {
    b.dev == dev && b.blockno == blk
  }

  /** The first place from `i` on whose buffer has the key; the length of the list if there is none. */
  function Find(bufs: seq<Buf>, order: seq<nat>, dev: int, blk: int, i: nat): (j: nat)
    requires i <= |order|
    ensures i <= j <= |order|
    decreases |order| - i
  {
    if i == |order| || (order[i] < |bufs| && HasKey(bufs[order[i]], dev, blk)) then i
        else Find(bufs, order, dev, blk, i + 1)
  }

  /** The first place from `i` on whose buffer is not referenced. */
  function FindFree(bufs: seq<Buf>, order: seq<nat>, i: nat): (j: nat)
    requires i <= |order|
    ensures i <= j <= |order|
    decreases |order| - i
  {
    if i == |order| || (order[i] < |bufs| && bufs[order[i]].refcnt == 0) then i else FindFree(bufs, order, i + 1)
  }

  lemma {:induction false} FindIs(bufs: seq<Buf>, order: seq<nat>, dev: int, blk: int, i: nat)
    requires i <= |order| && forall k | 0 <= k < |order| :: order[k] < |bufs|
    ensures var j := Find(bufs, order, dev, blk, i);
      (forall k | i <= k < j :: !HasKey(bufs[order[k]], dev, blk)) && (j < |order| ==> HasKey(bufs[order[j]], dev, blk))
    decreases |order| - i
  {
    if i < |order| && !HasKey(bufs[order[i]], dev, blk) {
      FindIs(bufs, order, dev, blk, i + 1);
    }
  }

  lemma {:induction false} FindFreeIs(bufs: seq<Buf>, order: seq<nat>, i: nat)
    requires i <= |order| && forall k | 0 <= k < |order| :: order[k] < |bufs|
    ensures var j := FindFree(bufs, order, i);
      (forall k | i <= k < j :: bufs[order[k]].refcnt != 0) && (j < |order| ==> bufs[order[j]].refcnt == 0)
    decreases |order| - i
  {
    if i < |order| && bufs[order[i]].refcnt != 0 {
      FindFreeIs(bufs, order, i + 1);
    }
  }

  /** The loop of bget: the buffer that has the key, or else the first that is not referenced. */
  method Scan(bufs: seq<Buf>, order: seq<nat>, dev: int, blk: int) returns (hit: bool, b: nat, found: bool)
    requires forall k | 0 <= k < |order| :: order[k] < |bufs|
    ensures hit <==> Find(bufs, order, dev, blk, 0) < |order|
    ensures hit ==> found && b == order[Find(bufs, order, dev, blk, 0)]
    ensures !hit ==> (found <==> FindFree(bufs, order, 0) < |order|)
    ensures !hit && found ==> b == order[FindFree(bufs, order, 0)]
  {
    hit, b, found := false, 0, false;
    var i := 0;
    while i < |order|
      invariant 0 <= i <= |order| && Find(bufs, order, dev, blk, i) == Find(bufs, order, dev, blk, 0)
      invariant !found ==> FindFree(bufs, order, i) == FindFree(bufs, order, 0)
      invariant found ==> FindFree(bufs, order, 0) < |order| && b == order[FindFree(bufs, order, 0)]
    {
      var e := order[i];
      if bufs[e].dev == dev && bufs[e].blockno == blk {
        return true, e, true;
      }
      if bufs[e].refcnt == 0 && !found {
        b, found := e, true;
      }
      i := i + 1;
    }
  }

  // ----- Steps

  function SetBuf(s: Cache, b: nat, x: Buf): Cache
    requires b < |s.bufs|
  {
    s.(bufs := s.bufs[b := x])
  }

  function Move(s: Cache, k: Client, at: At): Cache {
    s.(clients := s.clients[k := at])
  }

  /** bget up to the sleep lock. */
  function Get(s: Cache, k: Client, blk: int): Cache
    requires forall i | 0 <= i < |s.order| :: s.order[i] < |s.bufs|
  {
    var h, f := Find(s.bufs, s.order, s.dev, blk, 0), FindFree(s.bufs, s.order, 0);
    if h < |s.order| then
      var b := s.order[h];
      Move(SetBuf(s, b, s.bufs[b].(refcnt := s.bufs[b].refcnt + 1, used := true, refs := s.bufs[b].refs + {k})), k,
          Waiting(b, blk))
    else if f == |s.order| then
      s.(panic := true)
    else
      var b := s.order[f];
      Move(SetBuf(s, b, s.bufs[b].(dev := s.dev, blockno := blk, valid := false, refcnt := 1, used := true,
          refs := {k})), k, Waiting(b, blk))
  }

  function Without(order: seq<nat>, b: nat): seq<nat> {
    if order == [] then [] else (if order[0] == b then [] else [order[0]]) + Without(order[1..], b)
  }

  /** brelse after the sleep lock. */
  function Put(s: Cache, k: Client, b: nat): Cache
    requires b < |s.bufs|
  {
    var x := s.bufs[b].(refcnt := s.bufs[b].refcnt - 1, refs := s.bufs[b].refs - {k});
    var t := Move(SetBuf(s, b, x), k, Away);
    if x.refcnt == 0 then t.(order := [b] + Without(s.order, b)) else t
  }

  datatype Step =
    | DoGet(k: Client, blk: int)
    | DoLock(k: Client)                  // acquiresleeplock in bget
    | DoFill(k: Client)                  // bread: read the block if it is not valid
    | DoModify(k: Client, data: Block)   // the client changes the data
    | DoWrite(k: Client)                 // bwrite
    | DoUnlock(k: Client)                // releasesleeplock in brelse
    | DoPut(k: Client)
    | DoPin(k: Client)
    | DoUnpin(b: nat)

  /** A client unlocks only what it has written, pins what it holds, and takes away only pins that are there. */
  predicate Enabled(s: Cache, step: Step) {
    match step
    case DoGet(k, blk) => k in s.clients && s.clients[k] == Away && blk in s.disk
    case DoLock(k) => k in s.clients && s.clients[k].Waiting? && s.clients[k].b < |s.bufs|
        && s.bufs[s.clients[k].b].locker == None
    case DoFill(k) => k in s.clients && s.clients[k].Locked?
    case DoModify(k, data) => k in s.clients && s.clients[k].Ready?
    case DoWrite(k) => k in s.clients && s.clients[k].Ready?
    case DoUnlock(k) => k in s.clients && s.clients[k].Ready? && s.clients[k].b < |s.bufs|
        && !s.bufs[s.clients[k].b].dirty
    case DoPut(k) => k in s.clients && s.clients[k].Leaving?
    case DoPin(k) => k in s.clients && s.clients[k].Ready?
    case DoUnpin(b) => b < |s.bufs| && s.bufs[b].pins > 0
  }

  // ----- The invariant

  /** The list has every buffer once, and those never used come last. */
  ghost predicate OrderInv(s: Cache) {
    && |s.order| == |s.bufs|
    && (forall i {:trigger s.order[i]} | 0 <= i < |s.order| :: s.order[i] < |s.bufs|)
    && (forall i, j | 0 <= i < j < |s.order| :: s.order[i] != s.order[j])
    && (forall b: nat {:trigger b in s.order} | b < |s.bufs| :: b in s.order)
    && (forall i, j | 0 <= i < j < |s.order| :: s.bufs[s.order[j]].used ==> s.bufs[s.order[i]].used)
  }

  /** What one buffer is like. */
  ghost predicate BufOk(s: Cache, b: nat)
    requires b < |s.bufs|
  {
    var x := s.bufs[b];
    && x.refcnt == |x.refs| + x.pins
    && (if x.used then x.dev == s.dev && x.blockno in s.disk
        else HasKey(x, 0, 0) && x.refcnt == 0 && !x.valid)
    && (x.valid && !x.dirty ==> x.blockno in s.disk && x.data == s.disk[x.blockno])
    && (x.dirty ==> x.locker.Some?)
    && (x.locker.Some? ==> x.locker.value in s.clients
                           && (s.clients[x.locker.value].Locked? || s.clients[x.locker.value].Ready?)
                           && s.clients[x.locker.value].b == b)
    && (forall k | k in x.refs :: k in s.clients && s.clients[k] != Away && s.clients[k].b == b)
  }

  ghost predicate ClientOk(s: Cache, k: Client)
    requires k in s.clients
  {
    var at := s.clients[k];
    at != Away ==>
      && at.b < |s.bufs| && s.bufs[at.b].used && HasKey(s.bufs[at.b], s.dev, at.blk) && k in s.bufs[at.b].refs
      && (at.Locked? || at.Ready? ==> s.bufs[at.b].locker == Some(k))
      && (at.Ready? ==> s.bufs[at.b].valid)
      && (at.Locked? ==> !s.bufs[at.b].dirty)
  }

  ghost predicate Inv(s: Cache) {
    && OrderInv(s)
    && (forall b: nat {:trigger s.bufs[b]} | b < |s.bufs| :: BufOk(s, b))
    && (forall k {:trigger s.clients[k]} | k in s.clients :: ClientOk(s, k))
    && (forall b: nat, c: nat {:trigger s.bufs[b], s.bufs[c]} | b < |s.bufs| && c < |s.bufs| && b != c
       && s.bufs[b].used && s.bufs[c].used ::
          s.bufs[b].blockno != s.bufs[c].blockno)
  }

  lemma HeldBuf(s: Cache, k: Client)
    requires Inv(s) && k in s.clients && s.clients[k] != Away
    ensures s.clients[k].b < |s.bufs| && s.bufs[s.clients[k].b].blockno in s.disk
    ensures ClientOk(s, k) && BufOk(s, s.clients[k].b)
  {
    assert ClientOk(s, k);
    assert BufOk(s, s.clients[k].b);
  }

  function Apply(s: Cache, step: Step): Cache
    requires Enabled(s, step) && Inv(s)
  {
    match step
    case DoGet(k, blk) => Get(s, k, blk)
    case DoLock(k) =>
      HeldBuf(s, k);
      var b := s.clients[k].b;
      Move(SetBuf(s, b, s.bufs[b].(locker := Some(k))), k, Locked(b, s.clients[k].blk))
    case DoFill(k) =>
      HeldBuf(s, k);
      var b := s.clients[k].b;
      var x := if s.bufs[b].valid then s.bufs[b] else s.bufs[b].(data := s.disk[s.bufs[b].blockno], valid := true);
      Move(SetBuf(s, b, x), k, Ready(b, s.clients[k].blk))
    case DoModify(k, data) =>
      HeldBuf(s, k);
      var b := s.clients[k].b;
      SetBuf(s, b, s.bufs[b].(data := data, dirty := true))
    case DoWrite(k) =>
      HeldBuf(s, k);
      var b := s.clients[k].b;
      SetBuf(s, b, s.bufs[b].(dirty := false)).(disk := s.disk[s.bufs[b].blockno := s.bufs[b].data])
    case DoUnlock(k) =>
      HeldBuf(s, k);
      var b := s.clients[k].b;
      Move(SetBuf(s, b, s.bufs[b].(locker := None)), k, Leaving(b, s.clients[k].blk))
    case DoPut(k) =>
      HeldBuf(s, k);
      Put(s, k, s.clients[k].b)
    case DoPin(k) =>
      HeldBuf(s, k);
      var b := s.clients[k].b;
      SetBuf(s, b, s.bufs[b].(refcnt := s.bufs[b].refcnt + 1, pins := s.bufs[b].pins + 1))
    case DoUnpin(b) => SetBuf(s, b, s.bufs[b].(refcnt := s.bufs[b].refcnt - 1, pins := s.bufs[b].pins - 1))
  }

  /** binit: zeroed buffers, all with the key (0, 0). */
  predicate Init(s: Cache) {
    && (forall b | 0 <= b < |s.bufs| :: s.bufs[b] == Buf(false, 0, 0, 0, s.bufs[b].data, None, false, false, {}, 0))
    && s.order == seq(|s.bufs|, i => i) && (forall k | k in s.clients :: s.clients[k] == Away) && !s.panic
  }

  lemma InitInv(s: Cache)
    requires Init(s)
    ensures Inv(s)
  {
    forall b: nat | b < |s.bufs| ensures b in s.order && BufOk(s, b) {
      assert s.order[b] == b;
    }
    forall k | k in s.clients ensures ClientOk(s, k) {}
  }

  /** What bread returns is what the disk has, for as long as the client does not change it. */
  lemma ReadsDisk(s: Cache, k: Client)
    requires Inv(s) && k in s.clients && s.clients[k].Ready?
    ensures s.clients[k].b < |s.bufs|
    ensures var x := s.bufs[s.clients[k].b];
      x.blockno == s.clients[k].blk && x.dev == s.dev && x.locker == Some(k)
          && (!x.dirty ==> x.blockno in s.disk && x.data == s.disk[x.blockno])
  {
    assert ClientOk(s, k);
    assert BufOk(s, s.clients[k].b);
  }

  /** Two clients never hold the same block at the same time. */
  lemma OneAtATime(s: Cache, j: Client, k: Client)
    requires Inv(s) && j in s.clients && k in s.clients && s.clients[j].Ready? && s.clients[k].Ready?
             && s.clients[j].blk == s.clients[k].blk
    ensures j == k
  {
    assert ClientOk(s, j) && ClientOk(s, k);
  }

  // ----- Preservation

  /** A step that changes one buffer and one client, neither keys nor the list. */
  lemma OneChanges(s: Cache, t: Cache, b: nat, k: Client)
    requires Inv(s) && b < |s.bufs| && k in s.clients && t.order == s.order && t.dev == s.dev
             && t.clients.Keys == s.clients.Keys
    requires |t.bufs| == |s.bufs| && forall c: nat {:trigger t.bufs[c]} | c < |s.bufs| && c != b ::
              t.bufs[c] == s.bufs[c]
    requires forall j {:trigger t.clients[j]} | j in s.clients && j != k :: t.clients[j] == s.clients[j]
    requires s.bufs[b].used && t.bufs[b].used && t.bufs[b].dev == s.bufs[b].dev
             && t.bufs[b].blockno == s.bufs[b].blockno
    requires t.disk.Keys == s.disk.Keys && forall x | x in s.disk && x != s.bufs[b].blockno :: t.disk[x] == s.disk[x]
    requires s.clients[k] != Away ==> s.clients[k].b == b
    requires BufOk(t, b) && ClientOk(t, k)
    requires forall j | j in s.bufs[b].refs && j != k :: j in t.bufs[b].refs
    requires forall j | s.bufs[b].locker == Some(j) && j != k ::
              t.bufs[b].locker == Some(j) && t.bufs[b].valid == s.bufs[b].valid && t.bufs[b].dirty == s.bufs[b].dirty
    ensures Inv(t)
  {
    forall c: nat | c < |t.bufs| ensures BufOk(t, c) {
      assert BufOk(s, c);
      if c != b {
        OtherBuf(s, t, b, c, k);
      }
    }
    forall j | j in t.clients ensures ClientOk(t, j) {
      assert ClientOk(s, j);
    }
  }

  lemma OtherBuf(s: Cache, t: Cache, b: nat, c: nat, k: Client)
    requires Inv(s) && b < |s.bufs| && c < |s.bufs| && b != c && |t.bufs| == |s.bufs| && t.bufs[c] == s.bufs[c]
             && t.dev == s.dev
    requires t.clients.Keys == s.clients.Keys && k in s.clients && (s.clients[k] != Away ==> s.clients[k].b == b)
    requires forall j {:trigger t.clients[j]} | j in s.clients && j != k :: t.clients[j] == s.clients[j]
    requires s.bufs[b].used && t.disk.Keys == s.disk.Keys
             && forall x | x in s.disk && x != s.bufs[b].blockno :: t.disk[x] == s.disk[x]
    ensures BufOk(t, c)
  {
    assert BufOk(s, c);
    if s.bufs[c].used {
      assert s.bufs[b].blockno != s.bufs[c].blockno;
    }
  }

  lemma LockInv(s: Cache, k: Client)
    requires Inv(s) && Enabled(s, DoLock(k))
    ensures Inv(Apply(s, DoLock(k)))
  {
    HeldBuf(s, k);
    OneChanges(s, Apply(s, DoLock(k)), s.clients[k].b, k);
  }

  lemma FillInv(s: Cache, k: Client)
    requires Inv(s) && Enabled(s, DoFill(k))
    ensures Inv(Apply(s, DoFill(k)))
  {
    HeldBuf(s, k);
    OneChanges(s, Apply(s, DoFill(k)), s.clients[k].b, k);
  }

  lemma ModifyInv(s: Cache, k: Client, data: Block)
    requires Inv(s) && Enabled(s, DoModify(k, data))
    ensures Inv(Apply(s, DoModify(k, data)))
  {
    HeldBuf(s, k);
    OneChanges(s, Apply(s, DoModify(k, data)), s.clients[k].b, k);
  }

  lemma WriteInv(s: Cache, k: Client)
    requires Inv(s) && Enabled(s, DoWrite(k))
    ensures Inv(Apply(s, DoWrite(k)))
  {
    HeldBuf(s, k);
    OneChanges(s, Apply(s, DoWrite(k)), s.clients[k].b, k);
  }

  lemma UnlockInv(s: Cache, k: Client)
    requires Inv(s) && Enabled(s, DoUnlock(k))
    ensures Inv(Apply(s, DoUnlock(k)))
  {
    HeldBuf(s, k);
    OneChanges(s, Apply(s, DoUnlock(k)), s.clients[k].b, k);
  }

  lemma PinInv(s: Cache, k: Client)
    requires Inv(s) && Enabled(s, DoPin(k))
    ensures Inv(Apply(s, DoPin(k)))
  {
    HeldBuf(s, k);
    OneChanges(s, Apply(s, DoPin(k)), s.clients[k].b, k);
  }

  /** Only a buffer that is used can be pinned. */
  lemma UnpinInv(s: Cache, b: nat)
    requires Inv(s) && Enabled(s, DoUnpin(b))
    ensures Inv(Apply(s, DoUnpin(b)))
  {
    assert BufOk(s, b);
    var t := Apply(s, DoUnpin(b));
    forall c: nat | c < |t.bufs| ensures BufOk(t, c) {
      assert BufOk(s, c);
    }
    forall j | j in t.clients ensures ClientOk(t, j) {
      assert ClientOk(s, j);
    }
  }

  // ----- brelse

  lemma {:induction false} WithoutHas(order: seq<nat>, b: nat)
    requires forall i, j | 0 <= i < j < |order| :: order[i] != order[j]
    ensures var r := Without(order, b);
      && (forall x :: x in r <==> x in order && x != b)
      && (forall i, j | 0 <= i < j < |r| :: r[i] != r[j])
      && |r| == (if b in order then |order| - 1 else |order|)
  {
    if order != [] {
      var rest := order[1..];
      assert forall i | 0 <= i < |rest| :: rest[i] == order[i + 1];
      WithoutHas(rest, b);
      assert order == [order[0]] + rest;
      assert order[0] !in rest;
      var r := Without(rest, b);
      assert forall i | 0 <= i < |r| :: r[i] in r && r[i] != order[0];
    }
  }

  ghost predicate UsedFirst(bufs: seq<Buf>, order: seq<nat>) {
    && (forall i | 0 <= i < |order| :: order[i] < |bufs|)
    && forall i, j | 0 <= i < j < |order| :: bufs[order[j]].used ==> bufs[order[i]].used
  }

  lemma {:induction false} WithoutUsed(bufs: seq<Buf>, order: seq<nat>, b: nat)
    requires UsedFirst(bufs, order)
    ensures UsedFirst(bufs, Without(order, b)) && forall x | x in Without(order, b) :: x in order
  {
    if order != [] {
      var rest := order[1..];
      assert forall i | 0 <= i < |rest| :: rest[i] == order[i + 1];
      WithoutUsed(bufs, rest, b);
      var r := Without(rest, b);
      if order[0] != b {
        forall j | 0 <= j < |r| && bufs[r[j]].used ensures bufs[order[0]].used {
          assert r[j] in rest;
          var i :| 0 <= i < |rest| && rest[i] == r[j];
          assert order[i + 1] == r[j];
        }
      }
    }
  }

  /** Moving a used buffer to the front keeps those never used at the end. */
  lemma FrontOrder(s: Cache, t: Cache, b: nat)
    requires OrderInv(s) && b < |s.bufs| && |t.bufs| == |s.bufs| && s.bufs[b].used
             && t.order == [b] + Without(s.order, b)
    requires forall c: nat {:trigger t.bufs[c]} | c < |s.bufs| :: t.bufs[c].used == s.bufs[c].used
    ensures OrderInv(t)
  {
    var r := Without(s.order, b);
    WithoutHas(s.order, b);
    WithoutUsed(s.bufs, s.order, b);
    forall c: nat | c < |t.bufs| ensures c in t.order {
      if c != b {
        assert c in r;
      }
    }
    forall i | 0 <= i < |r| ensures r[i] < |s.bufs| && r[i] != b {
      assert r[i] in r;
    }
  }

  lemma PutInv(s: Cache, k: Client)
    requires Inv(s) && Enabled(s, DoPut(k))
    ensures Inv(Apply(s, DoPut(k)))
  {
    hide OrderInv;
    HeldBuf(s, k);
    var b, t := s.clients[k].b, Apply(s, DoPut(k));
    var u := t.(order := s.order);
    SameOrder(s, u);
    OneChangesNoOrder(s, u, b, k);
    if t.bufs[b].refcnt == 0 {
      FrontOrder(s, t, b);
    } else {
      assert t == u;
    }
    OtherParts(u, t);
  }

  lemma SameOrder(s: Cache, t: Cache)
    requires OrderInv(s) && t.order == s.order && |t.bufs| == |s.bufs|
    requires forall c: nat {:trigger t.bufs[c]} | c < |s.bufs| :: t.bufs[c].used == s.bufs[c].used
    ensures OrderInv(t)
  {}

  lemma OneChangesNoOrder(s: Cache, u: Cache, b: nat, k: Client)
    requires Inv(s) && k in s.clients && s.clients[k].Leaving? && s.clients[k].b == b && b < |s.bufs|
    requires var x := s.bufs[b].(refcnt := s.bufs[b].refcnt - 1, refs := s.bufs[b].refs - {k});
             u == Move(SetBuf(s, b, x), k, Away)
    ensures Inv(u)
  {
    HeldBuf(s, k);
    OneChanges(s, u, b, k);
  }

  lemma OtherParts(u: Cache, t: Cache)
    requires Inv(u) && OrderInv(t) && t == u.(order := t.order)
    ensures Inv(t)
  {
    forall c: nat | c < |t.bufs| ensures BufOk(t, c) {
      assert BufOk(u, c);
    }
    forall j | j in t.clients ensures ClientOk(t, j) {
      assert ClientOk(u, j);
    }
  }

  // ----- bget

  /** A hit is used already, or it is the first buffer never used. */
  lemma HitOrder(s: Cache, t: Cache, h: nat)
    requires OrderInv(s) && h < |s.order| && t.order == s.order && |t.bufs| == |s.bufs|
    requires forall i | 0 <= i < h :: s.bufs[s.order[i]].used
    requires forall c: nat {:trigger t.bufs[c]} | c < |s.bufs| :: t.bufs[c].used == (s.bufs[c].used || c == s.order[h])
    ensures OrderInv(t)
  {
    forall i, j | 0 <= i < j < |t.order| && t.bufs[t.order[j]].used ensures t.bufs[t.order[i]].used {
      if !s.bufs[s.order[j]].used {
        assert s.order[j] == s.order[h];
        assert j == h;
      }
    }
  }

  /** bget cannot serve the block: every buffer is referenced, and none has it. */
  ghost predicate NoBuffer(s: Cache, blk: int) {
    forall b: nat | b < |s.bufs| :: s.bufs[b].refcnt != 0 && !HasKey(s.bufs[b], s.dev, blk)
  }

  lemma GetInv(s: Cache, k: Client, blk: int)
    requires Inv(s) && Enabled(s, DoGet(k, blk))
    ensures Inv(Apply(s, DoGet(k, blk)))
    ensures Apply(s, DoGet(k, blk)).panic <==> s.panic || NoBuffer(s, blk)
  {
    OrderIs(s);
    FindIs(s.bufs, s.order, s.dev, blk, 0);
    FindFreeIs(s.bufs, s.order, 0);
    var h, f := Find(s.bufs, s.order, s.dev, blk, 0), FindFree(s.bufs, s.order, 0);
    if h < |s.order| {
      HitInv(s, k, blk, h);
    } else if f < |s.order| {
      NobodyHas(s, blk);
      TakeOverInv(s, k, blk, f);
    } else {
      NobodyHas(s, blk);
      NobodyFree(s);
      var t := Apply(s, DoGet(k, blk));
      PanicKeeps(s, t);
    }
  }

  lemma PanicKeeps(s: Cache, t: Cache)
    requires Inv(s) && t == s.(panic := true)
    ensures Inv(t)
  {
    forall c: nat | c < |t.bufs| ensures BufOk(t, c) {
      assert BufOk(s, c);
    }
    forall j | j in t.clients ensures ClientOk(t, j) {
      assert ClientOk(s, j);
    }
  }

  lemma NobodyHas(s: Cache, blk: int)
    requires OrderInv(s) && forall i | 0 <= i < |s.order| :: !HasKey(s.bufs[s.order[i]], s.dev, blk)
    ensures forall b: nat | b < |s.bufs| :: !HasKey(s.bufs[b], s.dev, blk)
  {
    forall b: nat | b < |s.bufs| ensures !HasKey(s.bufs[b], s.dev, blk) {
      assert b in s.order;
    }
  }

  lemma NobodyFree(s: Cache)
    requires OrderInv(s) && forall i | 0 <= i < |s.order| :: s.bufs[s.order[i]].refcnt != 0
    ensures forall b: nat | b < |s.bufs| :: s.bufs[b].refcnt != 0
  {
    forall b: nat | b < |s.bufs| ensures s.bufs[b].refcnt != 0 {
      assert b in s.order;
    }
  }

  /** With the key of a fresh buffer, the first match is used or the very first fresh buffer. */
  lemma HitFirst(s: Cache, blk: int, h: nat)
    requires Inv(s) && h < |s.order| && HasKey(s.bufs[s.order[h]], s.dev, blk)
    requires forall i | 0 <= i < h :: !HasKey(s.bufs[s.order[i]], s.dev, blk)
    ensures forall i | 0 <= i < h :: s.bufs[s.order[i]].used
    ensures !s.bufs[s.order[h]].used ==> forall b: nat | b < |s.bufs| && s.bufs[b].used :: s.bufs[b].blockno != blk
  {
    assert BufOk(s, s.order[h]);
    forall i | 0 <= i < h ensures s.bufs[s.order[i]].used {
      assert BufOk(s, s.order[i]);
    }
    if !s.bufs[s.order[h]].used {
      forall b: nat | b < |s.bufs| && s.bufs[b].used ensures s.bufs[b].blockno != blk {
        assert BufOk(s, b);
        assert b in s.order;
        var i :| 0 <= i < |s.order| && s.order[i] == b;
        assert i < h;
      }
    }
  }

  lemma HitInv(s: Cache, k: Client, blk: int, h: nat)
    requires Inv(s) && Enabled(s, DoGet(k, blk)) && h == Find(s.bufs, s.order, s.dev, blk, 0) < |s.order|
    requires HasKey(s.bufs[s.order[h]], s.dev, blk) && forall i | 0 <= i < h :: !HasKey(s.bufs[s.order[i]], s.dev, blk)
    ensures Inv(Get(s, k, blk))
  {
    hide OrderInv;
    OrderIs(s);
    HitFirst(s, blk, h);
    var t, b := Get(s, k, blk), s.order[h];
    assert BufOk(s, b);
    assert ClientOk(s, k);
    RefsMore(s.bufs[b].refs, k);
    HitOrder(s, t, h);
    GainedParts(s, t, b, k, blk);
  }

  lemma OrderIs(s: Cache)
    requires OrderInv(s)
    ensures forall i {:trigger s.order[i]} | 0 <= i < |s.order| :: s.order[i] < |s.bufs|
  {}

  lemma RefsMore(refs: set<Client>, k: Client)
    requires k !in refs
    ensures |refs + {k}| == |refs| + 1
  {}

  /** A buffer gets a key of its own and a new client. */
  lemma GainedParts(s: Cache, t: Cache, b: nat, k: Client, blk: int)
    requires Inv(s) && b < |s.bufs| && k in s.clients && s.clients[k] == Away && blk in s.disk && OrderInv(t)
    requires t.dev == s.dev && t.disk == s.disk && t.clients == s.clients[k := Waiting(b, blk)] && |t.bufs| == |s.bufs|
    requires forall c: nat {:trigger t.bufs[c]} | c < |s.bufs| && c != b :: t.bufs[c] == s.bufs[c]
    requires var x, y := s.bufs[b], t.bufs[b];
      && y.used && HasKey(y, s.dev, blk) && y.refs == x.refs + {k} && y.refcnt == |y.refs| + y.pins
         && y.locker == x.locker && y.dirty == x.dirty
      && (x.refs != {} ==> y.blockno == x.blockno && y.valid == x.valid)
      && (y.valid ==> x.valid && y.data == x.data && y.blockno == x.blockno)
    requires forall c: nat | c < |s.bufs| && c != b && s.bufs[c].used :: s.bufs[c].blockno != blk
    ensures Inv(t)
  {
    assert BufOk(s, b);
    forall c: nat | c < |t.bufs| ensures BufOk(t, c) {
      assert BufOk(s, c);
    }
    forall j | j in t.clients ensures ClientOk(t, j) {
      assert ClientOk(s, j);
    }
  }

  lemma TakeOverInv(s: Cache, k: Client, blk: int, f: nat)
    requires Inv(s) && Enabled(s, DoGet(k, blk)) && Find(s.bufs, s.order, s.dev, blk, 0) == |s.order|
    requires f == FindFree(s.bufs, s.order, 0) < |s.order| && s.bufs[s.order[f]].refcnt == 0
    requires forall i | 0 <= i < f :: s.bufs[s.order[i]].refcnt != 0
    requires forall b: nat | b < |s.bufs| :: !HasKey(s.bufs[b], s.dev, blk)
    ensures Inv(Get(s, k, blk))
  {
    hide OrderInv;
    OrderIs(s);
    var t, b := Get(s, k, blk), s.order[f];
    assert BufOk(s, b);
    assert s.bufs[b].refs == {};
    forall i | 0 <= i < f ensures s.bufs[s.order[i]].used {
      assert BufOk(s, s.order[i]);
    }
    HitOrder(s, t, f);
    forall c: nat | c < |s.bufs| && s.bufs[c].used ensures s.bufs[c].blockno != blk {
      assert BufOk(s, c);
    }
    NotLocked(s, b);
    GainedParts(s, t, b, k, blk);
  }

  /** Nobody locks a buffer that nobody refers to. */
  lemma NotLocked(s: Cache, b: nat)
    requires Inv(s) && b < |s.bufs| && s.bufs[b].refs == {}
    ensures s.bufs[b].locker == None && !s.bufs[b].dirty
  {
    assert BufOk(s, b);
    if s.bufs[b].locker.Some? {
      LockerRefers(s, b);
    }
  }

  lemma LockerRefers(s: Cache, b: nat)
    requires Inv(s) && b < |s.bufs| && s.bufs[b].locker.Some?
    ensures s.bufs[b].locker.value in s.bufs[b].refs
  {
    assert BufOk(s, b);
    assert ClientOk(s, s.bufs[b].locker.value);
  }

  lemma StepInv(s: Cache, step: Step)
    requires Inv(s) && Enabled(s, step)
    ensures Inv(Apply(s, step))
  {
    hide Inv;
    hide Apply;
    match step
    case DoGet(k, blk) => GetInv(s, k, blk);
    case DoLock(k) => LockInv(s, k);
    case DoFill(k) => FillInv(s, k);
    case DoModify(k, data) => ModifyInv(s, k, data);
    case DoWrite(k) => WriteInv(s, k);
    case DoUnlock(k) => UnlockInv(s, k);
    case DoPut(k) => PutInv(s, k);
    case DoPin(k) => PinInv(s, k);
    case DoUnpin(b) => UnpinInv(s, b);
  }

  // ----- Refinement of the plain disk

  /** What a client sees of the disk: blocks read, with what they hold, and blocks written. */
  datatype Event = Nothing | ReadBlock(blk: int, data: Block) | WriteBlock(blk: int, data: Block)

  function Seen(s: Cache, step: Step): Event
    requires Enabled(s, step) && Inv(s)
  {
    match step
    case DoFill(k) =>
      HeldBuf(s, k);
      ReadBlock(s.clients[k].blk, Apply(s, step).bufs[s.clients[k].b].data)
    case DoWrite(k) =>
      HeldBuf(s, k);
      WriteBlock(s.clients[k].blk, s.bufs[s.clients[k].b].data)
    case _ => Nothing
  }

  /** The plain disk allows the event. */
  predicate DiskStep(d: map<int, Block>, e: Event, d2: map<int, Block>) {
    match e
    case Nothing => d2 == d
    case ReadBlock(blk, data) => blk in d && d[blk] == data && d2 == d
    case WriteBlock(blk, data) => d2 == d[blk := data]
  }

  lemma Refines(s: Cache, step: Step)
    requires Inv(s) && Enabled(s, step)
    ensures DiskStep(s.disk, Seen(s, step), Apply(s, step).disk)
  {
    match step
    case DoFill(k) => HeldBuf(s, k);
    case DoWrite(k) => HeldBuf(s, k);
    case _ =>
  }

  /** A buffer that somebody refers to or that is pinned keeps its key. */
  lemma KeyKept(s: Cache, step: Step, b: nat)
    requires Inv(s) && Enabled(s, step) && b < |s.bufs| && s.bufs[b].refcnt > 0
    ensures |Apply(s, step).bufs| == |s.bufs| && HasKey(Apply(s, step).bufs[b], s.bufs[b].dev, s.bufs[b].blockno)
  {
    hide OrderInv;
    hide BufOk;
    hide ClientOk;
    match step
    case DoGet(k, blk) =>
      OrderIs(s);
      FindFreeIs(s.bufs, s.order, 0);
    case DoLock(k) => HeldBuf(s, k);
    case DoFill(k) => HeldBuf(s, k);
    case DoModify(k, data) => HeldBuf(s, k);
    case DoWrite(k) => HeldBuf(s, k);
    case DoUnlock(k) => HeldBuf(s, k);
    case DoPut(k) => HeldBuf(s, k);
    case DoPin(k) => HeldBuf(s, k);
    case DoUnpin(_) =>
  }

  // ----- Whole runs

  ghost predicate Next(s: Cache, step: Step, t: Cache) {
    Enabled(s, step) && (Inv(s) ==> t == Apply(s, step))
  }

  ghost predicate IsRun(states: seq<Cache>, steps: seq<Step>) {
    |states| == |steps| + 1 && Init(states[0])
        && forall i | 0 <= i < |steps| :: Next(states[i], steps[i], states[i + 1])
  }

  /** The invariant holds throughout, so that Next is Apply all the way. */
  ghost predicate Sound(states: seq<Cache>, steps: seq<Step>) {
    && |states| == |steps| + 1
    && (forall i {:trigger states[i]} | 0 <= i < |states| :: Inv(states[i]))
    && (forall i {:trigger steps[i]} | 0 <= i < |steps| ::
          Enabled(states[i], steps[i]) && states[i + 1] == Apply(states[i], steps[i]))
  }

  lemma {:induction false} RunInv(states: seq<Cache>, steps: seq<Step>, i: nat)
    requires IsRun(states, steps) && i <= |steps|
    ensures Inv(states[i])
  {
    if i == 0 {
      InitInv(states[0]);
    } else {
      RunInv(states, steps, i - 1);
      assert Next(states[i - 1], steps[i - 1], states[i]);
      StepInv(states[i - 1], steps[i - 1]);
    }
  }

  lemma RunSound(states: seq<Cache>, steps: seq<Step>)
    requires IsRun(states, steps)
    ensures Sound(states, steps)
  {
    hide Inv;
    hide Apply;
    forall i | 0 <= i < |states| ensures Inv(states[i]) {
      RunInv(states, steps, i);
    }
    forall i | 0 <= i < |steps| ensures Enabled(states[i], steps[i]) && states[i + 1] == Apply(states[i], steps[i]) {
      assert Next(states[i], steps[i], states[i + 1]);
    }
  }

  /** What was last written to the block before step `i`; if nothing was, what the disk had at first. */
  ghost function LastWritten(states: seq<Cache>, steps: seq<Step>, i: nat, blk: int): Block
    requires Sound(states, steps) && i <= |steps| && blk in states[0].disk
  {
    if i == 0 then states[0].disk[blk]
    else
      var e := Seen(states[i - 1], steps[i - 1]);
      if e.WriteBlock? && e.blk == blk then e.data else LastWritten(states, steps, i - 1, blk)
  }

  lemma {:induction false} DiskHolds(states: seq<Cache>, steps: seq<Step>, i: nat, blk: int)
    requires Sound(states, steps) && i <= |steps| && blk in states[0].disk
    ensures blk in states[i].disk && states[i].disk[blk] == LastWritten(states, steps, i, blk)
  {
    hide Apply;
    hide Inv;
    hide Seen;
    if i > 0 {
      DiskHolds(states, steps, i - 1, blk);
      assert states[i] == Apply(states[i - 1], steps[i - 1]);
      Refines(states[i - 1], steps[i - 1]);
    }
  }

  lemma {:induction false} SameBlocks(states: seq<Cache>, steps: seq<Step>, i: nat)
    requires Sound(states, steps) && i <= |steps|
    ensures states[i].disk.Keys == states[0].disk.Keys
  {
    if i > 0 {
      SameBlocks(states, steps, i - 1);
      var s := states[i - 1];
      assert states[i] == Apply(s, steps[i - 1]);
      if steps[i - 1].DoWrite? {
        HeldBuf(s, steps[i - 1].k);
      }
    }
  }

  /** In every run from binit, whatever the clients do, bread returns the block that was last written. */
  lemma ReadsLastWritten(states: seq<Cache>, steps: seq<Step>, i: nat)
    requires IsRun(states, steps) && i < |steps|
    ensures Sound(states, steps)
    ensures DiskStep(states[i].disk, Seen(states[i], steps[i]), states[i + 1].disk)
    ensures var e := Seen(states[i], steps[i]);
      e.ReadBlock? ==> e.blk in states[0].disk && e.data == LastWritten(states, steps, i, e.blk)
  {
    RunSound(states, steps);
    hide Apply;
    hide Inv;
    hide Seen;
    Refines(states[i], steps[i]);
    var e := Seen(states[i], steps[i]);
    if e.ReadBlock? {
      SameBlocks(states, steps, i);
      assert e.blk in states[i].disk.Keys;
      DiskHolds(states, steps, i, e.blk);
    }
  }
}
