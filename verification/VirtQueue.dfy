/** The block device's split virtqueue (kernel/virt.c; section 2.7 of VIRTIO 1.2), driver and device taking
    turns: descriptors are never lost or shared, no ring entry is overwritten before it is read although the
    indices wrap around at 16 bits, and a completion ends the request it belongs to. */
module VirtQueue {

  const NUM := 8
  const F_NEXT := 1
  const F_WRITE := 2

  /** A descriptor; addresses are left out. */
  datatype Desc = Desc(len: int, flags: int, next: int)

  /** `info`: the buffer of a request (-1 for none) and the status byte that the device writes. */
  datatype Info = Info(b: int, status: int)

  /** Where a request is: in the available ring, with the device, in the used ring, or seen by the driver. */
  datatype Phase = Offered | Taken | Done | Seen

  /** A request in flight: its three descriptors and its buffer. */
  datatype Req = Req(mid: int, tail: int, b: int, phase: Phase)

  predicate HasNext(flags: int) {
    flags % 2 == 1
  }

  const NOTHING := Desc(0, 0, 0)

  /** How many flags are set. */
  function Count(free: seq<bool>): nat {
    if free == [] then 0 else (if free[0] then 1 else 0) + Count(free[1..])
  }

  lemma {:induction false} CountUpdate(free: seq<bool>, i: nat, v: bool)
    requires i < |free|
    ensures Count(free[i := v]) == Count(free) + (if v then 1 else 0) - (if free[i] then 1 else 0)
  {
    if i == 0 {
      assert free[0 := v][1..] == free[1..];
    } else {
      CountUpdate(free[1..], i - 1, v);
      assert free[i := v][1..] == free[1..][i - 1 := v];
    }
  }

  lemma {:induction false} CountNone(free: seq<bool>)
    requires forall i | 0 <= i < |free| :: !free[i]
    ensures Count(free) == 0
  {
    if free != [] {
      CountNone(free[1..]);
    }
  }

  lemma {:induction false} CountAll(free: seq<bool>)
    requires forall i | 0 <= i < |free| :: free[i]
    ensures Count(free) == |free|
  {
    if free != [] {
      CountAll(free[1..]);
    }
  }

  // ----- Rings

  /** The 16-bit index after `n` entries. */
  function Idx16(n: nat): int {
    n % 65536
  }

  lemma SlotOf(n: nat)
    ensures Idx16(n) % NUM == n % NUM && Idx16(n + 1) == (Idx16(n) + 1) % 65536
  {
    var q, r := n / 65536, n % 65536;
    assert n == NUM * (8192 * q) + r;
    WholeTurns(8192 * q, r);
  }

  lemma WholeTurns(a: nat, r: nat)
    ensures (NUM * a + r) % NUM == r % NUM
  {}

  lemma IdxApart(m: nat, n: nat)
    requires m <= n < m + 65536
    ensures Idx16(m) == Idx16(n) <==> m == n
  {}

  /** The ring still has the entries that are to be read, the first of them at place `from`. */
  ghost predicate Holds(ring: seq<int>, entries: seq<int>, from: nat) {
    && |ring| == NUM && |entries| <= NUM
    && forall k {:trigger entries[k]} | 0 <= k < |entries| :: ring[(from + k) % NUM] == entries[k]
  }

  lemma HoldsMore(ring: seq<int>, entries: seq<int>, from: nat, h: int)
    requires Holds(ring, entries, from) && |entries| < NUM
    ensures Holds(ring[(from + |entries|) % NUM := h], entries + [h], from)
  {
    var at := (from + |entries|) % NUM;
    forall k | 0 <= k < |entries| ensures ring[at := h][(from + k) % NUM] == entries[k] {
      OtherSlot(from + k, from + |entries|);
    }
  }

  /** Fewer than NUM entries apart are different places. */
  lemma OtherSlot(m: nat, n: nat)
    requires m < n < m + NUM
    ensures m % NUM != n % NUM
  {}

  lemma HoldsFewer(ring: seq<int>, entries: seq<int>, from: nat)
    requires Holds(ring, entries, from) && entries != []
    ensures Holds(ring, entries[1..], from + 1) && ring[from % NUM] == entries[0]
  {
    forall k | 0 <= k < |entries| - 1 ensures ring[(from + 1 + k) % NUM] == entries[1..][k] {
      assert entries[1..][k] == entries[k + 1];
    }
  }

  predicate Distinct(s: seq<int>) {
    forall m, n | 0 <= m < n < |s| :: s[m] != s[n]
  }

  lemma {:induction false} DistinctFits(s: seq<int>, keys: set<int>)
    requires Distinct(s) && forall x | x in s :: x in keys
    ensures |s| <= |keys|
    decreases |s|
  {
    if s != [] {
      var rest := s[1..];
      assert forall x | x in rest :: x in s && x != s[0];
      DistinctFits(rest, keys - {s[0]});
    }
  }

  // ----- The state

  /** The descriptors of a request: distinct, not free, linked in order. */
  predicate Chain(desc: seq<Desc>, free: seq<bool>, h: int, r: Req)
    requires |desc| == NUM && |free| == NUM
  {
    && 0 <= h < NUM && 0 <= r.mid < NUM && 0 <= r.tail < NUM && h != r.mid && h != r.tail && r.mid != r.tail
    && !free[h] && !free[r.mid] && !free[r.tail]
    && HasNext(desc[h].flags) && desc[h].next == r.mid && HasNext(desc[r.mid].flags) && desc[r.mid].next == r.tail
    && !HasNext(desc[r.tail].flags)
  }

  predicate Apart(g: int, q: Req, h: int, r: Req) {
    && g != h && g != r.mid && g != r.tail && q.mid != h && q.mid != r.mid && q.mid != r.tail
    && q.tail != h && q.tail != r.mid && q.tail != r.tail
  }

  /** Free descriptors are blank. */
  ghost predicate FreeBlank(desc: seq<Desc>, free: seq<bool>)
    requires |desc| == NUM && |free| == NUM
  {
    forall i {:trigger desc[i]} | 0 <= i < NUM && free[i] :: desc[i] == NOTHING
  }

  /** The chains of the requests are disjoint, and together with the free descriptors they are all. */
  ghost predicate Descs(desc: seq<Desc>, free: seq<bool>, reqs: map<int, Req>) {
    && |desc| == NUM && |free| == NUM
    && FreeBlank(desc, free)
    && (forall h {:trigger reqs[h]} | h in reqs :: Chain(desc, free, h, reqs[h]))
    && (forall g, h {:trigger reqs[g], reqs[h]} | g in reqs && h in reqs && g != h :: Apart(g, reqs[g], h, reqs[h]))
    && Count(free) + 3 * |reqs| == NUM
  }

  /** A buffer belongs to the disk from the submission of its request until the driver has seen it done. */
  ghost predicate Buffers(info: seq<Info>, busy: map<int, bool>, reqs: map<int, Req>) {
    && |info| == NUM
    && (forall h {:trigger reqs[h]} | h in reqs :: 0 <= h < NUM && reqs[h].b in busy && info[h].b == reqs[h].b
          && busy[reqs[h].b] == !reqs[h].phase.Seen? && (reqs[h].phase.Done? ==> info[h].status == 0))
    && (forall g, h {:trigger reqs[g], reqs[h]} | g in reqs && h in reqs && g != h :: reqs[g].b != reqs[h].b)
  }

  /** A ring between its writer and its reader. */
  ghost predicate Ring(ring: seq<int>, writer: int, reader: int, entries: seq<int>, from: nat) {
    writer == Idx16(from + |entries|) && reader == Idx16(from) && Holds(ring, entries, from) && Distinct(entries)
  }

  /** Who is where. */
  ghost predicate Phases(toTake: seq<int>, toSee: seq<int>, reqs: map<int, Req>) {
    && (forall h {:trigger h in toTake} | h in toTake :: h in reqs)
    && (forall h {:trigger h in toSee} | h in toSee :: h in reqs)
    && (forall h {:trigger reqs[h]} | h in reqs ::
          (reqs[h].phase == Offered <==> h in toTake) && (reqs[h].phase == Done <==> h in toSee))
  }

  // ----- What the steps keep

  /** At most two requests are in flight, so the rings are never full. */
  lemma Few(desc: seq<Desc>, free: seq<bool>, reqs: map<int, Req>, toTake: seq<int>, toSee: seq<int>)
    requires Descs(desc, free, reqs) && Phases(toTake, toSee, reqs) && Distinct(toTake) && Distinct(toSee)
    ensures |reqs| <= 2 && |toTake| <= 2 && |toSee| <= 2
  {
    assert |reqs.Keys| == |reqs|;
    DistinctFits(toTake, reqs.Keys);
    DistinctFits(toSee, reqs.Keys);
  }

  lemma DescsPhase(desc: seq<Desc>, free: seq<bool>, reqs: map<int, Req>, h: int, x: Phase)
    requires Descs(desc, free, reqs) && h in reqs
    ensures Descs(desc, free, reqs[h := reqs[h].(phase := x)])
  {
    var r := reqs[h := reqs[h].(phase := x)];
    assert r.Keys == reqs.Keys && |r.Keys| == |r| && |reqs.Keys| == |reqs|;
    forall i, j | i in r && j in r && i != j ensures Apart(i, r[i], j, r[j]) {
      assert Apart(i, reqs[i], j, reqs[j]);
    }
    forall i | i in r ensures Chain(desc, free, i, r[i]) {
      assert Chain(desc, free, i, reqs[i]);
    }
  }

  /** The chains that are there keep clear of descriptors that were free. */
  lemma OldChains(desc: seq<Desc>, free: seq<bool>, reqs: map<int, Req>, d: seq<Desc>, f: seq<bool>, h: int, r: Req,
      g: int)
    requires Descs(desc, free, reqs) && 0 <= h < NUM && 0 <= r.mid < NUM && 0 <= r.tail < NUM && g in reqs
    requires free[h] && free[r.mid] && free[r.tail] && f == free[h := false][r.mid := false][r.tail := false]
             && |d| == NUM
    requires forall i | 0 <= i < NUM && i != h && i != r.mid && i != r.tail :: d[i] == desc[i]
    ensures Chain(d, f, g, reqs[g]) && g != h && Apart(g, reqs[g], h, r) && Apart(h, r, g, reqs[g])
  {
    hide HasNext;
    hide Count;
    assert Chain(desc, free, g, reqs[g]);
  }

  lemma DescsMore(desc: seq<Desc>, free: seq<bool>, reqs: map<int, Req>, d: seq<Desc>, f: seq<bool>, h: int, r: Req)
    requires Descs(desc, free, reqs) && 0 <= h < NUM && 0 <= r.mid < NUM && 0 <= r.tail < NUM
    requires free[h] && free[r.mid] && free[r.tail] && h != r.mid && h != r.tail && r.mid != r.tail
    requires f == free[h := false][r.mid := false][r.tail := false] && |d| == NUM && Chain(d, f, h, r)
             && Count(f) == Count(free) - 3
    requires forall i | 0 <= i < NUM && i != h && i != r.mid && i != r.tail :: d[i] == desc[i]
    ensures h !in reqs && Descs(d, f, reqs[h := r])
  {
    hide Chain;
    hide Count;
    hide Apart;
    var q := reqs[h := r];
    forall g | g in reqs ensures Chain(d, f, g, reqs[g]) && g != h && Apart(g, reqs[g], h, r)
        && Apart(h, r, g, reqs[g]) {
      OldChains(desc, free, reqs, d, f, h, r, g);
    }
    assert |q| == |reqs| + 1;
    forall i, j | i in q && j in q && i != j ensures Apart(i, q[i], j, q[j]) {
      if i != h && j != h {
        assert Apart(i, reqs[i], j, reqs[j]);
      }
    }
  }

  lemma ChainStays(desc: seq<Desc>, free: seq<bool>, d: seq<Desc>, f: seq<bool>, g: int, q: Req, h: int, r: Req)
    requires |desc| == NUM && |free| == NUM && Chain(desc, free, g, q) && Chain(desc, free, h, r) && Apart(g, q, h, r)
    requires f == free[h := true][r.mid := true][r.tail := true]
    requires d == desc[h := NOTHING][r.mid := NOTHING][r.tail := NOTHING]
    ensures |d| == NUM && |f| == NUM && Chain(d, f, g, q)
  {
    hide HasNext;
  }

  lemma FreedBlank(desc: seq<Desc>, free: seq<bool>, d: seq<Desc>, f: seq<bool>, h: int, r: Req)
    requires |desc| == NUM && |free| == NUM && Chain(desc, free, h, r)
    requires f == free[h := true][r.mid := true][r.tail := true]
    requires d == desc[h := NOTHING][r.mid := NOTHING][r.tail := NOTHING]
    requires FreeBlank(desc, free)
    ensures |d| == NUM && |f| == NUM && forall i {:trigger d[i]} | 0 <= i < NUM && f[i] :: d[i] == NOTHING
  {
    hide HasNext;
  }

  lemma DescsFewer(desc: seq<Desc>, free: seq<bool>, reqs: map<int, Req>, d: seq<Desc>, f: seq<bool>, h: int)
    requires Descs(desc, free, reqs) && h in reqs && Chain(desc, free, h, reqs[h]) && Count(f) == Count(free) + 3
    requires f == free[h := true][reqs[h].mid := true][reqs[h].tail := true]
    requires d == desc[h := NOTHING][reqs[h].mid := NOTHING][reqs[h].tail := NOTHING]
    ensures Descs(d, f, reqs - {h})
  {
    hide Chain;
    hide Count;
    hide Apart;
    var q := reqs - {h};
    Removed(reqs, h);
    FreedBlank(desc, free, d, f, h, reqs[h]);
    forall g | g in q ensures Chain(d, f, g, q[g]) {
      assert Chain(desc, free, g, reqs[g]);
      assert Apart(g, reqs[g], h, reqs[h]);
      ChainStays(desc, free, d, f, g, reqs[g], h, reqs[h]);
    }
    forall i, j | i in q && j in q && i != j ensures Apart(i, q[i], j, q[j]) {
      assert Apart(i, reqs[i], j, reqs[j]);
    }
  }

  lemma BuffersPhase(info: seq<Info>, busy: map<int, bool>, reqs: map<int, Req>, h: int, x: Phase, status: int)
    requires Buffers(info, busy, reqs) && h in reqs && (x == Seen || !reqs[h].phase.Seen?)
             && (x == Done ==> status == 0)
    ensures 0 <= h < NUM
    ensures Buffers(info[h := Info(info[h].b, status)], busy[reqs[h].b := x != Seen], reqs[h := reqs[h].(phase := x)])
  {}

  lemma PhasesTaken(toTake: seq<int>, toSee: seq<int>, reqs: map<int, Req>)
    requires Phases(toTake, toSee, reqs) && toTake != [] && Distinct(toTake)
    ensures toTake[0] in reqs && reqs[toTake[0]].phase == Offered
            && Phases(toTake[1..], toSee, reqs[toTake[0] := reqs[toTake[0]].(phase := Taken)])
  {
    assert toTake[0] in toTake;
    TailHas(toTake);
  }

  lemma PhasesSeen(toTake: seq<int>, toSee: seq<int>, reqs: map<int, Req>)
    requires Phases(toTake, toSee, reqs) && toSee != [] && Distinct(toSee)
    ensures toSee[0] in reqs && reqs[toSee[0]].phase == Done
            && Phases(toTake, toSee[1..], reqs[toSee[0] := reqs[toSee[0]].(phase := Seen)])
  {
    assert toSee[0] in toSee;
    TailHas(toSee);
  }

  lemma PhasesMore(toTake: seq<int>, toSee: seq<int>, reqs: map<int, Req>, h: int, r: Req)
    requires Phases(toTake, toSee, reqs) && h !in reqs && r.phase == Offered
    ensures h !in toTake && Phases(toTake + [h], toSee, reqs[h := r])
  {
    assert h !in toTake && h !in toSee;
  }

  lemma PhasesDone(toTake: seq<int>, toSee: seq<int>, reqs: map<int, Req>, h: int)
    requires Phases(toTake, toSee, reqs) && h in reqs && reqs[h].phase == Taken
    ensures h !in toSee && Phases(toTake, toSee + [h], reqs[h := reqs[h].(phase := Done)])
  {}

  lemma PhasesFewer(toTake: seq<int>, toSee: seq<int>, reqs: map<int, Req>, h: int)
    requires Phases(toTake, toSee, reqs) && h in reqs && reqs[h].phase == Seen
    ensures Phases(toTake, toSee, reqs - {h})
  {}

  lemma RingPut(ring: seq<int>, writer: int, reader: int, entries: seq<int>, from: nat, h: int)
    requires Ring(ring, writer, reader, entries, from) && |entries| < NUM && h !in entries
    ensures 0 <= writer && Ring(ring[writer % NUM := h], (writer + 1) % 65536, reader, entries + [h], from)
  {
    SlotOf(from + |entries|);
    HoldsMore(ring, entries, from, h);
  }

  lemma RingGet(ring: seq<int>, writer: int, reader: int, entries: seq<int>, from: nat)
    requires Ring(ring, writer, reader, entries, from)
    ensures writer != reader <==> entries != []
    ensures entries != [] ==> 0 <= reader && ring[reader % NUM] == entries[0]
                              && Ring(ring, writer, (reader + 1) % 65536, entries[1..], from + 1)
  {
    IdxApart(from, from + |entries|);
    SlotOf(from);
    if entries != [] {
      HoldsFewer(ring, entries, from);
      TailHas(entries);
    }
  }

  class Disk {
    var desc: seq<Desc>
    var free: seq<bool>
    var info: seq<Info>
    var availRing: seq<int>
    var availIdx: int
    var usedRing: seq<int>
    var usedIdxDevice: int        // used->idx
    var usedIdx: int              // the driver's own
    var deviceIdx: int            // how far the device has read the available ring
    var busy: map<int, bool>      // b->disk of every buffer

    ghost var reqs: map<int, Req> // the requests in flight, by the first descriptor
    ghost var toTake: seq<int>    // the entries of the available ring that the device has not read
    ghost var taken: nat          // how many it has read
    ghost var toSee: seq<int>     // the entries of the used ring that the driver has not read
    ghost var seen: nat

    ghost predicate Valid()
      reads this
    {
      && Descs(desc, free, reqs) && Buffers(info, busy, reqs) && Phases(toTake, toSee, reqs)
      && Ring(availRing, availIdx, deviceIdx, toTake, taken) && Ring(usedRing, usedIdxDevice, usedIdx, toSee, seen)
    }

    /** virtio_disk_init */
    constructor (bufs: set<int>)
      ensures Valid() && reqs == map[] && busy.Keys == bufs && forall i | 0 <= i < NUM :: free[i]
    {
      desc := seq(NUM, _ => NOTHING);
      free := seq(NUM, _ => true);
      info := seq(NUM, _ => Info(-1, 0));
      availRing := seq(NUM, _ => 0);
      usedRing := seq(NUM, _ => 0);
      availIdx, usedIdxDevice, usedIdx, deviceIdx := 0, 0, 0, 0;
      busy := map b | b in bufs :: false;
      reqs, toTake, toSee, taken, seen := map[], [], [], 0, 0;
      new;
      CountAll(free);
    }

    // ----- Descriptors

    /** alloc_desc */
    method AllocDesc() returns (i: int)
      requires |free| == NUM
      modifies this`free
      ensures i == -1 ==> free == old(free) && forall k | 0 <= k < NUM :: !free[k]
      ensures i != -1 ==> 0 <= i < NUM && old(free)[i] && free == old(free)[i := false]
                          && forall k | 0 <= k < i :: !old(free)[k]
    {
      i := 0;
      while i < NUM
        invariant 0 <= i <= NUM && free == old(free) && forall k | 0 <= k < i :: !free[k]
      {
        if free[i] {
          free := free[i := false];
          return;
        }
        i := i + 1;
      }
      i := -1;
    }

    /** free_desc; it panics for a descriptor that is free */
    method FreeDesc(i: int)
      requires |free| == NUM && |desc| == NUM && 0 <= i < NUM && !free[i]
      modifies this`free, this`desc
      ensures free == old(free)[i := true] && desc == old(desc)[i := NOTHING]
      ensures Count(free) == Count(old(free)) + 1
      ensures FreeBlank(old(desc), old(free)) ==> FreeBlank(desc, free)
    {
      CountUpdate(free, i, true);
      desc := desc[i := NOTHING];
      free := free[i := true];
    }

    /** alloc3_desc: three descriptors, or none taken because fewer than three are free */
    method Alloc3Desc() returns (ok: bool, idx: seq<int>)
      requires |free| == NUM && |desc| == NUM && FreeBlank(desc, free)
      modifies this`free, this`desc
      ensures desc == old(desc)
      ensures ok <==> Count(old(free)) >= 3
      ensures !ok ==> free == old(free)
      ensures ok ==> |idx| == 3 && Distinct(idx) && (forall k | 0 <= k < 3 :: 0 <= idx[k] < NUM && old(free)[idx[k]])
      ensures ok ==> free == old(free)[idx[0] := false][idx[1] := false][idx[2] := false]
    {
      idx := [];
      var i := 0;
      while i < 3
        invariant 0 <= i <= 3 && |idx| == i && |free| == NUM && desc == old(desc) && Distinct(idx)
        invariant forall k | 0 <= k < i :: 0 <= idx[k] < NUM && old(free)[idx[k]]
        invariant free == Marked(old(free), idx) && Count(free) == Count(old(free)) - i
      {
        var d := AllocDesc();
        if d == -1 {
          CountNone(free);
          var j := 0;
          while j < i
            invariant 0 <= j <= i && |free| == NUM && desc == old(desc) && free == Marked(old(free), idx[j..])
          {
            MarkedHas(old(free), idx, j);
            FreeDesc(idx[j]);
            j := j + 1;
          }
          assert idx[i..] == [];
          return false, [];
        }
        CountUpdate(Marked(old(free), idx), d, false);
        MarkedMore(old(free), idx, d);
        idx := idx + [d];
        i := i + 1;
      }
      MarkedThree(old(free), idx);
      ok := true;
    }

    /** free_chain follows the links; `r` says where they lead. */
    method FreeChain(h: int, ghost r: Req)
      requires |desc| == NUM && |free| == NUM && Chain(desc, free, h, r)
      modifies this`free, this`desc
      ensures free == old(free)[h := true][r.mid := true][r.tail := true]
      ensures desc == old(desc)[h := NOTHING][r.mid := NOTHING][r.tail := NOTHING]
    {
      var i := h;
      ghost var k := 0;
      while true
        invariant 0 <= k < 3 && i == (if k == 0 then h else if k == 1 then r.mid else r.tail)
        invariant free == (if k == 0 then old(free) else if k == 1 then old(free)[h := true]
                  else old(free)[h := true][r.mid := true])
        invariant desc == (if k == 0 then old(desc) else if k == 1 then old(desc)[h := NOTHING]
                           else old(desc)[h := NOTHING][r.mid := NOTHING])
        decreases 3 - k
      {
        var flag, nxt := desc[i].flags, desc[i].next;
        FreeDesc(i);
        if HasNext(flag) {
          i := nxt;
        } else {
          break;
        }
        k := k + 1;
      }
    }

    // ----- Requests

    /** virtio_disk_rw up to the wait; it panics ("no free desc") exactly when two requests are in flight. */
    method Submit(b: int, write: bool) returns (ok: bool, ghost h: int)
      requires Valid() && b in busy && !busy[b] && forall g {:trigger reqs[g]} | g in reqs :: reqs[g].b != b
      modifies this
      ensures Valid() && busy.Keys == old(busy).Keys
      ensures ok <==> |old(reqs)| < 2
      ensures !ok ==> reqs == old(reqs) && free == old(free) && desc == old(desc) && busy == old(busy)
      ensures ok ==> h !in old(reqs) && h in reqs && reqs == old(reqs)[h := reqs[h]] && reqs[h].b == b
                     && reqs[h].phase == Offered
      ensures ok ==> busy == old(busy)[b := true]
      ensures ok ==> desc[h] == Desc(16, 1, reqs[h].mid) && desc[reqs[h].tail] == Desc(1, 2, 0)
      ensures ok ==> desc[reqs[h].mid] == Desc(512, if write then 1 else 3, reqs[h].tail)
    {
      hide Descs;
      hide Buffers;
      hide Phases;
      hide Ring;
      hide Count;
      hide Chain;
      hide HasNext;
      hide Marked;
      ChainsFit(desc, free, reqs);
      RingIs(availRing, availIdx, deviceIdx, toTake, taken);
      RingIs(usedRing, usedIdxDevice, usedIdx, toSee, seen);
      Few(desc, free, reqs, toTake, toSee);
      InfoFits(info, busy, reqs);
      var idx;
      ok, idx := Alloc3Desc();
      if !ok {
        h := 0;
        return;
      }
      h := idx[0];
      CountThree(old(free), idx);
      Start(idx, b, write, old(free));
      FormattedIs(old(desc), free, h, reqs[h], write);
    }

    /** The part of virtio_disk_rw that describes the request and offers it to the device. */
    method Start(idx: seq<int>, b: int, write: bool, ghost wasFree: seq<bool>)
      requires |idx| == 3 && Distinct(idx) && |wasFree| == NUM
               && forall k | 0 <= k < 3 :: 0 <= idx[k] < NUM && wasFree[idx[k]]
      requires free == wasFree[idx[0] := false][idx[1] := false][idx[2] := false] && Count(free) == Count(wasFree) - 3
      requires Descs(desc, wasFree, reqs) && Buffers(info, busy, reqs) && Phases(toTake, toSee, reqs)
      requires Ring(availRing, availIdx, deviceIdx, toTake, taken)
               && Ring(usedRing, usedIdxDevice, usedIdx, toSee, seen)
      requires b in busy && forall g {:trigger reqs[g]} | g in reqs :: reqs[g].b != b
      modifies this`desc, this`info, this`busy, this`availRing, this`availIdx, this`toTake, this`reqs
      ensures Valid() && idx[0] !in old(reqs) && reqs == old(reqs)[idx[0] := Req(idx[1], idx[2], b, Offered)]
              && busy == old(busy)[b := true]
      ensures |old(desc)| == NUM && desc == Formatted(old(desc), idx[0], reqs[idx[0]], write)
    {
      hide Descs;
      hide Buffers;
      hide Phases;
      hide Ring;
      hide Count;
      hide Chain;
      hide HasNext;
      hide Formatted;
      hide Idx16;
      hide Holds;
      ghost var h, r := idx[0], Req(idx[1], idx[2], b, Offered);
      ChainsFit(desc, wasFree, reqs);
      RingIs(availRing, availIdx, deviceIdx, toTake, taken);
      RingIs(usedRing, usedIdxDevice, usedIdx, toSee, seen);
      Few(desc, wasFree, reqs, toTake, toSee);
      InfoFits(info, busy, reqs);
      FormattedIs(desc, free, h, r, write);
      DescsMore(desc, wasFree, reqs, Formatted(desc, h, r, write), free, h, r);
      PhasesMore(toTake, toSee, reqs, h, r);
      BuffersMore(info, busy, reqs, info[idx[0] := Info(b, 255)], busy[b := true], h, r);
      RingPut(availRing, availIdx, deviceIdx, toTake, taken, h);
      Describe(idx, b, write);
      Offer(idx[0]);
      reqs := reqs[idx[0] := r];
    }

    /** It formats the three descriptors, and marks the buffer as the disk's. */
    method Describe(idx: seq<int>, b: int, write: bool)
      requires |desc| == NUM && |info| == NUM && |idx| == 3 && Distinct(idx)
               && forall k | 0 <= k < 3 :: 0 <= idx[k] < NUM
      modifies this`desc, this`info, this`busy
      ensures desc == Formatted(old(desc), idx[0], Req(idx[1], idx[2], b, Offered), write)
      ensures info == old(info)[idx[0] := Info(b, 255)] && busy == old(busy)[b := true]
    {
      desc := desc[idx[0] := Desc(16, F_NEXT, idx[1])];
      desc := desc[idx[1] := Desc(512, (if write then 0 else F_WRITE) + F_NEXT, idx[2])];
      desc := desc[idx[2] := Desc(1, F_WRITE, 0)];
      info, busy := info[idx[0] := Info(b, 255)], busy[b := true];
    }

    /** It puts the request into the available ring. */
    method Offer(h: int)
      requires |availRing| == NUM && 0 <= availIdx
      modifies this`availRing, this`availIdx, this`toTake
      ensures availRing == old(availRing)[old(availIdx) % NUM := h] && availIdx == (old(availIdx) + 1) % 65536
      ensures toTake == old(toTake) + [h]
    {
      availRing := availRing[availIdx % NUM := h];
      availIdx := (availIdx + 1) % 65536;
      toTake := toTake + [h];
    }

    /** The device takes the next request from the available ring. */
    method DeviceTake() returns (h: int)
      requires Valid() && availIdx != deviceIdx
      modifies this`deviceIdx, this`reqs, this`toTake, this`taken
      ensures Valid() && old(toTake) != [] && h == old(toTake)[0] && h in old(reqs) && old(reqs)[h].phase == Offered
      ensures reqs == old(reqs)[h := old(reqs)[h].(phase := Taken)]
    {
      hide Descs;
      hide Buffers;
      hide Phases;
      hide Ring;
      hide Count;
      RingIs(availRing, availIdx, deviceIdx, toTake, taken);
      RingGet(availRing, availIdx, deviceIdx, toTake, taken);
      PhasesTaken(toTake, toSee, reqs);
      h := availRing[deviceIdx % NUM];
      deviceIdx := (deviceIdx + 1) % 65536;
      DescsPhase(desc, free, reqs, h, Taken);
      PhaseBuffers(info, busy, reqs, h, Taken);
      reqs := reqs[h := reqs[h].(phase := Taken)];
      toTake := toTake[1..];
      taken := taken + 1;
    }

    /** The device completes a request that it has taken, in any order. */
    method DeviceDone(h: int)
      requires Valid() && h in reqs && reqs[h].phase == Taken
      modifies this`info, this`usedRing, this`usedIdxDevice, this`reqs, this`toSee
      ensures Valid() && reqs == old(reqs)[h := old(reqs)[h].(phase := Done)]
    {
      hide Descs;
      hide Buffers;
      hide Phases;
      hide Ring;
      hide Count;
      RingIs(availRing, availIdx, deviceIdx, toTake, taken);
      RingIs(usedRing, usedIdxDevice, usedIdx, toSee, seen);
      Few(desc, free, reqs, toTake, toSee);
      InfoFits(info, busy, reqs);
      PhasesDone(toTake, toSee, reqs, h);
      RingPut(usedRing, usedIdxDevice, usedIdx, toSee, seen, h);
      DescsPhase(desc, free, reqs, h, Done);
      BuffersPhase(info, busy, reqs, h, Done, 0);
      BusyIs(info, busy, reqs, h);
      info := info[h := info[h].(status := 0)];
      usedRing := usedRing[usedIdxDevice % NUM := h];
      usedIdxDevice := (usedIdxDevice + 1) % 65536;
      toSee := toSee + [h];
      reqs := reqs[h := reqs[h].(phase := Done)];
    }

    /** The body of the loop of virtio_disk_intr. */
    method SeeOne() returns (ghost id: int)
      requires Valid() && usedIdx != usedIdxDevice
      modifies this`busy, this`usedIdx, this`reqs, this`toSee, this`seen
      ensures Valid() && id in old(reqs) && old(reqs)[id].phase == Done
              && reqs == old(reqs)[id := old(reqs)[id].(phase := Seen)]
      ensures old(reqs)[id].b in old(busy) && busy == old(busy)[old(reqs)[id].b := false] && |toSee| < |old(toSee)|
    {
      hide Descs;
      hide Buffers;
      hide Phases;
      hide Ring;
      hide Count;
      MoreToSee(usedRing, usedIdxDevice, usedIdx, toSee, seen);
      RingIs(usedRing, usedIdxDevice, usedIdx, toSee, seen);
      RingGet(usedRing, usedIdxDevice, usedIdx, toSee, seen);
      PhasesSeen(toTake, toSee, reqs);
      InfoFits(info, busy, reqs);
      var i := usedRing[usedIdx % NUM];
      id := i;
      DoneIs(info, busy, reqs, i);
      // a status other than 0 makes the driver panic
      assert info[i].status == 0;
      var b := info[i].b;
      DescsPhase(desc, free, reqs, i, Seen);
      BuffersPhase(info, busy, reqs, i, Seen, 0);
      assert info[i := Info(info[i].b, 0)] == info;
      busy := busy[b := false];
      usedIdx := (usedIdx + 1) % 65536;
      reqs, toSee, seen := reqs[i := reqs[i].(phase := Seen)], toSee[1..], seen + 1;
    }

    /** virtio_disk_intr: every request in the used ring is ended, and its own buffer is given back. */
    method Intr()
      requires Valid()
      modifies this`busy, this`usedIdx, this`reqs, this`toSee, this`seen
      ensures Valid() && toSee == [] && usedIdx == usedIdxDevice
      ensures reqs.Keys == old(reqs).Keys
      ensures forall h | h in reqs :: reqs[h] == if old(reqs)[h].phase == Done then old(reqs)[h].(phase := Seen)
                                      else old(reqs)[h]
      ensures busy.Keys == old(busy).Keys
      ensures forall b | b in busy :: busy[b] == (old(busy)[b] && !
                                      exists h :: h in old(reqs) && old(reqs)[h].phase == Done && old(reqs)[h].b == b)
    {
      hide Descs;
      hide Buffers;
      hide Phases;
      hide Ring;
      hide Count;
      hide SeenSince;
      SeenStart(reqs, busy);
      while usedIdx != usedIdxDevice
        invariant Valid() && SeenSince(old(reqs), reqs, old(busy), busy)
        decreases |toSee|
      {
        ghost var reqs0, busy0 := reqs, busy;
        ghost var id := SeeOne();
        SeenNext(old(reqs), reqs0, old(busy), busy0, id);
      }
      MoreToSee(usedRing, usedIdxDevice, usedIdx, toSee, seen);
      SeenAll(old(reqs), reqs, old(busy), busy, info, toTake, toSee);
    }

    /** virtio_disk_rw after the wait for its buffer: the descriptors of the request are free again. */
    method Finish(h: int)
      requires Valid() && h in reqs && reqs[h].phase == Seen
      modifies this`info, this`free, this`desc, this`reqs
      ensures Valid() && reqs == old(reqs) - {h}
      ensures Count(free) == Count(old(free)) + 3
    {
      hide Descs;
      hide Buffers;
      hide Phases;
      hide Ring;
      hide Count;
      ChainIs(desc, free, reqs, h);
      InfoFits(info, busy, reqs);
      ghost var r := reqs[h];
      BuffersFewer(info, busy, reqs, h);
      PhasesFewer(toTake, toSee, reqs, h);
      info := info[h := info[h].(b := -1)];
      FreeChain(h, r);
      CountBack(old(free), h, r.mid, r.tail);
      DescsFewer(old(desc), old(free), reqs, desc, free, h);
      reqs := reqs - {h};
    }
  }

  /** What the interrupt handler has done since it began: requests that were done are seen, and their buffers
      are given back. */
  ghost predicate SeenSince(was: map<int, Req>, now: map<int, Req>, busy: map<int, bool>, free: map<int, bool>) {
    && now.Keys == was.Keys && free.Keys == busy.Keys
    && (forall h {:trigger now[h]} | h in now ::
          now[h] == was[h] || (was[h].phase == Done && now[h] == was[h].(phase := Seen)))
    && (forall b {:trigger free[b]} | b in free ::
          free[b] == busy[b] || (!free[b]
              && exists h :: h in was && was[h].phase == Done && was[h].b == b && now[h].phase == Seen))
  }

  lemma SeenStart(reqs: map<int, Req>, busy: map<int, bool>)
    ensures SeenSince(reqs, reqs, busy, busy)
  {}

  lemma SeenNext(was: map<int, Req>, now: map<int, Req>, busy: map<int, bool>, free: map<int, bool>, h: int)
    requires SeenSince(was, now, busy, free) && h in now && now[h].phase == Done && now[h].b in free
    ensures SeenSince(was, now[h := now[h].(phase := Seen)], busy, free[now[h].b := false])
  {
    var next, f := now[h := now[h].(phase := Seen)], free[now[h].b := false];
    forall b | b in f
      ensures f[b] == busy[b] || (!f[b]
              && exists g :: g in was && was[g].phase == Done && was[g].b == b && next[g].phase == Seen)
    {
      if b == now[h].b {
        assert was[h].phase == Done && was[h].b == b && next[h].phase == Seen;
      } else if free[b] != busy[b] {
        var g :| g in was && was[g].phase == Done && was[g].b == b && now[g].phase == Seen;
        assert next[g].phase == Seen;
      }
    }
  }

  lemma SeenAll(was: map<int, Req>, now: map<int, Req>, busy: map<int, bool>, free: map<int, bool>, info: seq<Info>,
      toTake: seq<int>, toSee: seq<int>)
    requires SeenSince(was, now, busy, free) && Phases(toTake, toSee, now) && toSee == [] && Buffers(info, free, now)
    ensures now.Keys == was.Keys && free.Keys == busy.Keys
    ensures forall h | h in now :: now[h] == if was[h].phase == Done then was[h].(phase := Seen) else was[h]
    ensures forall b | b in free :: free[b] == (busy[b]
                                    && !exists h :: h in was && was[h].phase == Done && was[h].b == b)
  {
    forall h | h in now ensures now[h] == if was[h].phase == Done then was[h].(phase := Seen) else was[h] {
      assert now[h].phase != Done;
    }
    forall h | h in was && was[h].phase == Done ensures was[h].b in free && !free[was[h].b] {
      assert now[h].phase == Seen;
    }
  }

  lemma ChainsFit(desc: seq<Desc>, free: seq<bool>, reqs: map<int, Req>)
    requires Descs(desc, free, reqs)
    ensures |free| == NUM && |desc| == NUM && FreeBlank(desc, free)
    ensures Count(free) + 3 * |reqs| == NUM
  {}

  lemma ChainIs(desc: seq<Desc>, free: seq<bool>, reqs: map<int, Req>, h: int)
    requires Descs(desc, free, reqs) && h in reqs
    ensures |free| == NUM && |desc| == NUM && Chain(desc, free, h, reqs[h])
  {}

  lemma MoreToSee(ring: seq<int>, writer: int, reader: int, entries: seq<int>, from: nat)
    requires Ring(ring, writer, reader, entries, from)
    ensures writer != reader <==> entries != []
  {
    RingGet(ring, writer, reader, entries, from);
  }

  lemma RingIs(ring: seq<int>, writer: int, reader: int, entries: seq<int>, from: nat)
    requires Ring(ring, writer, reader, entries, from)
    ensures |ring| == NUM && Distinct(entries) && 0 <= writer && 0 <= reader
  {}

  lemma InfoFits(info: seq<Info>, busy: map<int, bool>, reqs: map<int, Req>)
    requires Buffers(info, busy, reqs)
    ensures |info| == NUM && forall h | h in reqs :: 0 <= h < NUM && reqs[h].b in busy
  {}

  lemma DoneIs(info: seq<Info>, busy: map<int, bool>, reqs: map<int, Req>, h: int)
    requires Buffers(info, busy, reqs) && h in reqs && reqs[h].phase == Done
    ensures 0 <= h < |info| && info[h].status == 0 && info[h].b == reqs[h].b && reqs[h].b in busy
  {}

  lemma BusyIs(info: seq<Info>, busy: map<int, bool>, reqs: map<int, Req>, h: int)
    requires Buffers(info, busy, reqs) && h in reqs && !reqs[h].phase.Seen?
    ensures busy[reqs[h].b := true] == busy
  {}

  lemma PhaseBuffers(info: seq<Info>, busy: map<int, bool>, reqs: map<int, Req>, h: int, x: Phase)
    requires Buffers(info, busy, reqs) && h in reqs && !reqs[h].phase.Seen? && x == Taken
    ensures Buffers(info, busy, reqs[h := reqs[h].(phase := x)])
  {}

  lemma BuffersMore(info: seq<Info>, busy: map<int, bool>, reqs: map<int, Req>, i2: seq<Info>, b2: map<int, bool>,
      h: int, r: Req)
    requires Buffers(info, busy, reqs) && h !in reqs && 0 <= h < NUM && r.b in busy && r.phase == Offered
    requires forall g {:trigger reqs[g]} | g in reqs :: reqs[g].b != r.b
    requires b2 == busy[r.b := true] && |i2| == NUM && i2[h].b == r.b
             && forall g | 0 <= g < NUM && g != h :: i2[g] == info[g]
    ensures Buffers(i2, b2, reqs[h := r])
  {}

  lemma BuffersFewer(info: seq<Info>, busy: map<int, bool>, reqs: map<int, Req>, h: int)
    requires Buffers(info, busy, reqs) && h in reqs
    ensures 0 <= h < |info| && Buffers(info[h := info[h].(b := -1)], busy, reqs - {h})
  {}

  lemma Removed(reqs: map<int, Req>, h: int)
    requires h in reqs
    ensures |reqs - {h}| == |reqs| - 1
  {
    assert (reqs - {h}).Keys == reqs.Keys - {h};
    assert |reqs.Keys| == |reqs| && |(reqs - {h}).Keys| == |reqs - {h}|;
  }

  lemma TailHas(s: seq<int>)
    requires s != [] && Distinct(s)
    ensures Distinct(s[1..]) && forall x :: x in s[1..] <==> x in s && x != s[0]
  {
    assert s == [s[0]] + s[1..];
  }

  /** The three descriptors of a request. */
  function Formatted(desc: seq<Desc>, h: int, r: Req, write: bool): seq<Desc>
    requires |desc| == NUM && 0 <= h < NUM && 0 <= r.mid < NUM && 0 <= r.tail < NUM
  {
    var d := desc[h := Desc(16, F_NEXT, r.mid)];
    d[r.mid := Desc(512, (if write then 0 else F_WRITE) + F_NEXT, r.tail)][r.tail := Desc(1, F_WRITE, 0)]
  }

  lemma FormattedIs(desc: seq<Desc>, free: seq<bool>, h: int, r: Req, write: bool)
    requires |desc| == NUM && |free| == NUM && 0 <= h < NUM && 0 <= r.mid < NUM && 0 <= r.tail < NUM
    requires h != r.mid && h != r.tail && r.mid != r.tail && !free[h] && !free[r.mid] && !free[r.tail]
    ensures var d := Formatted(desc, h, r, write);
      && |d| == NUM && Chain(d, free, h, r)
         && (forall i | 0 <= i < NUM && i != h && i != r.mid && i != r.tail :: d[i] == desc[i])
      && d[h] == Desc(16, F_NEXT, r.mid) && d[r.tail] == Desc(1, F_WRITE, 0)
      && d[r.mid] == Desc(512, if write then F_NEXT else F_WRITE + F_NEXT, r.tail)
  {}

  lemma CountThree(free: seq<bool>, idx: seq<int>)
    requires |idx| == 3 && Distinct(idx) && forall k | 0 <= k < 3 :: 0 <= idx[k] < |free| && free[idx[k]]
    ensures Count(free[idx[0] := false][idx[1] := false][idx[2] := false]) == Count(free) - 3
  {
    CountUpdate(free, idx[0], false);
    CountUpdate(free[idx[0] := false], idx[1], false);
    CountUpdate(free[idx[0] := false][idx[1] := false], idx[2], false);
  }

  lemma CountBack(free: seq<bool>, a: int, b: int, c: int)
    requires 0 <= a < |free| && 0 <= b < |free| && 0 <= c < |free| && a != b && a != c && b != c && !free[a]
             && !free[b] && !free[c]
    ensures Count(free[a := true][b := true][c := true]) == Count(free) + 3
  {
    CountUpdate(free, a, true);
    CountUpdate(free[a := true], b, true);
    CountUpdate(free[a := true][b := true], c, true);
  }

  /** `free` after taking the descriptors of `idx`. */
  function Marked(free: seq<bool>, idx: seq<int>): (r: seq<bool>)
    ensures |r| == |free|
  {
    seq(|free|, i requires 0 <= i < |free| => free[i] && i !in idx)
  }

  lemma MarkedMore(free: seq<bool>, idx: seq<int>, d: int)
    requires 0 <= d < |free| && Marked(free, idx)[d]
    ensures Marked(free, idx)[d := false] == Marked(free, idx + [d]) && d !in idx && free[d]
  {
    var a, b := Marked(free, idx)[d := false], Marked(free, idx + [d]);
    forall i | 0 <= i < |free| ensures a[i] == b[i] {
      assert i in idx + [d] <==> i in idx || i == d;
    }
    assert |a| == |b|;
  }

  lemma MarkedHas(free: seq<bool>, idx: seq<int>, j: nat)
    requires j < |idx| && Distinct(idx) && 0 <= idx[j] < |free| && free[idx[j]]
    ensures !Marked(free, idx[j..])[idx[j]] && Marked(free, idx[j..])[idx[j] := true] == Marked(free, idx[j + 1..])
  {
    var a, b := Marked(free, idx[j..])[idx[j] := true], Marked(free, idx[j + 1..]);
    assert idx[j..] == [idx[j]] + idx[j + 1..];
    assert idx[j] !in idx[j + 1..];
    forall i | 0 <= i < |free| ensures a[i] == b[i] {
      assert i in idx[j..] <==> i == idx[j] || i in idx[j + 1..];
    }
    assert |a| == |b|;
  }

  lemma MarkedThree(free: seq<bool>, idx: seq<int>)
    requires |idx| == 3 && forall k | 0 <= k < 3 :: 0 <= idx[k] < |free|
    ensures Marked(free, idx) == free[idx[0] := false][idx[1] := false][idx[2] := false]
  {
    assert idx == [idx[0], idx[1], idx[2]];
  }

}
