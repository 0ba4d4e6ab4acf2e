/** The user heap (user/stdlib.c): blocks with boundary tags, found first-fit, split and merged in place.
    Addresses are relative to the beginning of the heap, which is taken to be a multiple of 8. */
module UserHeap {

  const WSIZE := 4
  const DSIZE := 8
  const CHUNKSIZE := 4096
  const WRAP: int := 0x1_0000_0000

  /** A block: the address of its payload, its size with header and footer, and whether it is allocated. */
  datatype Block = Block(at: int, size: int, alloc: bool)

  /** PACK; sizes are multiples of 8. */
  function Pack(size: int, alloc: bool): int {
    size + (if alloc then 1 else 0)
  }

  function SizeOf(tag: int): int {
    tag / 8 * 8
  }

  predicate AllocOf(tag: int) {
    tag % 2 == 1
  }

  lemma PackIs(size: int, alloc: bool)
    requires size % 8 == 0
    ensures SizeOf(Pack(size, alloc)) == size && AllocOf(Pack(size, alloc)) == alloc
  {
    var q := size / 8;
    assert size == 8 * q;
    EightTimes(q, if alloc then 1 else 0);
  }

  lemma EightTimes(q: int, r: int)
    requires 0 <= r < 2
    ensures (8 * q + r) / 8 == q && (8 * q + r) % 2 == r
  {
    assert 8 * q + r == 2 * (4 * q) + r;
  }

  // ----- Tiling

  /** The word at a byte address. */
  function WordAt(a: int): int {
    a / 4
  }

  function Head(b: Block): int {
    WordAt(b.at - WSIZE)
  }

  function Foot(b: Block): int {
    WordAt(b.at + b.size - DSIZE)
  }

  predicate Shaped(b: Block) {
    b.at % 8 == 0 && b.at >= 16 && b.size % 8 == 0 && b.size >= 16
  }

  /** Where the blocks end. */
  function End(blocks: seq<Block>): int {
    if blocks == [] then 16 else blocks[|blocks| - 1].at + blocks[|blocks| - 1].size
  }

  /** The blocks follow each other without a gap. */
  ghost predicate Line(blocks: seq<Block>) {
    && (forall k {:trigger blocks[k]} | 0 <= k < |blocks| :: Shaped(blocks[k]))
    && (blocks != [] ==> blocks[0].at == 16)
    && (forall j, k {:trigger blocks[j], blocks[k]} | 0 <= j < |blocks| && k == j + 1 < |blocks| ::
          blocks[k].at == blocks[j].at + blocks[j].size)
  }

  ghost predicate Tag(words: seq<int>, b: Block) {
    0 <= Head(b) < Foot(b) < |words| && words[Head(b)] == Pack(b.size, b.alloc) == words[Foot(b)]
  }

  /** Padding, prologue, blocks with equal tags at both ends, epilogue. */
  ghost predicate Tiled(words: seq<int>, blocks: seq<Block>) {
    && Line(blocks) && 4 * |words| == End(blocks) && |words| >= 4
    && words[1] == Pack(DSIZE, true) == words[2] && words[|words| - 1] == Pack(0, true)
    && (forall k {:trigger blocks[k]} | 0 <= k < |blocks| :: Tag(words, blocks[k]))
  }

  /** No two free blocks are neighbours. */
  ghost predicate Merged(blocks: seq<Block>) {
    forall j, k {:trigger blocks[j], blocks[k]} | 0 <= j < |blocks| && k == j + 1 < |blocks| ::
        blocks[j].alloc || blocks[k].alloc
  }

  lemma {:induction false} InOrder(blocks: seq<Block>, j: nat, k: nat)
    requires Line(blocks) && j < k < |blocks|
    ensures blocks[j].at + blocks[j].size <= blocks[k].at
    decreases k
  {
    if k > j + 1 {
      InOrder(blocks, j, k - 1);
      assert Shaped(blocks[k - 1]);
      assert blocks[k].at == blocks[k - 1].at + blocks[k - 1].size;
    } else {
      assert blocks[k].at == blocks[j].at + blocks[j].size;
    }
  }

  lemma Within(blocks: seq<Block>, k: nat)
    requires Line(blocks) && k < |blocks|
    ensures blocks[k].at + blocks[k].size <= End(blocks)
  {
    assert Shaped(blocks[|blocks| - 1]);
    if k < |blocks| - 1 {
      InOrder(blocks, k, |blocks| - 1);
    }
  }

  /** Allocated blocks do not overlap: neither their payloads nor their tags. */
  lemma LiveApart(blocks: seq<Block>, j: nat, k: nat)
    requires Line(blocks) && j < |blocks| && k < |blocks| && j != k
    ensures blocks[j].at + blocks[j].size <= blocks[k].at || blocks[k].at + blocks[k].size <= blocks[j].at
  {
    if j < k {
      InOrder(blocks, j, k);
    } else {
      InOrder(blocks, k, j);
    }
  }

  // ----- Replacing part of the line

  /** Blocks i..j are replaced by others that cover the same stretch. */
  function Splice(blocks: seq<Block>, i: nat, j: nat, news: seq<Block>): seq<Block>
    requires i <= j <= |blocks|
  {
    blocks[..i] + news + blocks[j..]
  }

  /** The new blocks follow each other from `lo` to `hi`. */
  ghost predicate Covers(news: seq<Block>, lo: int, hi: int) {
    && news != [] && news[0].at == lo && news[|news| - 1].at + news[|news| - 1].size == hi
    && (forall k {:trigger news[k]} | 0 <= k < |news| :: Shaped(news[k]))
    && (forall j, k {:trigger news[j], news[k]} | 0 <= j < |news| && k == j + 1 < |news| ::
          news[k].at == news[j].at + news[j].size)
  }

  lemma SpliceShaped(blocks: seq<Block>, i: nat, j: nat, news: seq<Block>)
    requires i <= j <= |blocks|
    requires forall k {:trigger blocks[k]} | 0 <= k < |blocks| :: Shaped(blocks[k])
    requires forall k {:trigger news[k]} | 0 <= k < |news| :: Shaped(news[k])
    ensures var r := Splice(blocks, i, j, news); forall k {:trigger r[k]} | 0 <= k < |r| :: Shaped(r[k])
  {
    hide Shaped;
    var r, n := Splice(blocks, i, j, news), |news|;
    forall k | 0 <= k < |r| ensures Shaped(r[k]) {
      if k < i {
        assert r[k] == blocks[k];
      } else if k < i + n {
        assert r[k] == news[k - i];
      } else {
        assert r[k] == blocks[k - i - n + j];
      }
    }
  }

  lemma SpliceLine(blocks: seq<Block>, i: nat, j: nat, news: seq<Block>)
    requires Line(blocks) && i < j <= |blocks| && Covers(news, blocks[i].at, blocks[j - 1].at + blocks[j - 1].size)
    ensures Line(Splice(blocks, i, j, news)) && End(Splice(blocks, i, j, news)) == End(blocks)
  {
    hide Shaped;
    SpliceShaped(blocks, i, j, news);
    var r, n := Splice(blocks, i, j, news), |news|;
    forall k | 0 <= k < |r| - 1 ensures r[k + 1].at == r[k].at + r[k].size {
      if k + 1 < i {
        assert r[k] == blocks[k] && r[k + 1] == blocks[k + 1];
      } else if k + 1 == i {
        assert r[k] == blocks[k] && r[k + 1] == news[0] && blocks[i].at == blocks[k].at + blocks[k].size;
      } else if k + 1 < i + n {
        assert r[k] == news[k - i] && r[k + 1] == news[k + 1 - i];
      } else if k + 1 == i + n {
        assert r[k] == news[n - 1] && r[k + 1] == blocks[j] && blocks[j].at == blocks[j - 1].at + blocks[j - 1].size;
      } else {
        assert r[k] == blocks[k - i - n + j] && r[k + 1] == blocks[k + 1 - i - n + j];
      }
    }
  }

  /** The words outside addresses lo..hi are as before. */
  ghost predicate SameOutside(words: seq<int>, w: seq<int>, lo: int, hi: int) {
    |w| == |words| && forall x | 0 <= x < |words| && !(WordAt(lo) <= x < WordAt(hi)) :: w[x] == words[x]
  }

  lemma SpliceTiled(words: seq<int>, blocks: seq<Block>, i: nat, j: nat, news: seq<Block>, w: seq<int>)
    requires Tiled(words, blocks) && i < j <= |blocks|
             && Covers(news, blocks[i].at, blocks[j - 1].at + blocks[j - 1].size)
    requires SameOutside(words, w, blocks[i].at - WSIZE, blocks[j - 1].at + blocks[j - 1].size - WSIZE)
    requires forall k {:trigger news[k]} | 0 <= k < |news| :: Tag(w, news[k])
    ensures Tiled(w, Splice(blocks, i, j, news))
  {
    hide Line;
    hide Covers;
    hide Tag;
    hide SameOutside;
    hide Shaped;
    SpliceLine(blocks, i, j, news);
    EdgesKept(words, blocks, i, j, w);
    var r, n := Splice(blocks, i, j, news), |news|;
    forall k | 0 <= k < |r| ensures Tag(w, r[k]) {
      if k < i {
        assert r[k] == blocks[k];
        OutsideKept(words, blocks, i, j, w, k);
      } else if k < i + n {
        assert r[k] == news[k - i];
      } else {
        assert r[k] == blocks[k - i - n + j];
        OutsideKept(words, blocks, i, j, w, k - i - n + j);
      }
    }
  }

  lemma OutsideKept(words: seq<int>, blocks: seq<Block>, i: nat, j: nat, w: seq<int>, k: nat)
    requires Tiled(words, blocks) && i < j <= |blocks| && k < |blocks| && (k < i || j <= k)
    requires SameOutside(words, w, blocks[i].at - WSIZE, blocks[j - 1].at + blocks[j - 1].size - WSIZE)
    ensures Tag(w, blocks[k])
  {
    hide SameOutside;
    hide Tag;
    hide Line;
    hide Shaped;
    hide WordAt;
    BlockIs(words, blocks, i);
    BlockIs(words, blocks, j - 1);
    BlockIs(words, blocks, k);
    if k < i {
      InOrder(blocks, k, i);
    } else {
      InOrder(blocks, j - 1, k);
    }
    TagKept(words, w, blocks[k], blocks[i].at - WSIZE, blocks[j - 1].at + blocks[j - 1].size - WSIZE);
  }

  lemma BlockIs(words: seq<int>, blocks: seq<Block>, k: nat)
    requires Tiled(words, blocks) && k < |blocks|
    ensures Shaped(blocks[k]) && Tag(words, blocks[k])
    ensures (blocks[k].at - WSIZE) % 4 == 0 && (blocks[k].at + blocks[k].size - WSIZE) % 4 == 0
  {
    hide Shaped;
    hide Tag;
    assert Shaped(blocks[k]);
    ShapedEnd(blocks[k]);
    Eighths(blocks[k].at);
    Eighths(blocks[k].at + blocks[k].size);
  }

  lemma ShapedEnd(b: Block)
    requires Shaped(b)
    ensures b.at % 8 == 0 && b.at >= 16 && b.size % 8 == 0 && b.size >= 16 && (b.at + b.size) % 8 == 0
  {
    SumOfEights(b.at, b.size);
  }

  lemma Eighths(a: int)
    ensures a % 8 == 0 ==> (a - WSIZE) % 4 == 0
  {}

  /** Padding, prologue and epilogue are outside all blocks. */
  lemma EdgesKept(words: seq<int>, blocks: seq<Block>, i: nat, j: nat, w: seq<int>)
    requires Tiled(words, blocks) && i < j <= |blocks|
    requires SameOutside(words, w, blocks[i].at - WSIZE, blocks[j - 1].at + blocks[j - 1].size - WSIZE)
    ensures |w| == |words| && w[1] == words[1] && w[2] == words[2] && w[|w| - 1] == words[|words| - 1]
  {
    assert Shaped(blocks[i]) && Shaped(blocks[j - 1]);
    Within(blocks, j - 1);
  }

  lemma TagKept(words: seq<int>, w: seq<int>, b: Block, lo: int, hi: int)
    requires Tag(words, b) && Shaped(b) && SameOutside(words, w, lo, hi) && lo % 4 == 0 && hi % 4 == 0
    requires b.at + b.size - WSIZE <= lo || hi <= b.at - WSIZE
    ensures Tag(w, b)
  {}

  /** What the program writes to its own payloads does not touch the tags. */
  lemma PayloadWrites(words: seq<int>, blocks: seq<Block>, w: seq<int>)
    requires Tiled(words, blocks) && |w| == |words|
    requires forall x | 0 <= x < |words|
             && !(exists k :: 0 <= k < |blocks| && blocks[k].alloc && Head(blocks[k]) < x < Foot(blocks[k])) ::
                   w[x] == words[x]
    ensures Tiled(w, blocks)
  {
    forall k | 0 <= k < |blocks| ensures Tag(w, blocks[k]) {
      forall j | 0 <= j < |blocks| ensures !(Head(blocks[j]) < Head(blocks[k]) < Foot(blocks[j]))
          && !(Head(blocks[j]) < Foot(blocks[k]) < Foot(blocks[j])) {
        assert Shaped(blocks[j]) && Shaped(blocks[k]);
        if j != k {
          LiveApart(blocks, j, k);
        }
      }
      assert Tag(words, blocks[k]);
    }
    forall j | 0 <= j < |blocks| ensures 2 < Head(blocks[j]) && Foot(blocks[j]) < |words| - 1 {
      assert Shaped(blocks[j]);
      Within(blocks, j);
      if j > 0 {
        InOrder(blocks, 0, j);
      }
    }
  }

  // ----- Live blocks

  ghost function Live(blocks: seq<Block>): set<Block> {
    set b | b in blocks && b.alloc
  }

  /** What the block holds between its tags is as before. */
  ghost predicate PayloadKept(words: seq<int>, w: seq<int>, b: Block) {
    0 <= Head(b) && Foot(b) < |words| <= |w| && forall x | Head(b) < x < Foot(b) :: w[x] == words[x]
  }

  ghost predicate PayloadsKept(words: seq<int>, w: seq<int>, live: set<Block>) {
    forall b | b in live :: PayloadKept(words, w, b)
  }

  lemma PayloadsAgain(words: seq<int>, w: seq<int>, u: seq<int>, live: set<Block>)
    requires PayloadsKept(words, w, live) && PayloadsKept(w, u, live)
    ensures PayloadsKept(words, u, live)
  {
    hide PayloadKept;
    forall b | b in live ensures PayloadKept(words, u, b) {
      PayloadAgain(words, w, u, b);
    }
  }

  lemma PayloadAgain(words: seq<int>, w: seq<int>, u: seq<int>, b: Block)
    requires PayloadKept(words, w, b) && PayloadKept(w, u, b)
    ensures PayloadKept(words, u, b)
  {
    hide Head;
    hide Foot;
    forall x | Head(b) < x < Foot(b) ensures u[x] == words[x] {
      assert w[x] == words[x];
    }
  }

  lemma PayloadsSame(words: seq<int>, blocks: seq<Block>)
    requires Tiled(words, blocks)
    ensures PayloadsKept(words, words, Live(blocks))
  {
    hide Tiled;
    hide WordAt;
    forall b | b in Live(blocks) ensures PayloadKept(words, words, b) {
      var m :| 0 <= m < |blocks| && blocks[m] == b;
      TagInside(words, blocks, m);
    }
  }

  lemma TagInside(words: seq<int>, blocks: seq<Block>, k: nat)
    requires Tiled(words, blocks) && k < |blocks|
    ensures 0 <= Head(blocks[k]) < Foot(blocks[k]) < |words|
  {
    BlockIs(words, blocks, k);
  }

  /** Writing within the stretch of blocks i..j leaves the payloads of all other blocks. */
  lemma StretchPayloads(words: seq<int>, blocks: seq<Block>, i: nat, j: nat, w: seq<int>)
    requires Tiled(words, blocks) && i < j <= |blocks|
    requires SameOutside(words, w, blocks[i].at - WSIZE, blocks[j - 1].at + blocks[j - 1].size - WSIZE)
    ensures PayloadsKept(words, w, Live(blocks) - Live(blocks[i..j]))
  {
    hide Tiled;
    hide Tag;
    hide Line;
    hide WordAt;
    hide SameOutside;
    hide PayloadKept;
    forall b | b in Live(blocks) - Live(blocks[i..j]) ensures PayloadKept(words, w, b) {
      var m :| 0 <= m < |blocks| && blocks[m] == b;
      InPart(blocks, i, j, m);
      PayloadOutside(words, blocks, i, j, w, m);
    }
  }

  lemma InPart(blocks: seq<Block>, i: nat, j: nat, m: nat)
    requires i <= j <= |blocks| && m < |blocks|
    ensures i <= m < j ==> blocks[m] in blocks[i..j]
  {
    if i <= m < j {
      assert blocks[i..j][m - i] == blocks[m];
    }
  }

  lemma PayloadOutside(words: seq<int>, blocks: seq<Block>, i: nat, j: nat, w: seq<int>, m: nat)
    requires Tiled(words, blocks) && i < j <= |blocks| && m < |blocks| && (m < i || j <= m)
    requires SameOutside(words, w, blocks[i].at - WSIZE, blocks[j - 1].at + blocks[j - 1].size - WSIZE)
    ensures PayloadKept(words, w, blocks[m])
  {
    hide Tiled;
    hide Tag;
    hide Line;
    TagInside(words, blocks, m);
    LineIs(words, blocks);
    BlockIs(words, blocks, m);
    BlockIs(words, blocks, i);
    BlockIs(words, blocks, j - 1);
    if m < i {
      InOrder(blocks, m, i);
    } else {
      InOrder(blocks, j - 1, m);
    }
  }

  lemma SpliceLive(blocks: seq<Block>, i: nat, j: nat, news: seq<Block>)
    requires Line(blocks) && i <= j <= |blocks|
    ensures Live(Splice(blocks, i, j, news)) == (Live(blocks) - Live(blocks[i..j])) + Live(news)
  {
    var r := Splice(blocks, i, j, news);
    forall b ensures b in blocks <==> b in blocks[..i] || b in blocks[i..j] || b in blocks[j..] {
      assert blocks == blocks[..i] + blocks[i..j] + blocks[j..];
    }
    forall b | b in blocks[i..j] ensures b !in blocks[..i] && b !in blocks[j..] {
      var x :| 0 <= x < j - i && blocks[i..j][x] == b;
      OnlyThere(blocks, i + x);
    }
  }

  lemma OnlyThere(blocks: seq<Block>, k: nat)
    requires Line(blocks) && k < |blocks|
    ensures forall x | 0 <= x < |blocks| && x != k :: blocks[x] != blocks[k]
  {
    forall x | 0 <= x < |blocks| && x != k ensures blocks[x] != blocks[k] {
      assert Shaped(blocks[x]) && Shaped(blocks[k]);
      LiveApart(blocks, x, k);
    }
  }

  // ----- Writing tags

  function Put(words: seq<int>, a: int, v: int): seq<int>
    requires 0 <= WordAt(a) < |words|
  {
    words[WordAt(a) := v]
  }

  /** Header and footer of a block. */
  function Tagged(words: seq<int>, b: Block): (w: seq<int>)
    requires 0 <= Head(b) < |words| && 0 <= Foot(b) < |words|
    ensures |w| == |words|
  {
    words[Head(b) := Pack(b.size, b.alloc)][Foot(b) := Pack(b.size, b.alloc)]
  }

  lemma HeadFoot(b: Block)
    requires Shaped(b)
    ensures Head(b) + b.size / 4 - 1 == Foot(b) && b.size / 4 >= 4 && Head(b) >= 3
    ensures WordAt(b.at - WSIZE) == Head(b) && WordAt(b.at + b.size - WSIZE) == Foot(b) + 1
  {}

  lemma TaggedOne(words: seq<int>, lo: int, hi: int, b: Block)
    requires Shaped(b) && b.at == lo && b.at + b.size == hi && hi <= 4 * |words|
    ensures 0 <= Head(b) < |words| && 0 <= Foot(b) < |words|
    ensures Tag(Tagged(words, b), b) && SameOutside(words, Tagged(words, b), lo - WSIZE, hi - WSIZE)
  {
    HeadFoot(b);
  }

  /** Two blocks in place of one. */
  lemma TaggedTwo(words: seq<int>, lo: int, hi: int, a: Block, b: Block)
    requires Shaped(a) && Shaped(b) && a.at == lo && b.at == a.at + a.size && b.at + b.size == hi && hi <= 4 * |words|
    ensures 0 <= Head(a) < |words| && 0 <= Foot(a) < |words| && 0 <= Head(b) < |words| && 0 <= Foot(b) < |words|
    ensures var w := Tagged(Tagged(words, a), b);
            Tag(w, a) && Tag(w, b) && SameOutside(words, w, lo - WSIZE, hi - WSIZE)
  {
    HeadFoot(a);
    HeadFoot(b);
  }

  // ----- malloc's size

  /** The block size for a request, in 32-bit arithmetic. */
  function Asize(size: int): int
    requires 0 < size < WRAP
  {
    if size <= DSIZE then 2 * DSIZE else DSIZE * ((size + DSIZE + (DSIZE - 1)) % WRAP / DSIZE)
  }

  /** A block is large enough exactly when the sum does not wrap around. */
  lemma AsizeEnough(size: int)
    requires 0 < size < WRAP
    ensures Asize(size) >= size + DSIZE <==> size + 15 < WRAP
    ensures Asize(size) % 8 == 0 && (size + 15 < WRAP ==> Asize(size) >= 16)
  {
    if size > DSIZE {
      var x := (size + 15) % WRAP;
      assert x == if size + 15 < WRAP then size + 15 else size + 15 - WRAP;
      assert 8 * (x / 8) <= x < 8 * (x / 8) + 8;
    }
  }

  /** A block for a request: it holds the request and two tags and is less than 16 bytes larger than both, or it
      is one of the two smallest blocks. */
  predicate Snug(block: int, size: int) {
    16 <= block && size + 8 <= block && (block <= 24 || block < size + 24)
  }

  /** No free block could hold the request. */
  ghost predicate NoRoom(blocks: seq<Block>, size: int) {
    forall k | 0 <= k < |blocks| :: blocks[k].alloc || blocks[k].size < size + 8
  }

  /** What malloc asks sbrk for: 4096 bytes, or as much as the request takes if that is more. */
  predicate Amount(e: int, size: int) {
    e % 8 == 0 && e >= size + 8 && (e == 4096 || 4096 < e < size + 16)
  }

  /** sbrk, whose argument is a signed 32-bit number, refused what was asked for. */
  ghost predicate Refused(used: int, limit: int, size: int) {
    exists e :: Amount(e, size) && (e >= 0x8000_0000 || used + e > limit)
  }

  /** Asize is the least multiple of 8 that holds the request and two tags, and 16 at least. */
  lemma AsizeLeast(size: int, block: int)
    requires 0 < size && size + 15 < WRAP
    ensures var a := Asize(size); a % 8 == 0 && a >= 16 && a >= size + 8
    ensures block % 8 == 0 && block >= 16 && block >= size + 8 ==> block >= Asize(size)
    ensures Amount(if Asize(size) > 4096 then Asize(size) else 4096, size)
    ensures Asize(size) <= block < Asize(size) + 16 && block % 8 == 0 ==> Snug(block, size)
  {
    AsizeEnough(size);
    var q := (size + 15) / 8;
    assert 8 * q <= size + 15 < 8 * q + 8;
    var b := block / 8;
    assert block % 8 == 0 ==> block == 8 * b;
    assert size > 8 ==> Asize(size) == 8 * q;
  }

  lemma NoFit(words: seq<int>, blocks: seq<Block>, size: int)
    requires Tiled(words, blocks) && 0 < size && size + 15 < WRAP
    requires forall k | 0 <= k < |blocks| :: blocks[k].alloc || blocks[k].size < Asize(size)
    ensures NoRoom(blocks, size)
  {
    hide Tiled;
    hide Asize;
    hide Tag;
    forall k | 0 <= k < |blocks| ensures blocks[k].alloc || blocks[k].size < size + 8 {
      BlockIs(words, blocks, k);
      AsizeLeast(size, blocks[k].size);
    }
  }

  lemma HalvesSnug(b: Block, size: int)
    requires Shaped(b) && 0 < size && size + 15 < WRAP && Asize(size) <= b.size
    ensures Snug(Halves(b, Asize(size))[0].size, size)
  {
    hide Asize;
    AsizeLeast(size, b.size);
    AsizeLeast(size, Asize(size));
  }

  // ----- What the operations do to the line of blocks

  /** Neighbours that are outside blocks i..j are not both free. */
  ghost predicate MergedOutside(blocks: seq<Block>, i: nat, j: nat) {
    forall x, y {:trigger blocks[x], blocks[y]} | 0 <= x < |blocks| && y == x + 1 < |blocks| && (y < i || j <= x) ::
        blocks[x].alloc || blocks[y].alloc
  }

  lemma OneLive(blocks: seq<Block>, i: nat, j: nat, x: nat)
    requires MergedOutside(blocks, i, j) && x + 1 < |blocks| && (x + 1 < i || j <= x)
    ensures blocks[x].alloc || blocks[x + 1].alloc
  {}

  lemma SpliceMerged(blocks: seq<Block>, i: nat, j: nat, news: seq<Block>)
    requires i <= j <= |blocks| && MergedOutside(blocks, i, j) && Merged(news) && news != []
    requires i > 0 ==> blocks[i - 1].alloc || news[0].alloc
    requires j < |blocks| ==> news[|news| - 1].alloc || blocks[j].alloc
    ensures Merged(Splice(blocks, i, j, news))
  {
    var r, n := Splice(blocks, i, j, news), |news|;
    forall k | 0 <= k < |r| - 1 ensures r[k].alloc || r[k + 1].alloc {
      if k + 1 < i {
        assert r[k] == blocks[k] && r[k + 1] == blocks[k + 1];
      } else if k + 1 == i {
        assert r[k] == blocks[k] && r[k + 1] == news[0];
      } else if k + 1 < i + n {
        assert r[k] == news[k - i] && r[k + 1] == news[k + 1 - i];
      } else if k + 1 == i + n {
        assert r[k] == news[n - 1] && r[k + 1] == blocks[j];
      } else {
        assert r[k] == blocks[k - i - n + j] && r[k + 1] == blocks[k + 1 - i - n + j];
      }
    }
  }

  /** place: what free block `b` becomes. */
  function Halves(b: Block, asize: int): (news: seq<Block>)
    ensures news != []
  {
    if b.size - asize >= 2 * DSIZE then [Block(b.at, asize, true), Block(b.at + asize, b.size - asize, false)]
    else [Block(b.at, b.size, true)]
  }

  function Placed(blocks: seq<Block>, k: nat, asize: int): seq<Block>
    requires k < |blocks|
  {
    Splice(blocks, k, k + 1, Halves(blocks[k], asize))
  }

  lemma SumOfEights(a: int, b: int)
    requires a % 8 == 0 && b % 8 == 0
    ensures (a + b) % 8 == 0 && (a - b) % 8 == 0
  {}

  lemma HalvesCover(b: Block, asize: int)
    requires Shaped(b) && asize % 8 == 0 && 16 <= asize <= b.size
    ensures Covers(Halves(b, asize), b.at, b.at + b.size)
    ensures var h := Halves(b, asize)[0]; h.alloc && h.at == b.at && h.size >= asize
  {
    SumOfEights(b.at, asize);
    SumOfEights(b.size, asize);
    var news := Halves(b, asize);
    forall k | 0 <= k < |news| ensures Shaped(news[k]) {}
  }

  /** One more live block, the rest as before. */
  lemma PlacedLive(blocks: seq<Block>, k: nat, asize: int)
    requires Line(blocks) && Merged(blocks) && k < |blocks| && !blocks[k].alloc && asize % 8 == 0
             && 16 <= asize <= blocks[k].size
    ensures Merged(Placed(blocks, k, asize))
            && Live(Placed(blocks, k, asize)) == Live(blocks) + {Halves(blocks[k], asize)[0]}
    ensures Halves(blocks[k], asize)[0] !in Live(blocks)
  {
    hide Line;
    var news := Halves(blocks[k], asize);
    SpliceLive(blocks, k, k + 1, news);
    assert blocks[k..k + 1] == [blocks[k]];
    assert Live(news) == {news[0]};
    if k > 0 {
      OneLive(blocks, 0, 0, k - 1);
    }
    SpliceMerged(blocks, k, k + 1, news);
    AtOnce(blocks, k, news[0]);
  }

  /** Only block `k` begins where it begins. */
  lemma AtOnce(blocks: seq<Block>, k: nat, b: Block)
    requires Line(blocks) && k < |blocks| && b.at == blocks[k].at && b.alloc != blocks[k].alloc
    ensures b !in blocks
  {
    forall x | 0 <= x < |blocks| ensures blocks[x] != b {
      assert Shaped(blocks[x]) && Shaped(blocks[k]);
      if x != k {
        LiveApart(blocks, x, k);
      }
    }
  }

  predicate PrevFree(blocks: seq<Block>, k: nat)
    requires k < |blocks|
  {
    k > 0 && !blocks[k - 1].alloc
  }

  predicate NextFree(blocks: seq<Block>, k: nat)
    requires k < |blocks|
  {
    k + 1 < |blocks| && !blocks[k + 1].alloc
  }

  /** coalesce: the free neighbours that block `k` is merged with are those from `First` to before `Last`. */
  function First(blocks: seq<Block>, k: nat): nat
    requires k < |blocks|
  {
    if PrevFree(blocks, k) then k - 1 else k
  }

  function Last(blocks: seq<Block>, k: nat): nat
    requires k < |blocks|
  {
    if NextFree(blocks, k) then k + 2 else k + 1
  }

  function Joined(blocks: seq<Block>, k: nat): Block
    requires k < |blocks|
  {
    var i, j := First(blocks, k), Last(blocks, k);
    Block(blocks[i].at, blocks[j - 1].at + blocks[j - 1].size - blocks[i].at, false)
  }

  function Coalesced(blocks: seq<Block>, k: nat): seq<Block>
    requires k < |blocks|
  {
    Splice(blocks, First(blocks, k), Last(blocks, k), [Joined(blocks, k)])
  }

  lemma JoinedCovers(blocks: seq<Block>, k: nat)
    requires Line(blocks) && k < |blocks|
    ensures var i, j, b := First(blocks, k), Last(blocks, k), Joined(blocks, k);
      Shaped(b) && b.at == blocks[i].at && b.at + b.size == blocks[j - 1].at + blocks[j - 1].size
          && Covers([b], b.at, b.at + b.size)
    ensures var sum := blocks[k].size + (if PrevFree(blocks, k) then blocks[k - 1].size
            else 0) + (if NextFree(blocks, k) then blocks[k + 1].size else 0);
      Joined(blocks, k).size == sum && !Joined(blocks, k).alloc && (PrevFree(blocks, k) ==> blocks[k - 1].size >= 16)
  {
    hide Shaped;
    var i, j, b := First(blocks, k), Last(blocks, k), Joined(blocks, k);
    assert Shaped(blocks[i]) && Shaped(blocks[k]) && Shaped(blocks[j - 1]);
    ShapedEnd(blocks[i]);
    ShapedEnd(blocks[k]);
    ShapedEnd(blocks[j - 1]);
    if PrevFree(blocks, k) {
      assert blocks[k].at == blocks[k - 1].at + blocks[k - 1].size;
    }
    if NextFree(blocks, k) {
      assert blocks[k + 1].at == blocks[k].at + blocks[k].size;
    }
    ShapedIs(b, blocks[j - 1].at + blocks[j - 1].size);
  }

  lemma ShapedIs(b: Block, end: int)
    requires b.at % 8 == 0 && b.at >= 16 && end % 8 == 0 && b.size == end - b.at && b.size >= 16
    ensures Shaped(b)
  {
    SumOfEights(end, b.at);
  }

  lemma CoalescedLive(blocks: seq<Block>, k: nat)
    requires Line(blocks) && k < |blocks| && !blocks[k].alloc && MergedOutside(blocks, k, k + 1)
    ensures Merged(Coalesced(blocks, k)) && Live(Coalesced(blocks, k)) == Live(blocks)
  {
    var i, j := First(blocks, k), Last(blocks, k);
    var news := [Joined(blocks, k)];
    SpliceLive(blocks, i, j, news);
    assert Live(news) == {};
    forall b | b in blocks[i..j] ensures !b.alloc {}
    assert Live(blocks[i..j]) == {};
    if 0 < i < k {
      OneLive(blocks, k, k + 1, i - 1);
    }
    if k + 1 < j < |blocks| {
      OneLive(blocks, k, k + 1, j - 1);
    }
    SpliceMerged(blocks, i, j, news);
  }

  /** Block `k` marked free. */
  function Freed(blocks: seq<Block>, k: nat): seq<Block>
    requires k < |blocks|
  {
    Splice(blocks, k, k + 1, [Block(blocks[k].at, blocks[k].size, false)])
  }

  lemma FreedIs(blocks: seq<Block>, k: nat)
    requires Line(blocks) && Merged(blocks) && k < |blocks|
    ensures var f := Freed(blocks, k);
      && |f| == |blocks| && f[k] == Block(blocks[k].at, blocks[k].size, false)
         && (forall x | 0 <= x < |blocks| && x != k :: f[x] == blocks[x])
      && MergedOutside(f, k, k + 1) && Live(f) == Live(blocks) - {blocks[k]}
  {
    var f, news := Freed(blocks, k), [Block(blocks[k].at, blocks[k].size, false)];
    SpliceLive(blocks, k, k + 1, news);
    assert blocks[k..k + 1] == [blocks[k]];
    assert Live(news) == {};
    assert Live(blocks[k..k + 1]) == if blocks[k].alloc then {blocks[k]} else {};
    forall x | 0 <= x < |blocks| && x != k ensures f[x] == blocks[x] {}
  }

  // ----- What coalesce and free do to the words

  function Read(words: seq<int>, a: int): int {
    if 0 <= WordAt(a) < |words| then words[WordAt(a)] else 0
  }

  function Write(words: seq<int>, a: int, v: int): (w: seq<int>)
    ensures |w| == |words|
  {
    if 0 <= WordAt(a) < |words| then words[WordAt(a) := v] else words
  }

  /** FTRP, NEXT_BLKP and PREV_BLKP */
  function FooterOf(words: seq<int>, bp: int): int {
    bp + SizeOf(Read(words, bp - WSIZE)) - DSIZE
  }

  function NextOf(words: seq<int>, bp: int): int {
    bp + SizeOf(Read(words, bp - WSIZE))
  }

  function PrevOf(words: seq<int>, bp: int): int {
    bp - SizeOf(Read(words, bp - DSIZE))
  }

  /** coalesce, all four branches */
  function CoalesceWords(words: seq<int>, bp: int): seq<int> {
    var prevAlloc := AllocOf(Read(words, FooterOf(words, PrevOf(words, bp))));
    var nextAlloc := AllocOf(Read(words, NextOf(words, bp) - WSIZE));
    var size := SizeOf(Read(words, bp - WSIZE));
    if prevAlloc && nextAlloc then words
    else if prevAlloc then
      var sum := Pack(size + SizeOf(Read(words, NextOf(words, bp) - WSIZE)), false);
      var w := Write(words, FooterOf(words, bp), sum);
      Write(w, FooterOf(w, bp), sum)
    else if nextAlloc then
      var sum := Pack(size + SizeOf(Read(words, PrevOf(words, bp) - WSIZE)), false);
      var w := Write(words, FooterOf(words, bp), sum);
      Write(w, PrevOf(w, bp) - WSIZE, sum)
    else
      var sum := Pack(size + (SizeOf(Read(words, PrevOf(words, bp) - WSIZE))
          + SizeOf(Read(words, FooterOf(words, NextOf(words, bp))))), false);
      var w := Write(words, PrevOf(words, bp) - WSIZE, sum);
      Write(w, FooterOf(w, NextOf(w, bp)), sum)
  }

  /** free of a pointer that is not NULL */
  function FreeWords(words: seq<int>, ptr: int): seq<int> {
    var tag := Pack(SizeOf(Read(words, ptr - WSIZE)), false);
    var w := Write(words, ptr - WSIZE, tag);
    CoalesceWords(Write(w, FooterOf(w, ptr), tag), ptr)
  }

  /** The addresses that coalesce computes, and what it finds there. */
  lemma Around(words: seq<int>, blocks: seq<Block>, k: nat)
    requires Tiled(words, blocks) && k < |blocks|
    ensures var b := blocks[k];
      && PrevOf(words, b.at) == (if k > 0 then blocks[k - 1].at else 8)
      && FooterOf(words, PrevOf(words, b.at)) == b.at - DSIZE
         && AllocOf(Read(words, b.at - DSIZE)) == !PrevFree(blocks, k)
      && SizeOf(Read(words, b.at - WSIZE)) == b.size
      && AllocOf(Read(words, b.at + b.size - WSIZE)) == !NextFree(blocks, k)
      && (k > 0 ==> SizeOf(Read(words, blocks[k - 1].at - WSIZE)) == blocks[k - 1].size
                    && blocks[k - 1].at + blocks[k - 1].size == b.at)
      && (k + 1 < |blocks| ==>
           var n := blocks[k + 1];
           SizeOf(Read(words, n.at - WSIZE)) == n.size == SizeOf(Read(words, n.at + n.size - DSIZE))
               && n.at == b.at + b.size)
  {
    hide Tiled;
    hide Line;
    hide SizeOf;
    hide AllocOf;
    hide WordAt;
    hide Shaped;
    Neighbours(words, blocks, k);
    Inside(words, blocks, k);
    if k > 0 {
      TagsRead(words, blocks, k - 1);
    } else {
      FirstBlock(words, blocks);
    }
    if k + 1 < |blocks| {
      TagsRead(words, blocks, k + 1);
    }
  }

  lemma TagsRead(words: seq<int>, blocks: seq<Block>, k: nat)
    requires Tiled(words, blocks) && k < |blocks|
    ensures SizeOf(Read(words, blocks[k].at - WSIZE)) == blocks[k].size ==
            SizeOf(Read(words, blocks[k].at + blocks[k].size - DSIZE))
  {
    hide WordAt;
    hide SizeOf;
    hide AllocOf;
    BlockIs(words, blocks, k);
    PackIs(blocks[k].size, blocks[k].alloc);
  }

  /** Before the first block is the prologue. */
  lemma FirstBlock(words: seq<int>, blocks: seq<Block>)
    requires Tiled(words, blocks) && blocks != []
    ensures blocks[0].at == 16 && SizeOf(Read(words, 4)) == 8 == SizeOf(Read(words, 8))
  {
    PackIs(DSIZE, true);
  }

  /** Header, and the footer of the block and of its neighbours. */
  lemma Inside(words: seq<int>, blocks: seq<Block>, k: nat)
    requires Tiled(words, blocks) && k < |blocks|
    ensures 0 <= Head(blocks[k]) < Foot(blocks[k]) < |words| && blocks[k].size >= 16 && blocks[k].size % 8 == 0
  {
    BlockIs(words, blocks, k);
  }

  lemma ReadWrite(words: seq<int>, a: int, v: int, c: int)
    requires 0 <= WordAt(a) < |words|
    ensures Write(words, a, v) == words[WordAt(a) := v]
    ensures WordAt(c) != WordAt(a) ==> Read(Write(words, a, v), c) == Read(words, c)
  {
    hide WordAt;
  }

  /** With nothing free around it, the block stays as it is. */
  lemma CoalesceAlone(words: seq<int>, blocks: seq<Block>, k: nat)
    requires Tiled(words, blocks) && k < |blocks| && !PrevFree(blocks, k) && !NextFree(blocks, k)
    ensures CoalesceWords(words, blocks[k].at) == words
  {
    hide Tiled;
    hide SizeOf;
    hide AllocOf;
    Around(words, blocks, k);
  }

  /** After an allocated and before a free block, only its footer is written. */
  lemma CoalesceNext(words: seq<int>, blocks: seq<Block>, k: nat)
    requires Tiled(words, blocks) && k < |blocks| && !PrevFree(blocks, k) && NextFree(blocks, k)
    ensures 0 <= Foot(blocks[k]) < |words|
    ensures CoalesceWords(words, blocks[k].at) ==
            words[Foot(blocks[k]) := Pack(blocks[k].size + blocks[k + 1].size, false)]
  {
    hide Tiled;
    hide SizeOf;
    hide AllocOf;
    hide WordAt;
    hide Pack;
    hide Read;
    hide Write;
    var b := blocks[k];
    Around(words, blocks, k);
    Inside(words, blocks, k);
    var sum := Pack(b.size + blocks[k + 1].size, false);
    ReadWrite(words, b.at + b.size - DSIZE, sum, b.at - WSIZE);
    ReadWrite(words[Foot(b) := sum], b.at + b.size - DSIZE, sum, b.at - WSIZE);
  }

  /** After a free and before an allocated block, the header of the first and the footer of the second are. */
  lemma CoalescePrev(words: seq<int>, blocks: seq<Block>, k: nat)
    requires Tiled(words, blocks) && k < |blocks| && PrevFree(blocks, k) && !NextFree(blocks, k)
    ensures 0 <= Head(blocks[k - 1]) < |words| && 0 <= Foot(blocks[k]) < |words|
    ensures var sum := Pack(blocks[k].size + blocks[k - 1].size, false);
      CoalesceWords(words, blocks[k].at) == words[Foot(blocks[k]) := sum][Head(blocks[k - 1]) := sum]
    ensures PrevOf(CoalesceWords(words, blocks[k].at), blocks[k].at) == blocks[k - 1].at
  {
    hide Tiled;
    hide SizeOf;
    hide AllocOf;
    hide WordAt;
    hide Pack;
    hide Read;
    hide Write;
    var b, p := blocks[k], blocks[k - 1];
    Around(words, blocks, k);
    InOrderTags(words, blocks, k - 1, k);
    PrevFoot(words, blocks, k);
    var sum := Pack(b.size + p.size, false);
    ReadWrite(words, b.at + b.size - DSIZE, sum, b.at - DSIZE);
    ReadWrite(words[Foot(b) := sum], p.at - WSIZE, sum, b.at - DSIZE);
  }

  lemma PrevFoot(words: seq<int>, blocks: seq<Block>, k: nat)
    requires Tiled(words, blocks) && 0 < k < |blocks|
    ensures WordAt(blocks[k].at - DSIZE) == Foot(blocks[k - 1])
  {
    hide WordAt;
    Neighbours(words, blocks, k);
  }

  /** Between two free blocks, the header of the first and the footer of the last are. */
  lemma CoalesceBoth(words: seq<int>, blocks: seq<Block>, k: nat)
    requires Tiled(words, blocks) && k < |blocks| && PrevFree(blocks, k) && NextFree(blocks, k)
    ensures 0 <= Head(blocks[k - 1]) < |words| && 0 <= Foot(blocks[k + 1]) < |words|
    ensures var sum := Pack(blocks[k].size + (blocks[k - 1].size + blocks[k + 1].size), false);
      CoalesceWords(words, blocks[k].at) == words[Head(blocks[k - 1]) := sum][Foot(blocks[k + 1]) := sum]
    ensures PrevOf(CoalesceWords(words, blocks[k].at), blocks[k].at) == blocks[k - 1].at
  {
    hide Tiled;
    hide SizeOf;
    hide AllocOf;
    hide WordAt;
    hide Pack;
    hide Read;
    hide Write;
    var b, p, n := blocks[k], blocks[k - 1], blocks[k + 1];
    Around(words, blocks, k);
    InOrderTags(words, blocks, k - 1, k);
    InOrderTags(words, blocks, k, k + 1);
    var sum := Pack(b.size + (p.size + n.size), false);
    ReadWrite(words, p.at - WSIZE, sum, b.at - WSIZE);
    ReadWrite(words, p.at - WSIZE, sum, n.at - WSIZE);
    ReadWrite(words[Head(p) := sum], n.at + n.size - DSIZE, sum, b.at - WSIZE);
    PrevFoot(words, blocks, k);
    ReadWrite(words, p.at - WSIZE, sum, b.at - DSIZE);
    ReadWrite(words[Head(p) := sum], n.at + n.size - DSIZE, sum, b.at - DSIZE);
  }

  /** Where coalesce does what it is for, the words are those of the merged line. */
  lemma CoalesceTiled(words: seq<int>, blocks: seq<Block>, k: nat)
    requires Tiled(words, blocks) && k < |blocks| && !blocks[k].alloc && (NextFree(blocks, k) ==> PrevFree(blocks, k))
    ensures Tiled(CoalesceWords(words, blocks[k].at), Coalesced(blocks, k))
    ensures Joined(blocks, k).at == if PrevFree(blocks, k)
            then PrevOf(CoalesceWords(words, blocks[k].at), blocks[k].at) else blocks[k].at
    ensures var i, j := First(blocks, k), Last(blocks, k);
      SameOutside(words, CoalesceWords(words, blocks[k].at), blocks[i].at - WSIZE,
                  blocks[j - 1].at + blocks[j - 1].size - WSIZE)
  {
    hide Tiled;
    hide Line;
    hide Tag;
    hide Covers;
    hide SameOutside;
    hide Splice;
    hide Joined;
    hide WordAt;
    hide Shaped;
    hide Tagged;
    hide CoalesceWords;
    hide PrevOf;
    var b, whole := blocks[k], Joined(blocks, k);
    var i, j := First(blocks, k), Last(blocks, k);
    Neighbours(words, blocks, k);
    LineIs(words, blocks);
    JoinedCovers(blocks, k);
    BlockIs(words, blocks, k);
    BlockFits(words, blocks, j - 1);
    TaggedOne(words, whole.at, whole.at + whole.size, whole);
    SpliceTiled(words, blocks, i, j, [whole], Tagged(words, whole));
    TaggedIs(words, whole);
    TaggedAnyOrder(words, whole);
    if !PrevFree(blocks, k) {
      CoalesceAlone(words, blocks, k);
      AlreadyTagged(words, b, whole);
    } else if !NextFree(blocks, k) {
      CoalescePrev(words, blocks, k);
    } else {
      CoalesceBoth(words, blocks, k);
    }
  }

  /** In all four branches coalesce leaves what the live blocks hold. */
  lemma CoalescePayloads(words: seq<int>, blocks: seq<Block>, k: nat)
    requires Tiled(words, blocks) && k < |blocks| && !blocks[k].alloc
    ensures PayloadsKept(words, CoalesceWords(words, blocks[k].at), Live(blocks))
  {
    hide Tiled;
    hide CoalesceWords;
    hide PayloadsKept;
    hide SameOutside;
    hide WordAt;
    hide Pack;
    var i, j := First(blocks, k), Last(blocks, k);
    if NextFree(blocks, k) && !PrevFree(blocks, k) {
      CoalesceNext(words, blocks, k);
      Inside(words, blocks, k);
      FootWritten(words, blocks[k], Pack(blocks[k].size + blocks[k + 1].size, false));
      StretchPayloads(words, blocks, k, k + 1, CoalesceWords(words, blocks[k].at));
      NoneLive(blocks, k, k + 1);
    } else {
      CoalesceTiled(words, blocks, k);
      StretchPayloads(words, blocks, i, j, CoalesceWords(words, blocks[k].at));
      NoneLive(blocks, i, j);
    }
  }

  lemma NoneLive(blocks: seq<Block>, i: nat, j: nat)
    requires i <= j <= |blocks| && forall m | i <= m < j :: !blocks[m].alloc
    ensures Live(blocks[i..j]) == {} && Live(blocks) - Live(blocks[i..j]) == Live(blocks)
  {
    forall b | b in blocks[i..j] ensures !b.alloc {}
  }

  lemma FootWritten(words: seq<int>, b: Block, v: int)
    requires 0 <= Foot(b) < |words| && b.size >= 16
    ensures SameOutside(words, words[Foot(b) := v], b.at - WSIZE, b.at + b.size - WSIZE)
  {}

  /** Every address that coalesce reads or writes is inside the heap. */
  lemma CoalesceInside(words: seq<int>, blocks: seq<Block>, k: nat)
    requires Tiled(words, blocks) && k < |blocks|
    ensures var b, prev := blocks[k], PrevOf(words, blocks[k].at);
      && 0 <= WordAt(b.at - DSIZE) < |words| && 0 <= WordAt(b.at - WSIZE) < |words|
         && 0 <= WordAt(prev - WSIZE) < |words|
      && 0 <= WordAt(b.at + b.size - WSIZE) < |words| && 0 <= WordAt(b.at + b.size - DSIZE) < |words|
      && (k + 1 < |blocks| ==> 0 <= WordAt(blocks[k + 1].at + blocks[k + 1].size - DSIZE) < |words|)
  {
    hide Tiled;
    hide Line;
    hide SizeOf;
    hide AllocOf;
    Neighbours(words, blocks, k);
    Around(words, blocks, k);
    Inside(words, blocks, k);
    if k > 0 {
      Inside(words, blocks, k - 1);
    }
    if k + 1 < |blocks| {
      Inside(words, blocks, k + 1);
    }
  }

  // ----- The heap

  class Heap {
    var words: seq<int>
    const limit: int              // what sbrk can give, in bytes
    ghost var blocks: seq<Block>

    ghost predicate Valid()
      reads this
    {
      Tiled(words, blocks) && Merged(blocks) && 4 * |words| <= limit < WRAP
    }

    function Get(a: int): int
      requires 0 <= WordAt(a) < |words|
      reads this
    {
      words[WordAt(a)]
    }

    /** find_fit walks over the blocks; 0 stands for NULL. */
    method FindFit(asize: int) returns (bp: int, ghost k: nat)
      requires Tiled(words, blocks) && asize > 0
      ensures bp == 0 ==> forall x | 0 <= x < |blocks| :: blocks[x].alloc || blocks[x].size < asize
      ensures bp != 0 ==> k < |blocks| && bp == blocks[k].at && !blocks[k].alloc && blocks[k].size >= asize
      ensures bp != 0 ==> forall x | 0 <= x < k :: blocks[x].alloc || blocks[x].size < asize
    {
      hide Line;
      hide Tag;
      hide SizeOf;
      hide AllocOf;
      bp, k := 8, 0;
      PackIs(DSIZE, true);
      PackIs(0, true);
      assert words[WordAt(bp - WSIZE)] == Pack(DSIZE, true);
      var size, alloc := SizeOf(Get(bp - WSIZE)), AllocOf(Get(bp - WSIZE));
      bp := bp + size;
      PlaceOf(words, blocks, 0);
      while SizeOf(Get(bp - WSIZE)) > 0
        invariant 0 <= k <= |blocks| && bp == (if k < |blocks| then blocks[k].at else End(blocks)) && 4 <= bp
                  && WordAt(bp - WSIZE) < |words|
        invariant SizeOf(words[WordAt(bp - WSIZE)]) > 0 <==> k < |blocks|
        invariant forall x | 0 <= x < k :: blocks[x].alloc || blocks[x].size < asize
        decreases |blocks| - k
      {
        PlaceOf(words, blocks, k);
        BlockIs(words, blocks, k);
        PackIs(blocks[k].size, blocks[k].alloc);
        if !AllocOf(Get(bp - WSIZE)) && SizeOf(Get(bp - WSIZE)) >= asize {
          return;
        }
        bp := bp + SizeOf(Get(bp - WSIZE));
        k := k + 1;
        PlaceOf(words, blocks, k);
      }
      bp := 0;
    }

    /** place */
    method Place(bp: int, asize: int, ghost k: nat)
      requires Tiled(words, blocks) && k < |blocks| && bp == blocks[k].at && !blocks[k].alloc
      requires asize % 8 == 0 && 16 <= asize <= blocks[k].size
      modifies this`words, this`blocks
      ensures Tiled(words, blocks) && blocks == Placed(old(blocks), k, asize) && |words| == |old(words)|
      ensures PayloadsKept(old(words), words, Live(old(blocks)))
    {
      hide Tiled;
      hide Line;
      hide Tag;
      hide SizeOf;
      hide Covers;
      hide SameOutside;
      hide Splice;
      hide WordAt;
      hide Tagged;
      hide PayloadsKept;
      hide Live;
      hide Pack;
      ghost var b, news := blocks[k], Halves(blocks[k], asize);
      BlockIs(words, blocks, k);
      PlaceOf(words, blocks, k);
      PackIs(b.size, false);
      BlockFits(words, blocks, k);
      HalvesCover(b, asize);
      HeadFoot(b);
      var csize := SizeOf(Get(bp - WSIZE));
      if csize - asize >= 2 * DSIZE {
        TaggedTwo(words, b.at, b.at + b.size, news[0], news[1]);
        SpliceTiled(words, blocks, k, k + 1, news, Tagged(Tagged(words, news[0]), news[1]));
        TaggedIs(words, news[0]);
        TaggedIs(Tagged(words, news[0]), news[1]);
        words := Put(words, bp - WSIZE, Pack(asize, true));
        words := Put(words, bp + asize - DSIZE, Pack(asize, true));
        var nbp := bp + asize;
        words := Put(words, nbp - WSIZE, Pack(csize - asize, false));
        words := Put(words, nbp + (csize - asize) - DSIZE, Pack(csize - asize, false));
      } else {
        TaggedOne(words, b.at, b.at + b.size, news[0]);
        SpliceTiled(words, blocks, k, k + 1, news, Tagged(words, news[0]));
        TaggedIs(words, news[0]);
        words := Put(words, bp - WSIZE, Pack(csize, true));
        words := Put(words, bp + csize - DSIZE, Pack(csize, true));
      }
      StretchPayloads(old(words), blocks, k, k + 1, words);
      NoneLive(blocks, k, k + 1);
      blocks := Placed(blocks, k, asize);
    }

    /** coalesce: the block and its free neighbours become one, unless the block comes after an allocated and
        before a free one. For what becomes of the words then see FreeExactly. */
    method Coalesce(bp: int, ghost k: nat) returns (r: int)
      requires Tiled(words, blocks) && k < |blocks| && bp == blocks[k].at && !blocks[k].alloc
      modifies this`words, this`blocks
      ensures words == CoalesceWords(old(words), bp) && |words| == |old(words)|
      ensures PayloadsKept(old(words), words, Live(old(blocks)))
      ensures old(NextFree(blocks, k) ==> PrevFree(blocks, k)) ==>
                Tiled(words, blocks) && blocks == Coalesced(old(blocks), k) && r == Joined(old(blocks), k).at
    {
      hide Tiled;
      hide Coalesced;
      hide Joined;
      hide CoalesceWords;
      hide PayloadsKept;
      hide Live;
      CoalescePayloads(words, blocks, k);
      ghost var was := blocks;
      if NextFree(blocks, k) ==> PrevFree(blocks, k) {
        CoalesceTiled(words, blocks, k);
      }
      r := Merge(bp, k);
      if NextFree(was, k) ==> PrevFree(was, k) {
        blocks := Coalesced(was, k);
      }
    }

    /** The code of coalesce. */
    method Merge(bp: int, ghost k: nat) returns (r: int)
      requires Tiled(words, blocks) && k < |blocks| && bp == blocks[k].at && !blocks[k].alloc
      modifies this`words
      ensures words == CoalesceWords(old(words), bp) && |words| == |old(words)|
      ensures r == if PrevFree(blocks, k) then PrevOf(words, bp) else bp
    {
      hide Tiled;
      hide Line;
      hide SizeOf;
      hide AllocOf;
      hide WordAt;
      hide Shaped;
      Around(words, blocks, k);
      CoalesceInside(words, blocks, k);
      var prev := bp - SizeOf(Get(bp - DSIZE));
      var prevAlloc := AllocOf(Get(prev + SizeOf(Get(prev - WSIZE)) - DSIZE));
      var nextAlloc := AllocOf(Get(bp + SizeOf(Get(bp - WSIZE)) - WSIZE));
      var size := SizeOf(Get(bp - WSIZE));
      if prevAlloc && nextAlloc {
        r := bp;
      } else if prevAlloc {
        size := size + SizeOf(Get(bp + SizeOf(Get(bp - WSIZE)) - WSIZE));
        words := Put(words, bp + SizeOf(Get(bp - WSIZE)) - DSIZE, Pack(size, false));
        words := Write(words, FooterOf(words, bp), Pack(size, false));
        r := bp;
      } else if nextAlloc {
        size := size + SizeOf(Get(prev - WSIZE));
        words := Put(words, bp + SizeOf(Get(bp - WSIZE)) - DSIZE, Pack(size, false));
        words := Write(words, PrevOf(words, bp) - WSIZE, Pack(size, false));
        r := PrevOf(words, bp);
      } else {
        var next := bp + SizeOf(Get(bp - WSIZE));
        size := size + (SizeOf(Get(prev - WSIZE)) + SizeOf(Get(next + SizeOf(Get(next - WSIZE)) - DSIZE)));
        words := Put(words, prev - WSIZE, Pack(size, false));
        words := Write(words, FooterOf(words, NextOf(words, bp)), Pack(size, false));
        r := PrevOf(words, bp);
      }
    }

    /** sbrk, and the words that come with it. */
    method MemSbrk(incr: int) returns (old_brk: int)
      requires incr % 4 == 0 && 0 <= incr < WRAP && 4 * |words| <= limit
      modifies this`words
      ensures old_brk == -1 ==> words == old(words) && (incr >= WRAP / 2 || 4 * |words| + incr > limit)
      ensures old_brk != -1 ==> old_brk == 4 * |old(words)| && incr < WRAP / 2 && 4 * |words| <= limit
      ensures old_brk != -1 ==> |words| == |old(words)| + incr / 4 && words[..|old(words)|] == old(words)
    {
      // the argument is a signed 32-bit number
      if incr >= WRAP / 2 || 4 * |words| + incr > limit {
        return -1;
      }
      old_brk := 4 * |words|;
      words := words + seq(incr / 4, _ => 0);
    }

    /** extend_heap; the size comes in words, and is rounded up to an even number of them */
    method ExtendHeap(n: int) returns (bp: int, ghost k: nat)
      requires Valid() && 3 <= n && 4 * (n + n % 2) < WRAP
      modifies this`words, this`blocks
      ensures Valid() && Live(blocks) == Live(old(blocks)) && PayloadsKept(old(words), words, Live(blocks))
      ensures bp == 0 ==> words == old(words) && blocks == old(blocks)
      ensures bp == 0 ==> 4 * (n + n % 2) >= WRAP / 2 || 4 * |words| + 4 * (n + n % 2) > limit
      ensures bp != 0 ==> k < |blocks| && bp == blocks[k].at && !blocks[k].alloc && blocks[k].size >= 4 * n
      ensures bp != 0 ==> |words| == |old(words)| + n + n % 2
      ensures bp != 0 ==> 4 * (n + n % 2) < WRAP / 2 && 4 * |words| <= limit
    {
      hide Tiled;
      hide Line;
      hide Tag;
      hide Merged;
      hide MergedOutside;
      hide Live;
      hide Coalesced;
      hide WordAt;
      hide Tagged;
      hide PayloadsKept;
      PayloadsSame(words, blocks);
      var size := if n % 2 == 1 then (n + 1) * WSIZE else n * WSIZE;
      EvenSize(n);
      EndIs(words, blocks);
      ghost var b := Block(4 * |words|, size, false);
      bp := MemSbrk(size);
      if bp == -1 {
        return 0, 0;
      }
      ghost var w := words;
      ExtendTiled(old(words), blocks, w, b);
      PackIs(size, false);
      words := Put(words, bp - WSIZE, Pack(size, false));
      words := Put(words, bp + SizeOf(Get(bp - WSIZE)) - DSIZE, Pack(size, false));
      words := Put(words, bp + SizeOf(Get(bp - WSIZE)) - WSIZE, Pack(0, true));
      assert words == Extended(w, |old(words)|, b);
      ExtendedPayloads(old(words), blocks, w, b);
      ghost var mid := words;
      k := |blocks|;
      ghost var grown := blocks + [b];
      blocks := grown;
      AppendLive(old(blocks), b);
      LineIs(words, grown);
      bp := Coalesce(bp, k);
      CoalescedLive(grown, k);
      CoalescedBlock(grown, k);
      PayloadsAgain(old(words), mid, words, Live(old(blocks)));
      k := First(grown, k);
    }

    /** mm_init; it may have failed to get memory beyond the prologue */
    constructor (limit: int)
      requires 16 <= limit < WRAP
      ensures Valid() && Live(blocks) == {} && this.limit == limit
      ensures |words| == if limit >= 16 + 4096 then 4 + 1024 else 4
    {
      this.limit := limit;
      words := [0, Pack(DSIZE, true), Pack(DSIZE, true), Pack(0, true)];
      blocks := [];
      new;
      var _, _ := ExtendHeap(CHUNKSIZE / WSIZE);
    }

    /** malloc: one more live block, 8-aligned and large enough, and all others as they were; or nothing
        changes for the program, because no free block is large enough and sbrk gives no more. */
    method Malloc(size: int) returns (bp: int)
      requires Valid() && 0 <= size && size + 15 < WRAP
      modifies this`words, this`blocks
      ensures Valid() && PayloadsKept(old(words), words, Live(old(blocks)))
      ensures bp != 0 ==> exists b ::
                b !in Live(old(blocks)) && Live(blocks) == Live(old(blocks)) + {b} && b.at == bp && bp % 8 == 0
                    && size > 0 && Snug(b.size, size)
      ensures bp != 0 && |words| != |old(words)| ==>
                NoRoom(old(blocks), size) && Amount(4 * (|words| - |old(words)|), size)
      ensures bp == 0 ==> blocks == old(blocks) && words == old(words)
      ensures bp == 0 && size > 0 ==> NoRoom(blocks, size) && Refused(4 * |words|, limit, size)
    {
      hide Tiled;
      hide Line;
      hide Merged;
      hide Live;
      hide Placed;
      hide Halves;
      hide Asize;
      hide WordAt;
      hide SizeOf;
      hide PayloadsKept;
      hide Snug;
      hide NoRoom;
      hide Amount;
      PayloadsSame(words, blocks);
      if size == 0 {
        return 0;
      }
      var asize := Asize(size);
      AsizeEnough(size);
      LineIs(words, blocks);
      ghost var k;
      bp, k := FindFit(asize);
      if bp != 0 {
        BlockIs(words, blocks, k);
        HalvesCover(blocks[k], asize);
        HalvesSnug(blocks[k], size);
        PlacedLive(blocks, k, asize);
        Place(bp, asize, k);
        return;
      }
      AsizeFits(size);
      NoFit(words, blocks, size);
      AsizeLeast(size, asize);
      var extendsize := if asize > CHUNKSIZE then asize else CHUNKSIZE;
      EvenWords(extendsize);
      bp, k := ExtendHeap(extendsize / WSIZE);
      if bp == 0 {
        return;
      }
      LineIs(words, blocks);
      BlockIs(words, blocks, k);
      HalvesCover(blocks[k], asize);
      HalvesSnug(blocks[k], size);
      PlacedLive(blocks, k, asize);
      ghost var mid := words;
      Place(bp, asize, k);
      PayloadsAgain(old(words), mid, words, Live(old(blocks)));
    }

    /** free: exactly this block stops being live, unless it comes after an allocated and before a free one; for
        what becomes of the heap then see FreeExactly. Nothing happens for NULL. */
    method Free(ptr: int, ghost k: nat)
      requires Valid() && (ptr != 0 ==> k < |blocks| && blocks[k].alloc && ptr == blocks[k].at)
      modifies this`words, this`blocks
      ensures words == if ptr == 0 then old(words) else FreeWords(old(words), ptr)
      ensures ptr == 0 ==> blocks == old(blocks)
      ensures ptr != 0 ==> PayloadsKept(old(words), words, Live(old(blocks)) - {old(blocks)[k]})
      ensures ptr != 0 && old(NextFree(blocks, k) ==> PrevFree(blocks, k)) ==>
                Valid() && Live(blocks) == Live(old(blocks)) - {old(blocks)[k]} && |words| == |old(words)|
    {
      hide Tiled;
      hide Line;
      hide Merged;
      hide MergedOutside;
      hide Live;
      hide Coalesced;
      hide Freed;
      hide WordAt;
      hide Covers;
      hide SameOutside;
      hide Tag;
      hide FreeWords;
      hide CoalesceWords;
      hide PayloadsKept;
      if ptr == 0 {
        return;
      }
      ghost var b := Block(ptr, blocks[k].size, false);
      LineIs(words, blocks);
      BlockIs(words, blocks, k);
      BlockFits(words, blocks, k);
      PackIs(b.size, true);
      PlaceOf(words, blocks, k);
      FreedIs(blocks, k);
      FreedTiled(words, blocks, k, b);
      FreeStart(words, blocks, k);
      FreePayloads(words, blocks, k);
      var size := SizeOf(Get(ptr - WSIZE));
      words := Put(words, ptr - WSIZE, Pack(size, false));
      HeadTag(old(words), b);
      words := Put(words, ptr + SizeOf(Get(ptr - WSIZE)) - DSIZE, Pack(size, false));
      blocks := Freed(blocks, k);
      LineIs(words, blocks);
      CoalescedLive(blocks, k);
      ghost var mid := words;
      var _ := Coalesce(ptr, k);
      PayloadsAgain(old(words), mid, words, Live(old(blocks)) - {old(blocks)[k]});
    }
  }

  lemma EvenSize(n: nat)
    ensures (4 * (n + n % 2)) % 8 == 0 && 4 * (n + n % 2) == if n % 2 == 1 then (n + 1) * WSIZE else n * WSIZE
  {}

  lemma EvenWords(size: int)
    requires size % 8 == 0 && size >= 16
    ensures (size / WSIZE) % 2 == 0 && size / WSIZE >= 4 && 4 * (size / WSIZE) == size
  {}

  lemma AsizeFits(size: int)
    requires 0 < size && size + 15 < WRAP
    ensures Asize(size) < WRAP
  {}

  lemma HeadTag(words: seq<int>, b: Block)
    requires Shaped(b) && 0 <= Head(b) < |words|
    ensures SizeOf(words[Head(b) := Pack(b.size, false)][WordAt(b.at - WSIZE)]) == b.size
  {
    PackIs(b.size, false);
  }

  lemma FreedTiled(words: seq<int>, blocks: seq<Block>, k: nat, b: Block)
    requires Tiled(words, blocks) && k < |blocks| && b == Block(blocks[k].at, blocks[k].size, false)
    ensures 0 <= Head(b) < |words| && 0 <= Foot(b) < |words|
    ensures Tiled(words[Head(b) := Pack(b.size, false)][Foot(b) := Pack(b.size, false)], Freed(blocks, k))
  {
    hide Tiled;
    hide Tag;
    BlockIs(words, blocks, k);
    BlockFits(words, blocks, k);
    TaggedOne(words, b.at, b.at + b.size, b);
    SpliceTiled(words, blocks, k, k + 1, [b], Tagged(words, b));
  }

  // ----- When free keeps the heap in order

  lemma {:induction false} SameBefore(words: seq<int>, blocks: seq<Block>, w: seq<int>, other: seq<Block>, k: nat)
    requires Tiled(words, blocks) && Tiled(w, other) && k < |blocks| && |w| == |words|
    requires forall x | 0 <= x <= k :: w[Head(blocks[x])] == words[Head(blocks[x])]
    ensures k < |other| && other[k] == blocks[k]
  {
    if k > 0 {
      SameBefore(words, blocks, w, other, k - 1);
    }
    PlaceOf(words, blocks, k);
    BlockIs(words, blocks, k);
    BlockFits(words, blocks, k);
    PlaceOf(w, other, if k <= |other| then k else |other|);
    PackIs(blocks[k].size, blocks[k].alloc);
    if k < |other| {
      BlockIs(w, other, k);
      PackIs(other[k].size, other[k].alloc);
    }
  }

  /** After an allocated and before a free block, free writes a footer for the sum of the two sizes into its own
      block and leaves the header: no line of blocks fits the words any more. */
  lemma FreeBreaks(words: seq<int>, blocks: seq<Block>, k: nat, other: seq<Block>)
    requires Tiled(words, blocks) && k < |blocks| && blocks[k].alloc && NextFree(blocks, k) && !PrevFree(blocks, k)
    ensures !Tiled(FreeWords(words, blocks[k].at), other)
  {
    hide FreeWords;
    hide CoalesceWords;
    hide Tiled;
    hide WordAt;
    hide Freed;
    var b, n := blocks[k], blocks[k + 1];
    Inside(words, blocks, k);
    Inside(words, blocks, k + 1);
    FreeStart(words, blocks, k);
    FreedTiled(words, blocks, k, Block(b.at, b.size, false));
    FreedSame(blocks, k);
    var start := words[Head(b) := Pack(b.size, false)][Foot(b) := Pack(b.size, false)];
    CoalesceNext(start, Freed(blocks, k), k);
    var w := start[Foot(b) := Pack(b.size + n.size, false)];
    if Tiled(w, other) {
      BrokenTags(words, blocks, k, w, other);
    }
  }

  /** free keeps the heap in order exactly if the block does not come after an allocated and before a free one. */
  lemma FreeExactly(words: seq<int>, blocks: seq<Block>, k: nat)
    requires Tiled(words, blocks) && k < |blocks| && blocks[k].alloc
    ensures (exists other :: Tiled(FreeWords(words, blocks[k].at), other)) <==>
              (NextFree(blocks, k) ==> PrevFree(blocks, k))
  {
    hide Tiled;
    hide FreeWords;
    hide CoalesceWords;
    hide Coalesced;
    hide Freed;
    if NextFree(blocks, k) && !PrevFree(blocks, k) {
      forall other ensures !Tiled(FreeWords(words, blocks[k].at), other) {
        FreeBreaks(words, blocks, k, other);
      }
    } else {
      var b := Block(blocks[k].at, blocks[k].size, false);
      FreeStart(words, blocks, k);
      FreedTiled(words, blocks, k, b);
      FreedSame(blocks, k);
      var start := words[Head(b) := Pack(b.size, false)][Foot(b) := Pack(b.size, false)];
      CoalesceTiled(start, Freed(blocks, k), k);
      assert Tiled(FreeWords(words, blocks[k].at), Coalesced(Freed(blocks, k), k));
    }
  }

  /** The simplest program comes to this: a block that malloc has split off a free one has the rest after it. */
  lemma SplitBreaks(words: seq<int>, blocks: seq<Block>, k: nat, asize: int, other: seq<Block>)
    requires Line(blocks) && Merged(blocks) && k < |blocks| && !blocks[k].alloc && blocks[k].size - asize >= 2 * DSIZE
    requires Tiled(words, Placed(blocks, k, asize))
    ensures var p := Placed(blocks, k, asize);
      && k + 1 < |p| && p[k] == Block(blocks[k].at, asize, true) && NextFree(p, k) && !PrevFree(p, k)
      && !Tiled(FreeWords(words, blocks[k].at), other)
  {
    hide Line;
    hide FreeWords;
    hide Tiled;
    var p := Placed(blocks, k, asize);
    if k > 0 {
      OneLive(blocks, 0, 0, k - 1);
    }
    FreeBreaks(words, p, k, other);
  }

  /** The words when free comes to coalesce. */
  lemma FreeStart(words: seq<int>, blocks: seq<Block>, k: nat)
    requires Tiled(words, blocks) && k < |blocks|
    ensures 0 <= Head(blocks[k]) < |words| && 0 <= Foot(blocks[k]) < |words|
    ensures var b := blocks[k];
      FreeWords(words, b.at) == CoalesceWords(words[Head(b) := Pack(b.size, false)][Foot(b) := Pack(b.size, false)],
          b.at)
  {
    hide Tiled;
    hide SizeOf;
    hide AllocOf;
    hide WordAt;
    hide CoalesceWords;
    var b := blocks[k];
    Around(words, blocks, k);
    Inside(words, blocks, k);
    PackIs(b.size, false);
  }

  lemma FreePayloads(words: seq<int>, blocks: seq<Block>, k: nat)
    requires Tiled(words, blocks) && k < |blocks| && blocks[k].alloc
    ensures 0 <= Head(blocks[k]) < |words| && 0 <= Foot(blocks[k]) < |words|
    ensures var b := blocks[k];
      PayloadsKept(words, words[Head(b) := Pack(b.size, false)][Foot(b) := Pack(b.size, false)], Live(blocks) - {b})
  {
    hide Tiled;
    hide WordAt;
    hide SameOutside;
    hide PayloadsKept;
    hide Tagged;
    var b := Block(blocks[k].at, blocks[k].size, false);
    BlockIs(words, blocks, k);
    BlockFits(words, blocks, k);
    TaggedOne(words, b.at, b.at + b.size, b);
    TaggedIs(words, b);
    StretchPayloads(words, blocks, k, k + 1, Tagged(words, b));
    assert blocks[k..k + 1] == [blocks[k]];
    assert Live(blocks[k..k + 1]) == {blocks[k]};
  }

  lemma FreedSame(blocks: seq<Block>, k: nat)
    requires k < |blocks|
    ensures var f := Freed(blocks, k);
      && |f| == |blocks| && f[k] == Block(blocks[k].at, blocks[k].size, false)
      && (forall x | 0 <= x < |blocks| && x != k :: f[x] == blocks[x])
      && PrevFree(f, k) == PrevFree(blocks, k) && NextFree(f, k) == NextFree(blocks, k)
  {}

  lemma BrokenTags(words: seq<int>, blocks: seq<Block>, k: nat, w: seq<int>, other: seq<Block>)
    requires Tiled(words, blocks) && Tiled(w, other) && k < |blocks| && |w| == |words|
             && 0 <= Head(blocks[k]) < Foot(blocks[k]) < |words|
    requires w[Head(blocks[k])] == Pack(blocks[k].size, false)
             && forall x | 0 <= x < |words| && x != Head(blocks[k]) && x != Foot(blocks[k]) :: w[x] == words[x]
    ensures w[Foot(blocks[k])] == w[Head(blocks[k])]
  {
    var freed := Freed(blocks, k);
    var b := Block(blocks[k].at, blocks[k].size, false);
    FreedTiled(words, blocks, k, b);
    assert freed[k] == b;
    forall x | 0 <= x <= k ensures w[Head(freed[x])] ==
        words[Head(b) := Pack(b.size, false)][Foot(b) := Pack(b.size, false)][Head(freed[x])] {
      if x < k {
        assert freed[x] == blocks[x];
        InOrderTags(words, blocks, x, k);
      }
    }
    SameBefore(words[Head(b) := Pack(b.size, false)][Foot(b) := Pack(b.size, false)], freed, w, other, k);
    assert Tag(w, other[k]);
  }

  lemma InOrderTags(words: seq<int>, blocks: seq<Block>, j: nat, k: nat)
    requires Tiled(words, blocks) && j < k < |blocks|
    ensures 0 <= Head(blocks[j]) < Foot(blocks[j]) < Head(blocks[k]) < Foot(blocks[k]) < |words|
  {
    BlockIs(words, blocks, j);
    BlockIs(words, blocks, k);
    InOrder(blocks, j, k);
  }

  /** A free block in place of the epilogue, and a new epilogue. */
  function Extended(w: seq<int>, n: nat, b: Block): (t: seq<int>)
    requires 1 <= n < |w| - 1
    ensures |t| == |w|
  {
    w[n - 1 := Pack(b.size, false)][|w| - 2 := Pack(b.size, false)][|w| - 1 := Pack(0, true)]
  }

  lemma ExtendedIs(words: seq<int>, w: seq<int>, b: Block)
    requires 1 <= |words| < |w| - 1 && w[..|words|] == words
    ensures var t := Extended(w, |words|, b);
      && (forall x | 0 <= x < |words| - 1 :: t[x] == words[x])
      && t[|words| - 1] == Pack(b.size, false) == t[|w| - 2] && t[|w| - 1] == Pack(0, true)
  {
    assert forall x | 0 <= x < |words| :: w[x] == w[..|words|][x];
  }

  lemma ExtendedAt(n: nat, m: nat, b: Block)
    requires b.at == 4 * n && b.at % 8 == 0 && b.size % 8 == 0 && b.size >= 16 && m == n + b.size / 4
    ensures WordAt(b.at - WSIZE) == n - 1 && WordAt(b.at + b.size - DSIZE) == m - 2
            && WordAt(b.at + b.size - WSIZE) == m - 1
    ensures 4 * m == b.at + b.size && n < m - 1
  {
    var q := b.size / 4;
    assert b.size == 4 * q;
  }

  lemma ExtendTiled(words: seq<int>, blocks: seq<Block>, w: seq<int>, b: Block)
    requires Tiled(words, blocks) && b == Block(4 * |words|, b.size, false) && b.size % 8 == 0 && b.size >= 16
    requires |w| == |words| + b.size / 4 && w[..|words|] == words
    ensures WordAt(b.at - WSIZE) == |words| - 1 && WordAt(b.at + b.size - DSIZE) == |w| - 2
            && WordAt(b.at + b.size - WSIZE) == |w| - 1
    ensures 4 <= |words| < |w| - 1 && Tiled(Extended(w, |words|, b), blocks + [b])
  {
    hide Line;
    hide Tag;
    hide WordAt;
    hide Shaped;
    hide Extended;
    EndIs(words, blocks);
    ExtendedAt(|words|, |w|, b);
    ExtendedIs(words, w, b);
    var t, r := Extended(w, |words|, b), blocks + [b];
    ExtendLine(blocks, b);
    forall k | 0 <= k < |r| ensures Tag(t, r[k]) {
      if k < |blocks| {
        assert r[k] == blocks[k];
        BlockIs(words, blocks, k);
        FootFits(words, blocks, k);
        TagBefore(words, t, blocks[k]);
      } else {
        TagIs(t, b, |words| - 1, |w| - 2);
      }
    }
  }

  lemma ExtendedPayloads(words: seq<int>, blocks: seq<Block>, w: seq<int>, b: Block)
    requires Tiled(words, blocks) && 1 <= |words| < |w| - 1 && w[..|words|] == words
    ensures PayloadsKept(words, Extended(w, |words|, b), Live(blocks))
  {
    hide Tiled;
    hide WordAt;
    hide Extended;
    ExtendedIs(words, w, b);
    forall c | c in Live(blocks) ensures PayloadKept(words, Extended(w, |words|, b), c) {
      var m :| 0 <= m < |blocks| && blocks[m] == c;
      FootFits(words, blocks, m);
    }
  }

  lemma TagBefore(words: seq<int>, w: seq<int>, b: Block)
    requires Tag(words, b) && Foot(b) < |words| - 1 <= |w| && forall x | 0 <= x < |words| - 1 :: w[x] == words[x]
    ensures Tag(w, b)
  {
    hide WordAt;
  }

  lemma TagIs(words: seq<int>, b: Block, x: int, y: int)
    requires WordAt(b.at - WSIZE) == x && WordAt(b.at + b.size - DSIZE) == y && 0 <= x < y < |words|
             && words[x] == Pack(b.size, b.alloc) == words[y]
    ensures Tag(words, b)
  {
    hide WordAt;
  }

  lemma FootFits(words: seq<int>, blocks: seq<Block>, k: nat)
    requires Tiled(words, blocks) && k < |blocks|
    ensures 3 <= Head(blocks[k]) && Foot(blocks[k]) < |words| - 1
  {
    BlockIs(words, blocks, k);
    BlockFits(words, blocks, k);
  }

  lemma ExtendLine(blocks: seq<Block>, b: Block)
    requires Line(blocks) && b.at == End(blocks) && b.size % 8 == 0 && b.size >= 16 && b.at % 8 == 0 && b.at >= 16
    ensures Line(blocks + [b]) && End(blocks + [b]) == b.at + b.size
  {
    var r := blocks + [b];
    forall k | 0 <= k < |r| - 1 ensures r[k + 1].at == r[k].at + r[k].size {
      if k + 1 < |blocks| {
        assert blocks[k + 1].at == blocks[k].at + blocks[k].size;
      }
    }
  }

  lemma AppendLive(blocks: seq<Block>, b: Block)
    requires Merged(blocks) && !b.alloc
    ensures Live(blocks + [b]) == Live(blocks) && MergedOutside(blocks + [b], |blocks|, |blocks| + 1)
  {}

  lemma CoalescedBlock(blocks: seq<Block>, k: nat)
    requires Line(blocks) && k < |blocks|
    ensures First(blocks, k) < |Coalesced(blocks, k)| && Coalesced(blocks, k)[First(blocks, k)] == Joined(blocks, k)
    ensures !Joined(blocks, k).alloc && Joined(blocks, k).size >= blocks[k].size && Joined(blocks, k).at >= 16
  {
    JoinedCovers(blocks, k);
    assert Shaped(blocks[k]);
    if k + 1 < |blocks| {
      assert Shaped(blocks[k + 1]);
    }
  }

  lemma EndIs(words: seq<int>, blocks: seq<Block>)
    requires Tiled(words, blocks)
    ensures 4 * |words| == End(blocks) && End(blocks) >= 16 && End(blocks) % 8 == 0
  {
    hide Line;
    hide Tag;
    hide Shaped;
    if blocks != [] {
      BlockIs(words, blocks, |blocks| - 1);
      ShapedEnd(blocks[|blocks| - 1]);
    }
  }

  lemma LineIs(words: seq<int>, blocks: seq<Block>)
    requires Tiled(words, blocks)
    ensures Line(blocks)
  {}

  lemma BlockFits(words: seq<int>, blocks: seq<Block>, k: nat)
    requires Tiled(words, blocks) && k < |blocks|
    ensures blocks[k].at + blocks[k].size <= 4 * |words|
  {
    Within(blocks, k);
  }

  lemma AlreadyTagged(words: seq<int>, b: Block, whole: Block)
    requires Tag(words, b) && whole == b
    ensures Tagged(words, whole) == words
  {}

  lemma TaggedIs(words: seq<int>, b: Block)
    requires 0 <= Head(b) < |words| && 0 <= Foot(b) < |words|
    ensures Tagged(words, b) == words[Head(b) := Pack(b.size, b.alloc)][Foot(b) := Pack(b.size, b.alloc)]
  {}

  lemma TaggedAnyOrder(words: seq<int>, b: Block)
    requires 0 <= Head(b) < |words| && 0 <= Foot(b) < |words|
    ensures Tagged(words, b) == words[Foot(b) := Pack(b.size, b.alloc)][Head(b) := Pack(b.size, b.alloc)]
  {}

  /** What coalesce reads of the blocks around block `k`; before the first is the prologue, after the last
      the epilogue. */
  lemma Neighbours(words: seq<int>, blocks: seq<Block>, k: nat)
    requires Tiled(words, blocks) && k < |blocks|
    ensures var b := blocks[k];
      && 0 <= WordAt(b.at - DSIZE) < |words| && 0 <= WordAt(b.at - WSIZE) < |words|
         && 0 <= WordAt(b.at + b.size - WSIZE) < |words|
      && AllocOf(words[WordAt(b.at - DSIZE)]) == !PrevFree(blocks, k)
      && (k > 0 ==> SizeOf(words[WordAt(b.at - DSIZE)]) == blocks[k - 1].size
                    && blocks[k].at == blocks[k - 1].at + blocks[k - 1].size)
      && SizeOf(words[WordAt(b.at - WSIZE)]) == b.size
      && AllocOf(words[WordAt(b.at + b.size - WSIZE)]) == !NextFree(blocks, k)
      && (k + 1 < |blocks| ==> SizeOf(words[WordAt(b.at + b.size - WSIZE)]) == blocks[k + 1].size
                               && blocks[k + 1].at == b.at + b.size)
  {
    BlockIs(words, blocks, k);
    PackIs(blocks[k].size, blocks[k].alloc);
    BlockFits(words, blocks, k);
    PackIs(DSIZE, true);
    PackIs(0, true);
    if k > 0 {
      BlockIs(words, blocks, k - 1);
      PackIs(blocks[k - 1].size, blocks[k - 1].alloc);
      assert blocks[k].at == blocks[k - 1].at + blocks[k - 1].size;
    }
    if k + 1 < |blocks| {
      BlockIs(words, blocks, k + 1);
      PackIs(blocks[k + 1].size, blocks[k + 1].alloc);
      assert blocks[k + 1].at == blocks[k].at + blocks[k].size;
    }
  }

  /** The word before the payload of block `k`, or before the end. */
  lemma PlaceOf(words: seq<int>, blocks: seq<Block>, k: nat)
    requires Tiled(words, blocks) && k <= |blocks|
    ensures var bp := if k < |blocks| then blocks[k].at else End(blocks);
      && bp >= 16 && WordAt(bp - WSIZE) < |words|
      && words[WordAt(bp - WSIZE)] == (if k < |blocks| then Pack(blocks[k].size, blocks[k].alloc) else Pack(0, true))
      && (SizeOf(words[WordAt(bp - WSIZE)]) > 0 <==> k < |blocks|)
    ensures k == 0 && blocks != [] ==> blocks[0].at == 16
    ensures k > 0 && k < |blocks| ==> blocks[k].at == blocks[k - 1].at + blocks[k - 1].size
    ensures k > 0 && k == |blocks| ==> End(blocks) == blocks[k - 1].at + blocks[k - 1].size
  {
    if k < |blocks| {
      BlockIs(words, blocks, k);
      PackIs(blocks[k].size, blocks[k].alloc);
      assert k > 0 ==> blocks[k].at == blocks[k - 1].at + blocks[k - 1].size;
    } else {
      PackIs(0, true);
      if blocks != [] {
        BlockIs(words, blocks, k - 1);
      }
    }
  }
}
