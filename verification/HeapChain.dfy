/** The heap as a sequence of blocks: how splitting and coalescing change it. */
module HeapChain {
  const HEADER: nat := 24
  const ALIGN: nat := 8
  const CANARY: nat := 4

  datatype Block = Block(addr: nat, size: nat, used: bool, requested: nat)

  function End(b: Block): nat { b.addr + HEADER + b.size }

  /** One block by itself: room for the request and its canary, if it is in use. */
  predicate Sane(b: Block) {
    b.size % ALIGN == 0 && if b.used then b.requested + CANARY <= b.size else b.requested == 0
  }

  /** The blocks cover `begin` to `end` exactly, in order and without a gap. */
  ghost predicate Tiles(bs: seq<Block>, begin: nat, end: nat) {
    && |bs| > 0 && bs[0].addr == begin && End(bs[|bs| - 1]) == end
    && forall i :: 0 <= i < |bs| - 1 ==> bs[i + 1].addr == End(bs[i])
  }

  ghost predicate NoFreeNeighbours(bs: seq<Block>) {
    forall i :: 0 <= i < |bs| - 1 ==> bs[i].used || bs[i + 1].used
  }

  ghost predicate Shape(bs: seq<Block>, begin: nat, end: nat) {
    && Tiles(bs, begin, end) && NoFreeNeighbours(bs)
    && forall i :: 0 <= i < |bs| ==> Sane(bs[i])
  }

  /** Bytes accounted to allocated blocks, headers included. */
  function UsedBytes(bs: seq<Block>): nat {
    if bs == [] then 0 else (if bs[0].used then bs[0].size + HEADER else 0) + UsedBytes(bs[1..])
  }

  lemma {:induction false} UsedBytesConcat(a: seq<Block>, b: seq<Block>)
    ensures UsedBytes(a + b) == UsedBytes(a) + UsedBytes(b)
  {
    if a == [] {
      assert a + b == b;
    } else {
      assert (a + b)[1..] == a[1..] + b;
      UsedBytesConcat(a[1..], b);
    }
  }

  lemma UsedBytesAt(bs: seq<Block>, i: nat, j: nat)
    requires i <= j <= |bs|
    ensures UsedBytes(bs) == UsedBytes(bs[..i]) + UsedBytes(bs[i..j]) + UsedBytes(bs[j..])
  {
    UsedBytesConcat(bs[..i], bs[i..j]);
    UsedBytesConcat(bs[..i] + bs[i..j], bs[j..]);
    assert bs == bs[..i] + bs[i..j] + bs[j..];
  }

  /** Two blocks of the chain never overlap, headers included. */
  lemma {:induction false} Apart(bs: seq<Block>, begin: nat, end: nat, i: nat, j: nat)
    requires Tiles(bs, begin, end) && i < j < |bs|
    ensures End(bs[i]) <= bs[j].addr
    decreases j - i
  {
    if i + 1 < j {
      Apart(bs, begin, end, i, j - 1);
      assert bs[j - 1 + 1].addr == End(bs[j - 1]);
    } else {
      assert bs[i + 1].addr == End(bs[i]);
    }
  }

  lemma Inside(bs: seq<Block>, begin: nat, end: nat, i: nat)
    requires Tiles(bs, begin, end) && i < |bs|
    ensures begin <= bs[i].addr && End(bs[i]) <= end
  {
    if i > 0 {
      Apart(bs, begin, end, 0, i);
    }
    if i < |bs| - 1 {
      Apart(bs, begin, end, i, |bs| - 1);
    }
  }

  lemma {:induction false} Aligned(bs: seq<Block>, begin: nat, end: nat, i: nat)
    requires Shape(bs, begin, end) && i < |bs| && begin % ALIGN == 0
    ensures bs[i].addr % ALIGN == 0
  {
    if i > 0 {
      Aligned(bs, begin, end, i - 1);
      assert bs[i - 1 + 1].addr == End(bs[i - 1]) && Sane(bs[i - 1]);
    }
  }

  // ----- allocation

  predicate Fits(b: Block, size: nat) {
    !b.used && b.size >= size
  }

  /** What becomes of the chosen block: it is split when more than a header and a
      minimal payload would be left over. */
  function Carve(b: Block, size: nat, requested: nat): seq<Block>
    requires Fits(b, size)
  {
    if b.size - size > HEADER + ALIGN
    then [Block(b.addr, size, true, requested),
          Block(b.addr + HEADER + size, b.size - size - HEADER, false, 0)]
    else [Block(b.addr, b.size, true, requested)]
  }

  /** A block is split exactly when the rest is more than a header and a smallest payload: what
      is not split off is never more than that, and what is split off is never less use. */
  lemma CarveWastesLittle(b: Block, size: nat, requested: nat)
    requires Fits(b, size)
    ensures var r := Carve(b, size, requested);
            && r[0].addr == b.addr && r[0].used && r[0].requested == requested
            && size <= r[0].size <= size + 32 && (|r| == 2 <==> r[0].size < b.size || b.size - size > 32)
            && (|r| == 2 ==> r[0].size == size && !r[1].used && r[1].size > ALIGN && r[1].size == b.size - size - HEADER)
            && (|r| == 1 ==> b.size - size <= HEADER + ALIGN)
  {}

  function AllocAt(bs: seq<Block>, i: nat, size: nat, requested: nat): seq<Block>
    requires i < |bs| && Fits(bs[i], size)
  {
    bs[..i] + Carve(bs[i], size, requested) + bs[i + 1..]
  }

  lemma WholeElements(bs: seq<Block>, i: nat, size: nat, requested: nat)
    requires i < |bs| && Fits(bs[i], size) && bs[i].size - size <= HEADER + ALIGN
    ensures AllocAt(bs, i, size, requested) == bs[i := Block(bs[i].addr, bs[i].size, true, requested)]
  {}

  lemma SplitElements(bs: seq<Block>, i: nat, size: nat, requested: nat)
    requires i < |bs| && Fits(bs[i], size) && bs[i].size - size > HEADER + ALIGN
    ensures var r := AllocAt(bs, i, size, requested);
            && |r| == |bs| + 1
            && (forall j :: 0 <= j < i ==> r[j] == bs[j])
            && r[i] == Block(bs[i].addr, size, true, requested)
            && r[i + 1] == Block(bs[i].addr + HEADER + size, bs[i].size - size - HEADER, false, 0)
            && (forall j :: i + 1 < j < |r| ==> r[j] == bs[j - 1])
  {}

  lemma AllocTiles(bs: seq<Block>, begin: nat, end: nat, i: nat, size: nat, requested: nat)
    requires Tiles(bs, begin, end) && i < |bs| && Fits(bs[i], size)
    ensures Tiles(AllocAt(bs, i, size, requested), begin, end)
  {
    var r := AllocAt(bs, i, size, requested);
    var c := Carve(bs[i], size, requested);
    assert c[0].addr == bs[i].addr && End(c[|c| - 1]) == End(bs[i]);
    forall j | 0 <= j < |r| - 1 ensures r[j + 1].addr == End(r[j]) {
      if j + 1 < i {
        assert bs[j + 1].addr == End(bs[j]);
      } else if j + 1 == i {
        assert bs[j + 1].addr == End(bs[j]);
      } else if j >= i + |c| - 1 {
        var b := j - |c| + 1;
        assert bs[b + 1].addr == End(bs[b]);
        assert r[j + 1] == bs[b + 1];
        assert j > i + |c| - 1 ==> r[j] == bs[b];
      }
    }
  }

  lemma AllocNeighbours(bs: seq<Block>, i: nat, size: nat, requested: nat)
    requires NoFreeNeighbours(bs) && i < |bs| && Fits(bs[i], size)
    ensures NoFreeNeighbours(AllocAt(bs, i, size, requested))
  {
    var r := AllocAt(bs, i, size, requested);
    var c := Carve(bs[i], size, requested);
    forall j | 0 <= j < |r| - 1 ensures r[j].used || r[j + 1].used {
      if j + 1 < i {
        assert bs[j].used || bs[j + 1].used;
      } else if j == i + 1 && |c| == 2 {
        assert bs[i].used || bs[i + 1].used;
      } else if j >= i + |c| {
        assert bs[j - |c| + 1].used || bs[j - |c| + 2].used;
      }
    }
  }

  lemma AllocSane(bs: seq<Block>, i: nat, size: nat, requested: nat, j: nat)
    requires (forall k :: 0 <= k < |bs| ==> Sane(bs[k])) && i < |bs| && Fits(bs[i], size)
    requires size % ALIGN == 0 && requested + CANARY <= size && j < |AllocAt(bs, i, size, requested)|
    ensures Sane(AllocAt(bs, i, size, requested)[j])
  {
    var c := Carve(bs[i], size, requested);
    assert Sane(bs[i]);
    if j >= i + |c| {
      assert AllocAt(bs, i, size, requested)[j] == bs[j - |c| + 1];
    }
  }

  /** Allocation keeps the shape: the neighbours of the chosen free block are in use. */
  lemma AllocKeepsShape(bs: seq<Block>, begin: nat, end: nat, i: nat, size: nat, requested: nat)
    requires Shape(bs, begin, end) && i < |bs| && Fits(bs[i], size)
    requires size % ALIGN == 0 && requested + CANARY <= size
    ensures Shape(AllocAt(bs, i, size, requested), begin, end)
    ensures UsedBytes(AllocAt(bs, i, size, requested))
            == UsedBytes(bs) + Carve(bs[i], size, requested)[0].size + HEADER
  {
    hide Tiles, NoFreeNeighbours, Sane, AllocAt, Carve, Fits;
    AllocTiles(bs, begin, end, i, size, requested);
    AllocNeighbours(bs, i, size, requested);
    forall j | 0 <= j < |AllocAt(bs, i, size, requested)| ensures Sane(AllocAt(bs, i, size, requested)[j]) {
      AllocSane(bs, i, size, requested, j);
    }
    AllocUsedBytes(bs, i, size, requested);
  }

  lemma AllocUsedBytes(bs: seq<Block>, i: nat, size: nat, requested: nat)
    requires i < |bs| && Fits(bs[i], size)
    ensures UsedBytes(AllocAt(bs, i, size, requested))
            == UsedBytes(bs) + Carve(bs[i], size, requested)[0].size + HEADER
  {
    var r := AllocAt(bs, i, size, requested);
    var c := Carve(bs[i], size, requested);
    UsedBytesAt(bs, i, i + 1);
    UsedBytesAt(r, i, i + |c|);
    assert r[..i] == bs[..i] && r[i..i + |c|] == c && r[i + |c|..] == bs[i + 1..];
    assert UsedBytes([bs[i]]) == UsedBytes([]) && bs[i..i + 1] == [bs[i]];
    assert c[1..] == if |c| == 1 then [] else [c[1]];
    assert UsedBytes(c) == c[0].size + HEADER + UsedBytes(c[1..]);
  }

  // ----- release

  /** Both-sided coalescing of block `i`, now free. */
  function FreeAt(bs: seq<Block>, i: nat): seq<Block>
    requires i < |bs|
  {
    var right := i + 1 < |bs| && !bs[i + 1].used;
    var left := i > 0 && !bs[i - 1].used;
    var first := if left then i - 1 else i;
    var last := if right then i + 1 else i;
    bs[..first] + [Joined(bs, i)] + bs[last + 1..]
  }

  /** The free block that takes the place of block `i` and its free neighbours. */
  function Joined(bs: seq<Block>, i: nat): Block
    requires i < |bs|
  {
    var size := bs[i].size + if i + 1 < |bs| && !bs[i + 1].used then HEADER + bs[i + 1].size else 0;
    if i > 0 && !bs[i - 1].used
    then Block(bs[i - 1].addr, bs[i - 1].size + HEADER + size, false, 0)
    else Block(bs[i].addr, size, false, 0)
  }

  lemma FreeTiles(bs: seq<Block>, begin: nat, end: nat, i: nat)
    requires Tiles(bs, begin, end) && i < |bs|
    ensures Tiles(FreeAt(bs, i), begin, end)
  {
    var r := FreeAt(bs, i);
    var first := if i > 0 && !bs[i - 1].used then i - 1 else i;
    var last := if i + 1 < |bs| && !bs[i + 1].used then i + 1 else i;
    assert i > 0 ==> bs[i - 1 + 1].addr == End(bs[i - 1]);
    assert i + 1 < |bs| ==> bs[i + 1].addr == End(bs[i]);
    assert r[first].addr == bs[first].addr && End(r[first]) == End(bs[last]);
    forall j | 0 <= j < |r| - 1 ensures r[j + 1].addr == End(r[j]) {
      if j < first {
        assert bs[j + 1].addr == End(bs[j]);
      } else {
        var b := j - first + last;
        assert bs[b + 1].addr == End(bs[b]);
        assert r[j + 1] == bs[b + 1];
        assert j > first ==> r[j] == bs[b];
      }
    }
  }

  /** First and last of the blocks that become one. */
  function First(bs: seq<Block>, i: nat): nat
    requires i < |bs|
  {
    if i > 0 && !bs[i - 1].used then i - 1 else i
  }

  function Last(bs: seq<Block>, i: nat): nat
    requires i < |bs|
  {
    if i + 1 < |bs| && !bs[i + 1].used then i + 1 else i
  }

  lemma FreeElements(bs: seq<Block>, i: nat)
    requires i < |bs|
    ensures var r := FreeAt(bs, i); var first, last := First(bs, i), Last(bs, i);
            && |r| == |bs| - (last - first)
            && (forall j :: 0 <= j < first ==> r[j] == bs[j])
            && r[first] == Joined(bs, i)
            && (forall j :: first < j < |r| ==> r[j] == bs[j - first + last])
  {}

  lemma FreeNeighbours(bs: seq<Block>, i: nat)
    requires NoFreeNeighbours(bs) && i < |bs| && bs[i].used
    ensures NoFreeNeighbours(FreeAt(bs, i))
  {
    var r := FreeAt(bs, i);
    var first, last := First(bs, i), Last(bs, i);
    assert first > 0 ==> bs[first - 1].used;
    assert last + 1 < |bs| ==> bs[last + 1].used;
    forall j | 0 <= j < |r| - 1 ensures r[j].used || r[j + 1].used {
      if j + 1 < first {
        assert bs[j].used || bs[j + 1].used;
      } else if j + 1 == first {
        assert r[j] == bs[first - 1];
      } else if j == first {
        assert r[j + 1] == bs[last + 1];
      } else {
        assert bs[j - first + last].used || bs[j - first + last + 1].used;
      }
    }
  }

  lemma FreeUsedBytes(bs: seq<Block>, i: nat)
    requires i < |bs| && bs[i].used
    ensures UsedBytes(FreeAt(bs, i)) == UsedBytes(bs) - (bs[i].size + HEADER)
  {
    var r := FreeAt(bs, i);
    var first, last := First(bs, i), Last(bs, i);
    UsedBytesAt(bs, first, last + 1);
    UsedBytesAt(r, first, first + 1);
    assert r[..first] == bs[..first] && r[first..first + 1] == [r[first]] && r[first + 1..] == bs[last + 1..];
    MiddleUsed(bs, first, i, last);
  }

  lemma JoinedSize(a: nat, b: nat)
    requires a % ALIGN == 0 && b % ALIGN == 0
    ensures (a + HEADER + b) % ALIGN == 0
  {}

  lemma JoinedSane(bs: seq<Block>, i: nat)
    requires i < |bs| && Sane(bs[i]) && Sane(bs[First(bs, i)]) && Sane(bs[Last(bs, i)])
    ensures Sane(Joined(bs, i))
  {
    var size := bs[i].size;
    if i + 1 < |bs| && !bs[i + 1].used {
      JoinedSize(size, bs[i + 1].size);
      size := size + HEADER + bs[i + 1].size;
    }
    if i > 0 && !bs[i - 1].used {
      JoinedSize(bs[i - 1].size, size);
    }
  }

  lemma FreeSane(bs: seq<Block>, i: nat, j: nat)
    requires (forall k :: 0 <= k < |bs| ==> Sane(bs[k])) && i < |bs| && j < |FreeAt(bs, i)|
    ensures Sane(FreeAt(bs, i)[j])
  {
    hide FreeAt, Sane, Joined;
    FreeElements(bs, i);
    JoinedSane(bs, i);
    var first, last := First(bs, i), Last(bs, i);
    if j > first {
      assert FreeAt(bs, i)[j] == bs[j - first + last];
    }
  }

  /** Release keeps the shape: whatever the freed block joins, its new neighbours are in use. */
  lemma FreeKeepsShape(bs: seq<Block>, begin: nat, end: nat, i: nat)
    requires Shape(bs, begin, end) && i < |bs| && bs[i].used
    ensures Shape(FreeAt(bs, i), begin, end)
    ensures UsedBytes(FreeAt(bs, i)) == UsedBytes(bs) - (bs[i].size + HEADER)
  {
    hide Tiles, NoFreeNeighbours, Sane, FreeAt;
    FreeTiles(bs, begin, end, i);
    FreeNeighbours(bs, i);
    FreeUsedBytes(bs, i);
    forall j | 0 <= j < |FreeAt(bs, i)| ensures Sane(FreeAt(bs, i)[j]) {
      FreeSane(bs, i, j);
    }
  }

  lemma MiddleUsed(bs: seq<Block>, first: nat, i: nat, last: nat)
    requires first <= i <= last < |bs| && i <= first + 1 && last <= i + 1 && bs[i].used
    requires first < i ==> !bs[first].used
    requires last > i ==> !bs[last].used
    ensures UsedBytes(bs[first..last + 1]) == bs[i].size + HEADER
  {
    var s := bs[first..last + 1];
    assert s == (if first < i then [bs[first]] else []) + ([bs[i]] + if last > i then [bs[last]] else []);
    UsedBytesConcat(if first < i then [bs[first]] else [], [bs[i]] + if last > i then [bs[last]] else []);
    UsedBytesConcat([bs[i]], if last > i then [bs[last]] else []);
  }

  lemma NotBothFree(bs: seq<Block>, i: nat)
    requires NoFreeNeighbours(bs) && i + 1 < |bs|
    ensures bs[i].used || bs[i + 1].used
  {}

  /** Allocating and freeing again restores the very same blocks. */
  lemma FreeUndoesAlloc(bs: seq<Block>, begin: nat, end: nat, i: nat, size: nat, requested: nat)
    requires Shape(bs, begin, end) && i < |bs| && Fits(bs[i], size)
    ensures FreeAt(AllocAt(bs, i, size, requested), i) == bs
  {
    var r := AllocAt(bs, i, size, requested);
    assert Sane(bs[i]);
    if i > 0 {
      NotBothFree(bs, i - 1);
    }
    if i + 1 < |bs| {
      NotBothFree(bs, i);
    }
    hide Shape, AllocAt, Carve, FreeAt;
    FreeElements(r, i);
    if bs[i].size - size > HEADER + ALIGN {
      SplitElements(bs, i, size, requested);
      assert i + 1 < |bs| ==> r[i + 2] == bs[i + 1];
    } else {
      WholeElements(bs, i, size, requested);
    }
    assert i > 0 ==> r[i - 1] == bs[i - 1];
    assert Joined(r, i) == bs[i];
    assert FreeAt(r, i) == bs;
  }

  /** A heap with nothing allocated is one free block, however it was emptied. */
  lemma AllFreeIsOneBlock(bs: seq<Block>, begin: nat, end: nat)
    requires Shape(bs, begin, end) && forall i :: 0 <= i < |bs| ==> !bs[i].used
    ensures end >= begin + HEADER && bs == [Block(begin, end - begin - HEADER, false, 0)]
  {
    assert Sane(bs[0]);
    if |bs| > 1 {
      NotBothFree(bs, 0);
      assert false;
    }
  }

  // ----- accounting

  function FreeBlocks(bs: seq<Block>): seq<Block> {
    if bs == [] then [] else FreeBlocks(bs[..|bs| - 1]) + if bs[|bs| - 1].used then [] else [bs[|bs| - 1]]
  }

  function SizeSum(bs: seq<Block>): nat {
    if bs == [] then 0 else SizeSum(bs[..|bs| - 1]) + bs[|bs| - 1].size
  }

  ghost predicate IsLargest(bs: seq<Block>, size: nat) {
    && (forall b :: b in bs ==> b.size <= size)
    && if bs == [] then size == 0 else exists b :: b in bs && b.size == size
  }

  lemma FreeBlocksNext(bs: seq<Block>, i: nat)
    requires i < |bs|
    ensures FreeBlocks(bs[..i + 1]) == if bs[i].used then FreeBlocks(bs[..i]) else FreeBlocks(bs[..i]) + [bs[i]]
    ensures !bs[i].used ==> SizeSum(FreeBlocks(bs[..i + 1])) == SizeSum(FreeBlocks(bs[..i])) + bs[i].size
  {
    assert bs[..i + 1][..i] == bs[..i];
    var f := FreeBlocks(bs[..i]) + [bs[i]];
    assert f[..|f| - 1] == FreeBlocks(bs[..i]);
  }

  lemma UsedBytesNext(bs: seq<Block>, i: nat)
    requires i < |bs|
    ensures UsedBytes(bs[..i + 1]) == UsedBytes(bs[..i]) + if bs[i].used then bs[i].size + HEADER else 0
  {
    assert bs[..i + 1] == bs[..i] + [bs[i]];
    UsedBytesConcat(bs[..i], [bs[i]]);
    assert UsedBytes([bs[i]]) == (if bs[i].used then bs[i].size + HEADER else 0) + UsedBytes([]);
  }

  /** Bytes in use, free payload and one header a free block add up to the end of the chain. */
  lemma {:induction false} BytesUpTo(bs: seq<Block>, begin: nat, end: nat, n: nat)
    requires Tiles(bs, begin, end) && n < |bs|
    ensures End(bs[n]) - begin
            == UsedBytes(bs[..n + 1]) + SizeSum(FreeBlocks(bs[..n + 1])) + HEADER * |FreeBlocks(bs[..n + 1])|
  {
    UsedBytesNext(bs, n);
    FreeBlocksNext(bs, n);
    if n > 0 {
      assert bs[n - 1 + 1].addr == End(bs[n - 1]);
      hide UsedBytes, FreeBlocks, SizeSum;
      BytesUpTo(bs, begin, end, n - 1);
    } else {
      assert bs[..0] == [];
    }
  }

  lemma BytesConserved(bs: seq<Block>, begin: nat, end: nat)
    requires Shape(bs, begin, end)
    ensures end - begin == UsedBytes(bs) + SizeSum(FreeBlocks(bs)) + HEADER * |FreeBlocks(bs)|
  {
    assert bs[..|bs|] == bs;
    BytesUpTo(bs, begin, end, |bs| - 1);
  }

  /** What a walk over `bs` finds: bytes and number of the free blocks, and the largest one. */
  ghost predicate Tally(bs: seq<Block>, bytes: nat, largest: nat, count: nat) {
    && bytes == SizeSum(FreeBlocks(bs)) && count == |FreeBlocks(bs)|
    && IsLargest(FreeBlocks(bs), largest) && largest <= bytes && (count <= 1 ==> largest == bytes)
  }

  lemma TallyNone()
    ensures Tally([], 0, 0, 0)
  {}

  lemma FirstBlock(bs: seq<Block>, begin: nat, end: nat)
    requires Shape(bs, begin, end)
    ensures |bs| > 0 && bs[0].addr == begin
  {}

  lemma TallyNext(bs: seq<Block>, i: nat, bytes: nat, largest: nat, count: nat)
    requires i < |bs| && Tally(bs[..i], bytes, largest, count)
    ensures if bs[i].used then Tally(bs[..i + 1], bytes, largest, count)
            else Tally(bs[..i + 1], bytes + bs[i].size, if bs[i].size > largest then bs[i].size else largest, count + 1)
  {
    FreeBlocksNext(bs, i);
    hide FreeBlocks, SizeSum, IsLargest;
    if !bs[i].used {
      LargestNext(FreeBlocks(bs[..i]), bs[i], largest);
    }
  }

  lemma LargestNext(bs: seq<Block>, b: Block, largest: nat)
    requires IsLargest(bs, largest)
    ensures IsLargest(bs + [b], if b.size > largest then b.size else largest)
  {
    var now := bs + [b];
    assert now[|bs|] == b && b in now;
    if bs != [] {
      var x :| x in bs && x.size == largest;
      assert x in now;
    }
  }

  lemma TallyMeans(bs: seq<Block>, bytes: nat, largest: nat, count: nat)
    requires Tally(bs, bytes, largest, count)
    ensures bytes == SizeSum(FreeBlocks(bs)) && count == |FreeBlocks(bs)|
    ensures IsLargest(FreeBlocks(bs), largest) && largest <= bytes && (count <= 1 ==> largest == bytes)
  {}

  /** Free bytes outside the largest free block, in thousandths of all free bytes. */
  function Fragmentation(free: nat, largest: nat): (perMille: nat)
    requires largest <= free
    ensures perMille <= 1000 && (largest == free ==> perMille == 0)
  {
    if free == 0 then 0 else
      var part := (free - largest) * 1000;
      assert part <= 1000 * free;
      part / free
  }

  // ----- runs

  /** A call that changes the chain: a request that finds block `at`, or the release of block `at`. */
  datatype Change = Take(at: nat, size: nat, requested: nat) | Release(at: nat)

  predicate Possible(bs: seq<Block>, c: Change) {
    c.at < |bs| &&
    match c
    case Take(at, size, requested) => Fits(bs[at], size) && size % ALIGN == 0 && requested + CANARY <= size
    case Release(at) => bs[at].used
  }

  function Changed(bs: seq<Block>, c: Change): seq<Block>
    requires Possible(bs, c)
  {
    match c
    case Take(at, size, requested) => AllocAt(bs, at, size, requested)
    case Release(at) => FreeAt(bs, at)
  }

  ghost predicate Runs(bs: seq<Block>, cs: seq<Change>, r: seq<Block>)
    decreases |cs|
  {
    if cs == [] then r == bs else Possible(bs, cs[0]) && Runs(Changed(bs, cs[0]), cs[1..], r)
  }

  lemma {:induction false} RunsKeepShape(bs: seq<Block>, cs: seq<Change>, r: seq<Block>, begin: nat, end: nat)
    requires Shape(bs, begin, end) && Runs(bs, cs, r)
    ensures Shape(r, begin, end)
    decreases |cs|
  {
    hide Shape, AllocAt, FreeAt;
    if cs != [] {
      match cs[0] {
        case Take(at, size, requested) => AllocKeepsShape(bs, begin, end, at, size, requested);
        case Release(at) => FreeKeepsShape(bs, begin, end, at);
      }
      RunsKeepShape(Changed(bs, cs[0]), cs[1..], r, begin, end);
    }
  }

  /** Whatever was taken and in whatever order it was released: a heap that started as one
      block and has nothing in use is that one block again, and its accounting is zero. */
  lemma EmptiedHeapIsWhole(begin: nat, size: nat, cs: seq<Change>, r: seq<Block>)
    requires size % ALIGN == 0 && Runs([Block(begin, size, false, 0)], cs, r)
    requires forall i :: 0 <= i < |r| ==> !r[i].used
    ensures r == [Block(begin, size, false, 0)] && UsedBytes(r) == 0
  {
    var start := [Block(begin, size, false, 0)];
    assert Sane(start[0]);
    assert Shape(start, begin, begin + HEADER + size);
    RunsKeepShape(start, cs, r, begin, begin + HEADER + size);
    AllFreeIsOneBlock(r, begin, begin + HEADER + size);
    assert UsedBytes([]) == 0;
  }
}
