/** The best-fit heap as it works in place: a chain of headers linked by address, with
    guards and canaries, over one stretch of memory. */
module Heaps {
  import opened Bytes
  import opened HeapChain

  const MAGIC_FREE: nat := 0xF1EE
  const MAGIC_USED: nat := 0x1ADD
  const HEAP_MAGIC: nat := 0xBE05
  const HEAP_CANARY: nat := 0xBEEF_C0DE
  const FILL: byte := 0xCC
  const UINT32_MAX: nat := 0xFFFF_FFFF
  const MAX_COPY: nat := 1024
  const POOL_SIZE: nat := 7 * 1024

  datatype Header = Header(magic: nat, size: nat, requested: nat, guard: nat, next: nat, prev: nat)

  /** Bitwise exclusive or. */
  function Xor(a: nat, b: nat): nat
    decreases a + b
  {
    if a == 0 && b == 0 then 0 else (a % 2 + b % 2) % 2 + 2 * Xor(a / 2, b / 2)
  }

  /** `heap_header_guard`. */
  function Guard(addr: nat, size: nat, requested: nat): nat {
    Xor(Xor(Xor(addr, size), requested), HEAP_MAGIC)
  }

  function LittleEndian(w: nat): (s: seq<byte>)
    ensures |s| == CANARY
  {
    [(w % 256) as byte, (w / 256 % 256) as byte, (w / 65536 % 256) as byte, (w / 16777216 % 256) as byte]
  }

  function CanaryOf(addr: nat): (s: seq<byte>)
    ensures |s| == CANARY
  {
    LittleEndian(Xor(HEAP_CANARY, addr))
  }

  /** The header block `i` of the chain must have. */
  function HeaderOf(bs: seq<Block>, i: nat): Header
    requires i < |bs|
  {
    Header(if bs[i].used then MAGIC_USED else MAGIC_FREE, bs[i].size, bs[i].requested,
           Guard(bs[i].addr, bs[i].size, bs[i].requested),
           if i + 1 < |bs| then bs[i + 1].addr else 0,
           if i > 0 then bs[i - 1].addr else 0)
  }

  ghost predicate Linked(hdrs: map<nat, Header>, bs: seq<Block>) {
    forall i :: 0 <= i < |bs| ==> bs[i].addr in hdrs && hdrs[bs[i].addr] == HeaderOf(bs, i)
  }

  /** `heap_header_valid`. */
  predicate HeaderValid(hdrs: map<nat, Header>, begin: nat, end: nat, addr: nat) {
    && begin <= addr && addr + HEADER <= end && addr in hdrs
    && var h := hdrs[addr];
       && (h.magic == MAGIC_FREE || h.magic == MAGIC_USED)
       && h.size <= end - addr - HEADER
       && h.guard == Guard(addr, h.size, h.requested)
       && (h.magic == MAGIC_USED ==> h.requested + CANARY <= h.size)
  }

  lemma ChainHeaderValid(hdrs: map<nat, Header>, bs: seq<Block>, begin: nat, end: nat, i: nat)
    requires Shape(bs, begin, end) && Linked(hdrs, bs) && i < |bs|
    ensures HeaderValid(hdrs, begin, end, bs[i].addr)
  {
    Inside(bs, begin, end, i);
    assert Sane(bs[i]);
  }

  // ----- header updates

  /** The writes of a split, in the order of the code. */
  function SplitHeaders(hdrs: map<nat, Header>, best: nat, size: nat, remain: nat): map<nat, Header>
    requires best in hdrs && remain >= HEADER
  {
    var h := hdrs[best];
    var rest := best + HEADER + size;
    var h1 := hdrs[rest := Header(MAGIC_FREE, remain - HEADER, 0, Guard(rest, remain - HEADER, 0), h.next, best)];
    var h2 := if h.next != 0 && h.next in h1
              then h1[h.next := h1[h.next].(prev := rest, guard := Guard(h.next, h1[h.next].size, h1[h.next].requested))]
              else h1;
    h2[best := h.(next := rest, size := size)]
  }

  function MarkUsed(hdrs: map<nat, Header>, best: nat, requested: nat): map<nat, Header>
    requires best in hdrs
  {
    var h := hdrs[best];
    hdrs[best := h.(magic := MAGIC_USED, requested := requested, guard := Guard(best, h.size, requested))]
  }

  lemma AddressOrder(bs: seq<Block>, begin: nat, end: nat, i: nat, j: nat)
    requires Tiles(bs, begin, end) && i < |bs| && j < |bs|
    ensures i < j ==> End(bs[i]) <= bs[j].addr
    ensures j < i ==> End(bs[j]) <= bs[i].addr
    ensures begin <= bs[j].addr
    ensures i + 1 == j ==> bs[j].addr == End(bs[i])
  {
    if i < j {
      Apart(bs, begin, end, i, j);
    } else if j < i {
      Apart(bs, begin, end, j, i);
    }
    Inside(bs, begin, end, j);
    assert i + 1 == j ==> bs[i + 1].addr == End(bs[i]);
  }

  /** After a split every header but the two new ones and the successor's is as before. */
  lemma SplitElsewhere(hdrs: map<nat, Header>, best: nat, size: nat, remain: nat, requested: nat, a: nat)
    requires best in hdrs && remain >= HEADER && best > 0
    ensures var h := SplitHeaders(hdrs, best, size, remain);
            best in h && var out := MarkUsed(h, best, requested);
            a in hdrs && a != best && a != best + HEADER + size && a != hdrs[best].next ==> a in out && out[a] == hdrs[a]
  {
    hide Guard;
  }

  predicate Has(hdrs: map<nat, Header>, a: nat, h: Header) { a in hdrs && hdrs[a] == h }

  /** The two new headers and the successor's. */
  lemma SplitHere(hdrs: map<nat, Header>, best: nat, size: nat, remain: nat, requested: nat)
    requires best in hdrs && remain >= HEADER && best > 0
    requires hdrs[best].next != 0 ==> hdrs[best].next in hdrs && hdrs[best].next > best + HEADER + size
    ensures var h := SplitHeaders(hdrs, best, size, remain);
            best in h && var out := MarkUsed(h, best, requested); var rest := best + HEADER + size; var next := hdrs[best].next;
            && Has(out, best, Header(MAGIC_USED, size, requested, Guard(best, size, requested), rest, hdrs[best].prev))
            && Has(out, rest, Header(MAGIC_FREE, remain - HEADER, 0, Guard(rest, remain - HEADER, 0), next, best))
            && (next != 0 ==>
                  Has(out, next, hdrs[next].(prev := rest, guard := Guard(next, hdrs[next].size, hdrs[next].requested))))
  {
    hide Guard;
  }

  /** What `Linked` says of a block and of its successor in the chain. */
  lemma Neighbourhood(hdrs: map<nat, Header>, bs: seq<Block>, begin: nat, end: nat, i: nat)
    requires Tiles(bs, begin, end) && Linked(hdrs, bs) && i < |bs|
    ensures bs[i].addr in hdrs && hdrs[bs[i].addr] == HeaderOf(bs, i) && bs[i].addr >= begin
    ensures i + 1 < |bs| ==> bs[i + 1].addr in hdrs && hdrs[bs[i + 1].addr] == HeaderOf(bs, i + 1)
                             && bs[i + 1].addr == End(bs[i])
  {
    Inside(bs, begin, end, i);
    if i + 1 < |bs| {
      AddressOrder(bs, begin, end, i, i + 1);
    }
    hide Tiles, Guard;
  }

  lemma SplitLinkedAt(hdrs: map<nat, Header>, out: map<nat, Header>, bs: seq<Block>, begin: nat, end: nat,
                      i: nat, size: nat, requested: nat, j: nat)
    requires Tiles(bs, begin, end) && Linked(hdrs, bs) && begin > 0 && i < |bs| && Fits(bs[i], size)
    requires bs[i].size - size > HEADER + ALIGN && j < |AllocAt(bs, i, size, requested)|
    requires SplitHeaders(hdrs, bs[i].addr, size, bs[i].size - size).Keys >= {bs[i].addr}
    requires out == MarkUsed(SplitHeaders(hdrs, bs[i].addr, size, bs[i].size - size), bs[i].addr, requested)
    ensures var r := AllocAt(bs, i, size, requested);
            r[j].addr in out && out[r[j].addr] == HeaderOf(r, j)
  {
    hide Linked, Tiles, Guard, SplitHeaders, MarkUsed, AllocAt, Carve;
    var best := bs[i].addr;
    SplitElements(bs, i, size, requested);
    Neighbourhood(hdrs, bs, begin, end, i);
    var r := AllocAt(bs, i, size, requested);
    assert i > 0 ==> r[i - 1] == bs[i - 1];
    assert i + 1 < |bs| ==> r[i + 2] == bs[i + 1];
    if j == i {
      SplitHere(hdrs, best, size, bs[i].size - size, requested);
      assert r[i + 1].addr == best + HEADER + size;
    } else if j == i + 1 {
      SplitHere(hdrs, best, size, bs[i].size - size, requested);
      assert r[i].addr == best;
    } else if j == i + 2 {
      SplitHere(hdrs, best, size, bs[i].size - size, requested);
      assert i + 2 < |bs| ==> r[i + 3] == bs[i + 2];
      assert r[i + 1].addr == best + HEADER + size;
    } else {
      var b := if j < i then j else j - 1;
      Neighbourhood(hdrs, bs, begin, end, b);
      AddressOrder(bs, begin, end, i, b);
      if i + 1 < |bs| {
        AddressOrder(bs, begin, end, i + 1, b);
      }
      SplitElsewhere(hdrs, best, size, bs[i].size - size, requested, bs[b].addr);
    }
  }

  lemma SplitLinked(hdrs: map<nat, Header>, bs: seq<Block>, begin: nat, end: nat, i: nat, size: nat, requested: nat)
    requires Tiles(bs, begin, end) && Linked(hdrs, bs) && begin > 0 && i < |bs| && Fits(bs[i], size)
    requires bs[i].size - size > HEADER + ALIGN
    ensures bs[i].addr in hdrs
    ensures var h := SplitHeaders(hdrs, bs[i].addr, size, bs[i].size - size);
            && bs[i].addr in h
            && Linked(MarkUsed(h, bs[i].addr, requested), AllocAt(bs, i, size, requested))
  {
    assert bs[i].addr in hdrs;
    hide Tiles, HeaderOf, Guard;
    var out := MarkUsed(SplitHeaders(hdrs, bs[i].addr, size, bs[i].size - size), bs[i].addr, requested);
    hide SplitHeaders, MarkUsed;
    forall j | 0 <= j < |AllocAt(bs, i, size, requested)|
      ensures AllocAt(bs, i, size, requested)[j].addr in out
      ensures out[AllocAt(bs, i, size, requested)[j].addr] == HeaderOf(AllocAt(bs, i, size, requested), j)
    {
      SplitLinkedAt(hdrs, out, bs, begin, end, i, size, requested, j);
    }
  }

  lemma WholeLinkedAt(hdrs: map<nat, Header>, bs: seq<Block>, begin: nat, end: nat, i: nat, size: nat,
                      requested: nat, j: nat)
    requires Tiles(bs, begin, end) && Linked(hdrs, bs) && i < |bs| && Fits(bs[i], size) && j < |bs|
    requires bs[i].size - size <= HEADER + ALIGN && bs[i].addr in hdrs
    ensures var r := AllocAt(bs, i, size, requested); var out := MarkUsed(hdrs, bs[i].addr, requested);
            |r| == |bs| && r[j].addr in out && out[r[j].addr] == HeaderOf(r, j)
  {
    hide Linked, Tiles, Guard, AllocAt, Carve;
    AddressOrder(bs, begin, end, i, j);
    Neighbourhood(hdrs, bs, begin, end, i);
    Neighbourhood(hdrs, bs, begin, end, j);
    WholeElements(bs, i, size, requested);
  }

  lemma WholeLinked(hdrs: map<nat, Header>, bs: seq<Block>, begin: nat, end: nat, i: nat, size: nat, requested: nat)
    requires Tiles(bs, begin, end) && Linked(hdrs, bs) && i < |bs| && Fits(bs[i], size)
    requires bs[i].size - size <= HEADER + ALIGN
    ensures bs[i].addr in hdrs
    ensures Linked(MarkUsed(hdrs, bs[i].addr, requested), AllocAt(bs, i, size, requested))
  {
    assert bs[i].addr in hdrs;
    hide Tiles, HeaderOf, Guard, MarkUsed;
    forall j | 0 <= j < |AllocAt(bs, i, size, requested)|
      ensures AllocAt(bs, i, size, requested)[j].addr in MarkUsed(hdrs, bs[i].addr, requested)
      ensures MarkUsed(hdrs, bs[i].addr, requested)[AllocAt(bs, i, size, requested)[j].addr]
              == HeaderOf(AllocAt(bs, i, size, requested), j)
    {
      WholeLinkedAt(hdrs, bs, begin, end, i, size, requested, j);
    }
  }

  /** The writes of a release: marked free, joined with a free successor, then with a
      free predecessor, whose header is the one that stays. */
  function ReleaseHeaders(hdrs: map<nat, Header>, addr: nat): map<nat, Header>
    requires addr in hdrs
  {
    var h := hdrs[addr].(magic := MAGIC_FREE, requested := 0);
    var h1 := hdrs[addr := h];
    var joinsRight := h.next != 0 && h.next in h1 && h1[h.next].magic == MAGIC_FREE;
    var grown := if joinsRight
                 then h.(size := h.size + HEADER + h1[h.next].size, next := h1[h.next].next) else h;
    var h2 := if joinsRight then Backlink(h1[addr := grown], grown.next, addr) else h1;
    if grown.prev != 0 && grown.prev in h2 && h2[grown.prev].magic == MAGIC_FREE then
      var p := h2[grown.prev];
      var joined := p.(size := p.size + HEADER + grown.size, next := grown.next,
                       guard := Guard(grown.prev, p.size + HEADER + grown.size, p.requested));
      Backlink(h2, grown.next, grown.prev)[grown.prev := joined]
    else
      h2[addr := grown.(guard := Guard(addr, grown.size, grown.requested))]
  }

  function Backlink(hdrs: map<nat, Header>, at: nat, prev: nat): map<nat, Header> {
    if at != 0 && at in hdrs
    then hdrs[at := hdrs[at].(prev := prev, guard := Guard(at, hdrs[at].size, hdrs[at].requested))]
    else hdrs
  }

  /** A release writes to the joined block, its successor and what joined it, and nowhere else. */
  lemma ReleaseElsewhere(hdrs: map<nat, Header>, addr: nat, a: nat)
    requires addr in hdrs && addr > 0
    requires var h := hdrs[addr]; (h.next != 0 ==> h.next in hdrs && h.next > addr) && (h.prev != 0 ==> h.prev in hdrs)
    ensures var h := hdrs[addr]; var out := ReleaseHeaders(hdrs, addr);
            var next := if h.next != 0 && hdrs[h.next].magic == MAGIC_FREE then hdrs[h.next].next else h.next;
            a in hdrs && a != addr && a != next && !(h.prev != 0 && hdrs[h.prev].magic == MAGIC_FREE && a == h.prev) ==>
              a in out && out[a] == hdrs[a]
  {
    hide Guard;
  }

  /** What it writes there. */
  lemma ReleaseHere(hdrs: map<nat, Header>, addr: nat)
    requires addr in hdrs && addr > 0
    requires var h := hdrs[addr];
             && (h.next != 0 ==> h.next in hdrs && h.next > addr)
             && (h.next != 0 && hdrs[h.next].next != 0 ==> hdrs[h.next].next in hdrs && hdrs[h.next].next > h.next)
             && (h.prev != 0 ==> h.prev in hdrs && h.prev < addr)
    ensures var h := hdrs[addr]; var out := ReleaseHeaders(hdrs, addr);
            var right := h.next != 0 && hdrs[h.next].magic == MAGIC_FREE;
            var left := h.prev != 0 && hdrs[h.prev].magic == MAGIC_FREE;
            var next := if right then hdrs[h.next].next else h.next;
            var size := if right then h.size + HEADER + hdrs[h.next].size else h.size;
            && (left ==>
                  h.prev in out && out[h.prev] == hdrs[h.prev].(size := hdrs[h.prev].size + HEADER + size, next := next,
                       guard := Guard(h.prev, hdrs[h.prev].size + HEADER + size, hdrs[h.prev].requested)))
            && (!left ==>
                  addr in out && out[addr] == Header(MAGIC_FREE, size, 0, Guard(addr, size, 0), next, h.prev))
            && (next != 0 ==>
                  && next in out
                  && (left || right ==>
                        out[next] == hdrs[next].(prev := if left then h.prev else addr,
                                                 guard := Guard(next, hdrs[next].size, hdrs[next].requested)))
                  && (!left && !right ==> out[next] == hdrs[next]))
  {
    hide Guard;
  }

  /** The headers around a release are where `ReleaseHere` expects them. */
  lemma ReleaseReady(hdrs: map<nat, Header>, bs: seq<Block>, begin: nat, end: nat, i: nat)
    requires Tiles(bs, begin, end) && Linked(hdrs, bs) && begin > 0 && i < |bs|
    ensures bs[i].addr in hdrs && bs[i].addr > 0 && hdrs[bs[i].addr] == HeaderOf(bs, i)
    ensures i > 0 ==> bs[i - 1].addr in hdrs && hdrs[bs[i - 1].addr] == HeaderOf(bs, i - 1)
                      && 0 < bs[i - 1].addr && bs[i].addr == End(bs[i - 1])
    ensures i + 1 < |bs| ==> bs[i + 1].addr in hdrs && hdrs[bs[i + 1].addr] == HeaderOf(bs, i + 1)
                             && bs[i + 1].addr == End(bs[i])
    ensures i + 2 < |bs| ==> bs[i + 2].addr in hdrs && hdrs[bs[i + 2].addr] == HeaderOf(bs, i + 2)
                             && bs[i + 2].addr == End(bs[i + 1])
  {
    hide Linked, Tiles, Guard;
    Neighbourhood(hdrs, bs, begin, end, i);
    if i > 0 {
      Neighbourhood(hdrs, bs, begin, end, i - 1);
    }
    if i + 1 < |bs| {
      Neighbourhood(hdrs, bs, begin, end, i + 1);
    }
  }

  lemma ReleaseJoined(hdrs: map<nat, Header>, bs: seq<Block>, begin: nat, end: nat, i: nat)
    requires Tiles(bs, begin, end) && Linked(hdrs, bs) && begin > 0 && i < |bs| && bs[i].addr in hdrs
    requires forall k :: 0 <= k < |bs| && !bs[k].used ==> bs[k].requested == 0
    ensures var r := FreeAt(bs, i); var out := ReleaseHeaders(hdrs, bs[i].addr); var first := First(bs, i);
            r[first].addr in out && out[r[first].addr] == HeaderOf(r, first)
  {
    hide Linked, Tiles, Guard, FreeAt, ReleaseHeaders;
    FreeElements(bs, i);
    ReleaseReady(hdrs, bs, begin, end, i);
    ReleaseHere(hdrs, bs[i].addr);
    var r := FreeAt(bs, i);
    var first, last := First(bs, i), Last(bs, i);
    assert last + 1 < |bs| ==> r[first + 1] == bs[last + 1];
    assert first > 0 ==> r[first - 1] == bs[first - 1];
  }

  lemma ReleaseNext(hdrs: map<nat, Header>, bs: seq<Block>, begin: nat, end: nat, i: nat)
    requires Tiles(bs, begin, end) && Linked(hdrs, bs) && begin > 0 && i < |bs| && bs[i].addr in hdrs
    requires Last(bs, i) + 1 < |bs|
    ensures var r := FreeAt(bs, i); var out := ReleaseHeaders(hdrs, bs[i].addr); var j := First(bs, i) + 1;
            j < |r| && r[j].addr in out && out[r[j].addr] == HeaderOf(r, j)
  {
    hide Linked, Tiles, Guard, FreeAt, ReleaseHeaders;
    FreeElements(bs, i);
    ReleaseReady(hdrs, bs, begin, end, i);
    ReleaseHere(hdrs, bs[i].addr);
    var r := FreeAt(bs, i);
    var first, last := First(bs, i), Last(bs, i);
    Neighbourhood(hdrs, bs, begin, end, last + 1);
    assert r[first + 1] == bs[last + 1];
    assert last + 2 < |bs| ==> r[first + 2] == bs[last + 2];
  }

  lemma ReleaseLinkedAt(hdrs: map<nat, Header>, bs: seq<Block>, begin: nat, end: nat, i: nat, j: nat)
    requires Tiles(bs, begin, end) && Linked(hdrs, bs) && begin > 0 && i < |bs|
    requires forall k :: 0 <= k < |bs| && !bs[k].used ==> bs[k].requested == 0
    requires j < |FreeAt(bs, i)| && bs[i].addr in hdrs
    ensures var r := FreeAt(bs, i); var out := ReleaseHeaders(hdrs, bs[i].addr);
            r[j].addr in out && out[r[j].addr] == HeaderOf(r, j)
  {
    hide Linked, Tiles, Guard, FreeAt, ReleaseHeaders;
    FreeElements(bs, i);
    var first, last := First(bs, i), Last(bs, i);
    if j == first {
      ReleaseJoined(hdrs, bs, begin, end, i);
    } else if j == first + 1 {
      ReleaseNext(hdrs, bs, begin, end, i);
    } else {
      var b := if j < first then j else j - first + last;
      ReleaseKept(hdrs, bs, begin, end, i, b);
      var r := FreeAt(bs, i);
      assert r[j] == bs[b];
      assert j > 0 && j < first ==> r[j - 1] == bs[b - 1];
      assert j > first ==> r[j - 1] == bs[b - 1];
      assert j + 1 < first ==> r[j + 1] == bs[b + 1];
      assert j > first && j + 1 < |r| ==> r[j + 1] == bs[b + 1];
    }
  }

  /** The header of a block that is no neighbour stays as it is. */
  lemma ReleaseKept(hdrs: map<nat, Header>, bs: seq<Block>, begin: nat, end: nat, i: nat, b: nat)
    requires Tiles(bs, begin, end) && Linked(hdrs, bs) && begin > 0 && i < |bs| && b < |bs| && bs[i].addr in hdrs
    requires forall k :: 0 <= k < |bs| && !bs[k].used ==> bs[k].requested == 0
    requires b < First(bs, i) || b > Last(bs, i) + 1
    ensures bs[b].addr in ReleaseHeaders(hdrs, bs[i].addr)
    ensures ReleaseHeaders(hdrs, bs[i].addr)[bs[b].addr] == HeaderOf(bs, b)
  {
    LinkedHeader(hdrs, bs, b);
    hide Linked, Tiles, Guard, ReleaseHeaders, HeaderOf;
    ReleaseReady(hdrs, bs, begin, end, i);
    Neighbourhood(hdrs, bs, begin, end, b);
    ReleaseFar(hdrs, bs, begin, end, i, b);
    ReleaseElsewhere(hdrs, bs[i].addr, bs[b].addr);
  }

  lemma ReleaseFar(hdrs: map<nat, Header>, bs: seq<Block>, begin: nat, end: nat, i: nat, b: nat)
    requires Tiles(bs, begin, end) && i < |bs| && b < |bs| && (b < First(bs, i) || b > Last(bs, i) + 1)
    ensures bs[b].addr != bs[i].addr
    ensures First(bs, i) < i ==> bs[b].addr != bs[i - 1].addr
    ensures Last(bs, i) + 1 < |bs| ==> bs[b].addr != bs[Last(bs, i) + 1].addr
  {
    AddressOrder(bs, begin, end, i, b);
    if i > 0 {
      AddressOrder(bs, begin, end, i - 1, b);
    }
    if Last(bs, i) + 1 < |bs| {
      AddressOrder(bs, begin, end, Last(bs, i) + 1, b);
    }
  }

  lemma ReleaseLinked(hdrs: map<nat, Header>, bs: seq<Block>, begin: nat, end: nat, i: nat)
    requires Shape(bs, begin, end) && Linked(hdrs, bs) && begin > 0 && i < |bs| && bs[i].used
    ensures bs[i].addr in hdrs
    ensures Linked(ReleaseHeaders(hdrs, bs[i].addr), FreeAt(bs, i))
  {
    assert bs[i].addr in hdrs;
    forall k | 0 <= k < |bs| && !bs[k].used ensures bs[k].requested == 0 {
      assert Sane(bs[k]);
    }
    hide Tiles, HeaderOf, Guard, ReleaseHeaders, FreeAt, NoFreeNeighbours, Sane;
    forall j | 0 <= j < |FreeAt(bs, i)|
      ensures FreeAt(bs, i)[j].addr in ReleaseHeaders(hdrs, bs[i].addr)
      ensures ReleaseHeaders(hdrs, bs[i].addr)[FreeAt(bs, i)[j].addr] == HeaderOf(FreeAt(bs, i), j)
    {
      ReleaseLinkedAt(hdrs, bs, begin, end, i, j);
    }
  }

  // ----- memory

  /** Offsets of a block's payload and canary in the region starting at `begin`. */
  function PayloadAt(b: Block, begin: nat): int { b.addr + HEADER - begin }

  ghost predicate CanaryIntact(bytes: seq<byte>, begin: nat, b: Block) {
    var at := PayloadAt(b, begin) + b.requested;
    0 <= at && at + CANARY <= |bytes| && bytes[at..at + CANARY] == CanaryOf(b.addr)
  }

  ghost predicate CanariesIntact(bytes: seq<byte>, begin: nat, bs: seq<Block>) {
    forall i :: 0 <= i < |bs| && bs[i].used ==> CanaryIntact(bytes, begin, bs[i])
  }

  /** Payload and canary of a block in use lie strictly inside the block, so those of
      two different blocks are disjoint, and no header lies in either. */
  lemma PayloadsDisjoint(bs: seq<Block>, begin: nat, end: nat, i: nat, j: nat)
    requires Shape(bs, begin, end) && i < j < |bs| && bs[i].used
    ensures PayloadAt(bs[i], begin) + bs[i].requested + CANARY <= PayloadAt(bs[j], begin) - HEADER
    ensures 0 <= PayloadAt(bs[i], begin) - HEADER
    ensures bs[j].used ==> PayloadAt(bs[j], begin) + bs[j].requested + CANARY <= end - begin
  {
    Apart(bs, begin, end, i, j);
    Inside(bs, begin, end, i);
    Inside(bs, begin, end, j);
    assert Sane(bs[i]) && Sane(bs[j]);
  }

  /** Outside `[from, to)` the two byte sequences are the same. */
  ghost predicate SameOutside(a: seq<byte>, b: seq<byte>, from: int, to: int) {
    |a| == |b| && forall k :: 0 <= k < |a| && !(from <= k < to) ==> a[k] == b[k]
  }

  /** `Round up to a multiple of 8` with room for the canary. */
  function BlockSize(requested: nat): nat {
    (requested + CANARY + ALIGN - 1) / ALIGN * ALIGN
  }

  lemma BlockSizeOk(requested: nat)
    ensures BlockSize(requested) % ALIGN == 0 && BlockSize(requested) > 0
    ensures requested + CANARY <= BlockSize(requested) < requested + CANARY + ALIGN
  {}

  /** A used block other than `i` is not touched by writes inside block `i`. */
  lemma OthersIntact(bs: seq<Block>, begin: nat, end: nat, i: nat, j: nat, a: seq<byte>, b: seq<byte>)
    requires Shape(bs, begin, end) && i < |bs| && j < |bs| && i != j && bs[j].used
    requires |a| == end - begin && SameOutside(a, b, PayloadAt(bs[i], begin), End(bs[i]) - begin)
    ensures 0 <= PayloadAt(bs[j], begin) && PayloadAt(bs[j], begin) + bs[j].requested + CANARY <= |a|
    ensures b[PayloadAt(bs[j], begin)..PayloadAt(bs[j], begin) + bs[j].requested]
            == a[PayloadAt(bs[j], begin)..PayloadAt(bs[j], begin) + bs[j].requested]
    ensures CanaryIntact(a, begin, bs[j]) ==> CanaryIntact(b, begin, bs[j])
  {
    Inside(bs, begin, end, j);
    assert Sane(bs[j]);
    if i < j {
      Apart(bs, begin, end, i, j);
    } else {
      Apart(bs, begin, end, j, i);
    }
  }

  function RegionStart(start: nat, size: nat, pool: nat): nat {
    if start != 0 && size >= HEADER + ALIGN then start else pool
  }

  function RegionSize(start: nat, size: nat): (total: nat)
    ensures total >= HEADER + ALIGN
  {
    if start != 0 && size >= HEADER + ALIGN then size / ALIGN * ALIGN else POOL_SIZE
  }

  lemma RegionOk(start: nat, size: nat, pool: nat)
    requires pool > 0 && pool % ALIGN == 0 && pool + POOL_SIZE <= UINT32_MAX + 1
    requires start % ALIGN == 0 && start + size <= UINT32_MAX + 1
    ensures var at, total := RegionStart(start, size, pool), RegionSize(start, size);
            && total % ALIGN == 0 && at > 0 && at % ALIGN == 0 && at + total <= UINT32_MAX + 1
  {}

  lemma OneBlock(at: nat, total: nat)
    requires total >= HEADER && total % ALIGN == 0
    ensures var bs := [Block(at, total - HEADER, false, 0)]; Shape(bs, at, at + total) && UsedBytes(bs) == 0
    ensures var h := Header(MAGIC_FREE, total - HEADER, 0, Guard(at, total - HEADER, 0), 0, 0);
            Linked(map[at := h], [Block(at, total - HEADER, false, 0)])
  {
    hide Guard;
    assert Sane(Block(at, total - HEADER, false, 0));
    assert UsedBytes([]) == 0;
  }

  /** The best block among the first `n`: none fits, or block `at` wastes least and is the first to. */
  ghost predicate BestOf(bs: seq<Block>, n: nat, size: nat, best: nat, at: int) {
    && n <= |bs|
    && (best == 0 ==> forall j :: 0 <= j < n ==> !Fits(bs[j], size))
    && (best != 0 ==>
          && 0 <= at < n && bs[at].addr == best && Fits(bs[at], size)
          && (forall j :: 0 <= j < n && Fits(bs[j], size) ==> bs[at].size <= bs[j].size)
          && (forall j :: 0 <= j < at && Fits(bs[j], size) ==> bs[at].size < bs[j].size))
  }

  lemma BestSoFar(bs: seq<Block>, size: nat)
    ensures BestOf(bs, 0, size, 0, -1)
  {}

  lemma BestStep(bs: seq<Block>, i: nat, size: nat, best: nat, at: int, best': nat, at': int)
    requires BestOf(bs, i, size, best, at) && i < |bs| && bs[i].addr > 0
    requires if Fits(bs[i], size) && (best == 0 || bs[i].size < bs[at].size)
             then best' == bs[i].addr && at' == i else best' == best && at' == at
    ensures BestOf(bs, i + 1, size, best', at')
  {}

  lemma BestHas(bs: seq<Block>, i: nat, size: nat, best: nat, at: int)
    requires BestOf(bs, i, size, best, at)
    ensures best != 0 ==> 0 <= at < i <= |bs| && bs[at].size >= size && bs[at].addr == best
  {}

  /** What the search reads at block `i`. */
  lemma WalkStep(hdrs: map<nat, Header>, bs: seq<Block>, begin: nat, end: nat, i: nat)
    requires Shape(bs, begin, end) && Linked(hdrs, bs) && begin > 0 && i < |bs|
    ensures HeaderValid(hdrs, begin, end, bs[i].addr)
    ensures bs[i].addr in hdrs && bs[i].addr > 0 && bs[i].size <= end - begin - HEADER
    ensures hdrs[bs[i].addr].size == bs[i].size
    ensures hdrs[bs[i].addr].magic == if bs[i].used then MAGIC_USED else MAGIC_FREE
    ensures hdrs[bs[i].addr].requested == bs[i].requested
    ensures hdrs[bs[i].addr].next == if i + 1 < |bs| then bs[i + 1].addr else 0
    ensures hdrs[bs[i].addr].prev == if i > 0 then bs[i - 1].addr else 0
    ensures i + 1 < |bs| ==> bs[i + 1].addr == End(bs[i])
  {
    hide Tiles, Guard;
    ChainHeaderValid(hdrs, bs, begin, end, i);
    Neighbourhood(hdrs, bs, begin, end, i);
    Inside(bs, begin, end, i);
  }

  lemma LinkedHeader(hdrs: map<nat, Header>, bs: seq<Block>, i: nat)
    requires Linked(hdrs, bs) && i < |bs|
    ensures bs[i].addr in hdrs && hdrs[bs[i].addr] == HeaderOf(bs, i)
  {}

  lemma CarvedFirst(bs: seq<Block>, i: nat, size: nat, requested: nat)
    requires i < |bs| && Fits(bs[i], size)
    ensures i < |AllocAt(bs, i, size, requested)| && AllocAt(bs, i, size, requested)[i].addr == bs[i].addr
  {}

  class Heap {
    var hdrs: map<nat, Header>
    var first: nat
    var begin: nat
    var end: nat
    var mem: array<byte>
    var allocCount: nat
    var freeCount: nat
    var allocFailures: nat
    var currentUsed: int
    var peakUsed: int
    var runtimeLocked: bool
    var inIsr: bool

    ghost var chain: seq<Block>

    ghost predicate Valid()
      reads this, mem
    {
      && 0 < begin && begin % ALIGN == 0 && first == begin && end == begin + mem.Length
      && end <= UINT32_MAX + 1
      && Shape(chain, begin, end) && Linked(hdrs, chain)
      && CanariesIntact(mem[..], begin, chain)
      && currentUsed == UsedBytes(chain) && currentUsed <= peakUsed
    }

    /** `aixos_heap_init`: the caller's region when it can hold a block, else the built-in pool. */
    constructor (start: nat, size: nat, pool: nat)
      requires pool > 0 && pool % ALIGN == 0 && pool + POOL_SIZE <= UINT32_MAX + 1
      requires start % ALIGN == 0 && start + size <= UINT32_MAX + 1
      ensures Valid() && fresh(mem) && !runtimeLocked && !inIsr
      ensures begin == RegionStart(start, size, pool) && end - begin == RegionSize(start, size)
      ensures chain == [Block(begin, end - begin - HEADER, false, 0)]
      ensures allocCount == freeCount == allocFailures == 0 && currentUsed == peakUsed == 0
    {
      var at, total := RegionStart(start, size, pool), RegionSize(start, size);
      first, begin, end := at, at, at + total;
      mem := new byte[total](_ => 0);
      hdrs := map[at := Header(MAGIC_FREE, total - HEADER, 0, Guard(at, total - HEADER, 0), 0, 0)];
      allocCount, freeCount, allocFailures, currentUsed, peakUsed := 0, 0, 0, 0, 0;
      runtimeLocked, inIsr := false, false;
      chain := [Block(at, total - HEADER, false, 0)];
      new;
      hide Guard, Shape, Linked, UsedBytes, RegionStart, RegionSize, CanaryIntact;
      RegionOk(start, size, pool);
      OneBlock(at, total);
    }

    /** Best fit: walks the whole chain and keeps the first block that wastes least. No
        header on the way fails its check, so the search never stops early. */
    method FindBest(size: nat) returns (best: nat, bestRemain: nat, ghost at: int)
      requires Valid() && size <= UINT32_MAX
      ensures BestOf(chain, |chain|, size, best, at) && (best == 0 <==> NoneFits(chain, size))
      ensures best != 0 ==> bestRemain == chain[at].size - size
    {
      hide Shape, Linked, HeaderValid, CanariesIntact, BestOf, HeaderOf, UsedBytes, NoneFits;
      best, bestRemain, at := 0, UINT32_MAX, -1;
      var hdr := first;
      ghost var i := 0;
      FirstBlock(chain, begin, end);
      BestSoFar(chain, size);
      while hdr != 0
        invariant 0 <= i <= |chain| && hdr == if i < |chain| then chain[i].addr else 0
        invariant BestOf(chain, i, size, best, at) && (best != 0 ==> 0 <= at < i)
        invariant bestRemain == if best == 0 then UINT32_MAX else chain[at].size - size
        decreases |chain| - i
      {
        WalkStep(hdrs, chain, begin, end, i);
        assert HeaderValid(hdrs, begin, end, hdr);
        ghost var wasBest, wasAt := best, at;
        if hdrs[hdr].magic == MAGIC_FREE && hdrs[hdr].size >= size {
          var remain := hdrs[hdr].size - size;
          if remain < bestRemain {
            best, bestRemain, at := hdr, remain, i;
          }
        }
        BestStep(chain, i, size, wasBest, wasAt, best, at);
        if i + 1 < |chain| {
          WalkStep(hdrs, chain, begin, end, i + 1);
        }
        hdr := hdrs[hdr].next;
        i := i + 1;
      }
      assert i == |chain| by {
        if i < |chain| {
          WalkStep(hdrs, chain, begin, end, i);
        }
      }
      BestHas(chain, i, size, best, at);
      BestOrNone(chain, size, best, at);
    }

    /** Writes a free header behind the part of `best` that is kept and links it in. */
    method SplitOff(best: nat, size: nat, remain: nat)
      requires best in hdrs && remain >= HEADER
      modifies this`hdrs
      ensures hdrs == SplitHeaders(old(hdrs), best, size, remain)
    {
      hide Guard;
      var h := hdrs[best];
      var rest := best + HEADER + size;
      hdrs := hdrs[rest := Header(MAGIC_FREE, remain - HEADER, 0, Guard(rest, remain - HEADER, 0), h.next, best)];
      if h.next != 0 && h.next in hdrs {
        hdrs := hdrs[h.next := hdrs[h.next].(prev := rest, guard := Guard(h.next, hdrs[h.next].size, hdrs[h.next].requested))];
      }
      hdrs := hdrs[best := h.(next := rest, size := size)];
    }

    /** Splits the chosen block if enough is left over, and marks it used. */
    method Take(best: nat, bestRemain: nat, size: nat, requested: nat, ghost at: nat)
      requires Valid() && at < |chain| && chain[at].addr == best && Fits(chain[at], size)
      requires bestRemain == chain[at].size - size
      modifies this`hdrs, this`chain
      ensures chain == AllocAt(old(chain), at, size, requested)
      ensures Linked(hdrs, chain) && best in hdrs && hdrs[best] == HeaderOf(chain, at)
    {
      hide Guard, SplitHeaders, MarkUsed, HeaderOf, Shape, Linked, CanariesIntact, UsedBytes, AllocAt;
      ghost var bs, was := chain, hdrs;
      ShapeTiles(bs, begin, end);
      LinkedHeader(was, bs, at);
      if bestRemain > HEADER + ALIGN {
        SplitLinked(was, bs, begin, end, at, size, requested);
        SplitOff(best, size, bestRemain);
      } else {
        WholeLinked(was, bs, begin, end, at, size, requested);
      }
      hdrs := MarkUsed(hdrs, best, requested);
      chain := AllocAt(chain, at, size, requested);
      CarvedFirst(bs, at, size, requested);
      LinkedHeader(hdrs, chain, at);
    }

    /** Fills the payload and writes the canary behind it. */
    method FillPayload(hdr: nat, requested: nat)
      requires begin <= hdr && hdr + HEADER + requested + CANARY <= begin + mem.Length
      modifies mem
      ensures SameOutside(old(mem[..]), mem[..], hdr + HEADER - begin, hdr + HEADER - begin + requested + CANARY)
      ensures forall k :: hdr + HEADER - begin <= k < hdr + HEADER - begin + requested ==> mem[k] == FILL
      ensures mem[hdr + HEADER - begin + requested..hdr + HEADER - begin + requested + CANARY] == CanaryOf(hdr)
    {
      var at := hdr + HEADER - begin;
      forall k | 0 <= k < requested {
        mem[at + k] := FILL;
      }
      var canary := CanaryOf(hdr);
      forall k | 0 <= k < CANARY {
        mem[at + requested + k] := canary[k];
      }
    }

    /** The chosen block in the chain, its payload filled. */
    method Hand(best: nat, bestRemain: nat, needed: nat, requested: nat, ghost at: nat)
      requires Valid() && at < |chain| && chain[at].addr == best && Fits(chain[at], needed)
      requires bestRemain == chain[at].size - needed && needed % ALIGN == 0 && requested + CANARY <= needed
      modifies this`hdrs, this`chain, mem
      ensures chain == AllocAt(old(chain), at, needed, requested)
      ensures Shape(chain, begin, end) && Linked(hdrs, chain)
      ensures at < |chain| && best in hdrs && hdrs[best] == HeaderOf(chain, at)
      ensures Filled(old(chain), old(mem[..]), begin, at, requested, mem[..])
    {
      hide Shape, Linked, CanariesIntact, AllocAt, UsedBytes, Fits;
      AllocFacts(chain, begin, end, at, needed, requested);
      Take(best, bestRemain, needed, requested, at);
      FillPayload(best, requested);
    }

    /** Takes the chosen block, fills it and does the accounting. */
    method Grant(best: nat, bestRemain: nat, needed: nat, requested: nat, ghost at: nat) returns (ptr: nat)
      requires Valid() && BestOf(chain, |chain|, needed, best, at) && best != 0 && at < |chain|
      requires bestRemain == chain[at].size - needed && needed == BlockSize(requested)
      modifies this`hdrs, this`chain, this`allocCount, this`currentUsed, this`peakUsed, mem
      ensures Valid() && ptr == best + HEADER && allocCount == old(allocCount) + 1 && peakUsed == Max(old(peakUsed), currentUsed)
      ensures Granted(old(chain), old(mem[..]), begin, requested, ptr, at, chain, mem[..])
    {
      hide BlockSize, Shape, Linked, CanariesIntact, AllocAt, UsedBytes, BestOf, Fits, Filled, Granted;
      BlockSizeOk(requested);
      BestFits(chain, needed, best, at);
      ghost var bs, a := chain, mem[..];
      Hand(best, bestRemain, needed, requested, at);
      allocCount := allocCount + 1;
      currentUsed := currentUsed + hdrs[best].size + HEADER;
      if currentUsed > peakUsed {
        peakUsed := currentUsed;
      }
      ptr := best + HEADER;
      GrantHolds(bs, a, begin, end, requested, best, at, mem[..]);
    }

    /** `heap_allocate`: refused outright for the wrong context or size, otherwise it
        fails exactly when no free block fits; a smallest fitting one is carved. */
    method Allocate(size: nat, kernel: bool) returns (ptr: nat, ghost at: int)
      requires Valid() && size <= UINT32_MAX
      modifies this`hdrs, this`chain, this`allocCount, this`allocFailures, this`currentUsed, this`peakUsed, mem
      ensures Valid()
      ensures ptr == 0 <==> Refused(AtLeastOne(size), kernel, inIsr, runtimeLocked)
                            || NoneFits(old(chain), BlockSize(AtLeastOne(size)))
      ensures ptr == 0 ==> chain == old(chain) && mem[..] == old(mem[..])
                           && currentUsed == old(currentUsed) && allocCount == old(allocCount)
      ensures ptr != 0 ==> at >= 0 && allocCount == old(allocCount) + 1
                           && Granted(old(chain), old(mem[..]), begin, AtLeastOne(size), ptr, at, chain, mem[..])
      ensures peakUsed == Max(old(peakUsed), currentUsed)
      ensures allocFailures == old(allocFailures) + if ptr == 0 && !inIsr && !Oversize(AtLeastOne(size), kernel) then 1 else 0
    {
      hide BlockSize, Shape, Linked, CanariesIntact, Granted, BestOf, NoneFits, AtLeastOne;
      ptr, at := 0, -1;
      var requested := AtLeastOne(size);
      if Refused(requested, kernel, inIsr, runtimeLocked) {
        if !inIsr && !Oversize(requested, kernel) {
          allocFailures := allocFailures + 1;
        }
        return;
      }
      ptr, at := Search(BlockSize(requested), requested);
    }

    method Search(needed: nat, requested: nat) returns (ptr: nat, ghost at: int)
      requires Valid() && needed == BlockSize(requested) && requested <= UINT32_MAX - CANARY - (ALIGN - 1)
      modifies this`hdrs, this`chain, this`allocCount, this`allocFailures, this`currentUsed, this`peakUsed, mem
      ensures Valid()
      ensures ptr == 0 <==> NoneFits(old(chain), needed)
      ensures ptr == 0 ==> chain == old(chain) && mem[..] == old(mem[..])
                           && currentUsed == old(currentUsed) && allocCount == old(allocCount)
      ensures ptr != 0 ==> at >= 0 && allocCount == old(allocCount) + 1
                           && Granted(old(chain), old(mem[..]), begin, requested, ptr, at, chain, mem[..])
      ensures peakUsed == Max(old(peakUsed), currentUsed)
      ensures allocFailures == old(allocFailures) + if ptr == 0 then 1 else 0
    {
      hide BlockSize, Shape, Linked, CanariesIntact, Granted, BestOf, NoneFits;
      BlockSizeOk(requested);
      ptr := 0;
      var best, bestRemain;
      best, bestRemain, at := FindBest(needed);
      BestHas(chain, |chain|, needed, best, at);
      if best == 0 {
        allocFailures := allocFailures + 1;
      } else {
        ptr := Grant(best, bestRemain, needed, requested, at);
      }
    }

    /** Marks the block free and joins it with free neighbours, successor first: the headers
        are again those of the chain, in which these blocks are one. */
    method Coalesce(hdr: nat, ghost bs: seq<Block>, ghost at: nat)
      requires Shape(bs, begin, end) && Linked(hdrs, bs) && begin > 0
      requires at < |bs| && bs[at].used && hdr == bs[at].addr
      modifies this`hdrs
      ensures Linked(hdrs, FreeAt(bs, at))
    {
      hide Guard, Backlink, Shape, Linked, FreeAt;
      ReleaseLinked(hdrs, bs, begin, end, at);
      ghost var was := hdrs;
      var h := hdrs[hdr].(magic := MAGIC_FREE, requested := 0);
      hdrs := hdrs[hdr := h];
      if h.next != 0 && h.next in hdrs && hdrs[h.next].magic == MAGIC_FREE {
        h := h.(size := h.size + HEADER + hdrs[h.next].size, next := hdrs[h.next].next);
        hdrs := Backlink(hdrs[hdr := h], h.next, hdr);
      }
      if h.prev != 0 && h.prev in hdrs && hdrs[h.prev].magic == MAGIC_FREE {
        var p := hdrs[h.prev];
        var size := p.size + HEADER + h.size;
        hdrs := Backlink(hdrs, h.next, h.prev);
        hdrs := hdrs[h.prev := p.(size := size, next := h.next, guard := Guard(h.prev, size, p.requested))];
      } else {
        hdrs := hdrs[hdr := h.(guard := Guard(hdr, h.size, h.requested))];
      }
      assert hdrs == ReleaseHeaders(was, hdr);
    }

    /** The range and alignment test of `aixos_free`. */
    predicate Plausible(ptr: nat)
      reads this`begin, this`end
    {
      begin + HEADER <= ptr < end && ptr % ALIGN == 0
    }

    /** `aixos_free` of any pointer but one into the middle of a block. It releases exactly the
        live pointers: these pass every check, the block and its free neighbours become one,
        and not a byte of memory changes. All others change nothing, and a block that is already
        free is noticed: `corrupt` says whether `corruption_count` goes up. */
    method Free(ptr: nat, ghost at: nat) returns (corrupt: bool)
      requires Valid()
      requires Plausible(ptr) ==> at < |chain| && ptr == chain[at].addr + HEADER
      modifies this`hdrs, this`chain, this`freeCount, this`currentUsed
      ensures Valid()
      ensures var live := at < |old(chain)| && old(chain)[at].used && ptr == old(chain)[at].addr + HEADER;
              && chain == (if live && !inIsr then FreeAt(old(chain), at) else old(chain))
              && freeCount == old(freeCount) + (if live && !inIsr then 1 else 0)
              && corrupt == (Plausible(ptr) && !live && !inIsr)
    {
      hide Shape, Linked, CanariesIntact, UsedBytes, FreeAt, Guard, CanaryOf;
      corrupt := false;
      if at < |chain| && ptr == chain[at].addr + HEADER {
        WalkStep(hdrs, chain, begin, end, at);
        if chain[at].used {
          LiveIsPlausible(at);
        }
      }
      if ptr == 0 || inIsr || !Plausible(ptr) {
        return;
      }
      var hdr := ptr - HEADER;
      if chain[at].used {
        CanaryOfLive(mem[..], begin, chain, at);
      }
      if !HeaderValid(hdrs, begin, end, hdr) || hdrs[hdr].magic != MAGIC_USED
         || mem[ptr + hdrs[hdr].requested - begin..ptr + hdrs[hdr].requested - begin + CANARY] != CanaryOf(hdr) {
        return true;
      }
      assert hdrs[hdr].next != 0 ==> hdrs[hdr].next == hdr + HEADER + hdrs[hdr].size; // the last check passes
      FreeKeepsShape(chain, begin, end, at);
      CanariesAfterFree(chain, begin, at, mem[..]);
      currentUsed := currentUsed - (hdrs[hdr].size + HEADER);
      freeCount := freeCount + 1;
      Coalesce(hdr, chain, at);
      chain := FreeAt(chain, at);
    }

    /** The payload of every live block lies in the pool and is aligned. */
    lemma LiveIsPlausible(i: nat)
      requires Valid() && i < |chain| && chain[i].used
      ensures Plausible(chain[i].addr + HEADER)
    {
      hide Linked, CanariesIntact, UsedBytes;
      Aligned(chain, begin, end, i);
      assert Sane(chain[i]);
      hide Tiles, NoFreeNeighbours;
      Inside(chain, begin, end, i);
    }

    /** The tests `aixos_heap_check` makes at one header. */
    predicate FineAt(hdr: nat, previous: nat)
      reads this, mem
      requires begin + mem.Length == end
    {
      && HeaderValid(hdrs, begin, end, hdr) && hdrs[hdr].prev == previous
      && var h := hdrs[hdr]; var at := hdr + HEADER + h.requested - begin;
         && (h.magic == MAGIC_USED ==> mem[at..at + CANARY] == CanaryOf(hdr))
         && (h.next != 0 ==> hdr + HEADER + h.size == h.next)
    }

    lemma FineMeans(hdr: nat, previous: nat)
      requires begin + mem.Length == end && hdr > 0
      ensures FineAt(hdr, previous) ==>
                && HeaderValid(hdrs, begin, end, hdr) && hdrs[hdr].prev == previous && hdr < end
                && (Described(hdrs, hdr).used ==> CanaryIntact(mem[..], begin, Described(hdrs, hdr)))
                && (hdrs[hdr].next != 0 ==> hdrs[hdr].next == hdr + HEADER + hdrs[hdr].size)
    {
      hide Guard, CanaryOf;
    }

    lemma IntactIsFine(bs: seq<Block>, i: nat)
      requires begin + mem.Length == end && i < |bs| && IntactAt(hdrs, begin, end, mem[..], bs, i)
      ensures bs[i].addr > 0 && FineAt(bs[i].addr, if i > 0 then bs[i - 1].addr else 0)
      ensures hdrs[bs[i].addr].next == if i + 1 < |bs| then bs[i + 1].addr else 0
    {
      hide Guard, CanaryOf;
    }

    /** `aixos_heap_check`, on any contents of memory at all: it accepts exactly an intact chain. */
    method Check() returns (ok: bool)
      requires first > 0 && begin + mem.Length == end
      ensures ok <==> exists bs :: Intact(hdrs, first, begin, end, mem[..], bs)
    {
      var hdr, previous: nat := first, 0;
      ghost var done: seq<Block> := [];
      ghost var intact: seq<Block> := [];
      if bs :| Intact(hdrs, first, begin, end, mem[..], bs) {
        intact := bs;
      }
      assert Walked(hdrs, first, begin, end, mem[..], done, hdr, previous);
      hide HeaderOf, Guard, FineAt, IntactAt, Walked, HeaderValid;
      while hdr != 0
        invariant Walked(hdrs, first, begin, end, mem[..], done, hdr, previous)
        invariant done == [] ==> hdr != 0
        invariant intact != [] ==> |done| <= |intact| && hdr == if |done| < |intact| then intact[|done|].addr else 0
        invariant intact != [] ==> previous == if |done| > 0 then intact[|done| - 1].addr else 0
        decreases if hdr == 0 then 0 else if hdr < end then 2 + end - hdr else 1
      {
        if intact != [] {
          IntactIsFine(intact, |done|);
        }
        FineMeans(hdr, previous);
        if !FineAt(hdr, previous) {
          return false;
        }
        WalkedFurther(hdrs, first, begin, end, mem[..], done, hdr, previous);
        done := done + [Described(hdrs, hdr)];
        previous := hdr;
        hdr := hdrs[hdr].next;
      }
      WalkedWhole(hdrs, first, begin, end, mem[..], done, previous);
      ok := true;
    }

    /** The check accepts the heap after any sequence of calls. */
    lemma CheckAccepts()
      requires Valid()
      ensures Intact(hdrs, first, begin, end, mem[..], chain)
    {
      hide Intact, Shape, Linked, CanariesIntact, UsedBytes;
      ValidIsIntact(hdrs, begin, end, mem[..], chain);
    }

    /** The walk of `aixos_mem_info` over the whole chain. */
    method AddUp() returns (freeBytes: nat, maxFree: nat, freeBlocks: nat)
      requires Valid()
      ensures Tally(chain, freeBytes, maxFree, freeBlocks)
    {
      hide Shape, Linked, HeaderValid, CanariesIntact, UsedBytes, Tally, HeaderOf;
      freeBytes, maxFree, freeBlocks := 0, 0, 0;
      var hdr := first;
      ghost var i := 0;
      assert chain[..0] == [];
      TallyNone();
      FirstBlock(chain, begin, end);
      while hdr != 0
        invariant 0 <= i <= |chain| && hdr == if i < |chain| then chain[i].addr else 0
        invariant Tally(chain[..i], freeBytes, maxFree, freeBlocks)
        decreases |chain| - i
      {
        WalkStep(hdrs, chain, begin, end, i);
        TallyNext(chain, i, freeBytes, maxFree, freeBlocks);
        if hdrs[hdr].magic == MAGIC_FREE {
          freeBytes := freeBytes + hdrs[hdr].size;
          freeBlocks := freeBlocks + 1;
          if hdrs[hdr].size > maxFree {
            maxFree := hdrs[hdr].size;
          }
        }
        hdr := hdrs[hdr].next;
        i := i + 1;
        if i < |chain| {
          WalkStep(hdrs, chain, begin, end, i);
        }
      }
      assert i == |chain| by {
        if i < |chain| {
          WalkStep(hdrs, chain, begin, end, i);
        }
      }
      assert chain[..|chain|] == chain;
    }

    /** `aixos_mem_info`: what the walk adds up, against the blocks and the counter. */
    method MemInfo() returns (total: nat, freeBytes: nat, used: int, maxFree: nat, freeBlocks: nat, perMille: nat)
      requires Valid()
      ensures total == end - begin && used == total - freeBytes
      ensures used == currentUsed + HEADER * freeBlocks
      ensures freeBlocks == |FreeBlocks(chain)| && IsLargest(FreeBlocks(chain), maxFree)
      ensures maxFree <= freeBytes && perMille <= 1000 && (freeBlocks <= 1 ==> perMille == 0)
    {
      hide Shape, Linked, CanariesIntact, UsedBytes, Tally, FreeBlocks, SizeSum, IsLargest, Fragmentation;
      freeBytes, maxFree, freeBlocks := AddUp();
      BytesConserved(chain, begin, end);
      TallyMeans(chain, freeBytes, maxFree, freeBlocks);
      total := end - begin;
      used := total - freeBytes;
      perMille := Fragmentation(freeBytes, maxFree);
    }

    /** `aixos_heap_lockdown`: no effect from an interrupt. */
    method Lockdown()
      requires Valid()
      modifies this`runtimeLocked
      ensures Valid() && runtimeLocked == (old(runtimeLocked) || !inIsr)
    {
      hide Shape, Linked, CanariesIntact, UsedBytes;
      if !inIsr {
        runtimeLocked := true;
      }
    }

    /** `aixos_realloc`: on success the contents move up to the smaller of the two sizes
        and the old block is gone; on failure everything stays. */
    method Realloc(ptr: nat, newSize: nat, ghost at: nat) returns (newp: nat, ghost where: int)
      requires Valid() && newSize <= UINT32_MAX
      requires ptr != 0 ==> at < |chain| && chain[at].used && ptr == chain[at].addr + HEADER
      modifies this, mem
      ensures Valid() && mem == old(mem) && begin == old(begin) && inIsr == old(inIsr)
      ensures newp == 0 <==> (ptr != 0 && newSize == 0) || NoneFits(old(chain), BlockSize(AtLeastOne(newSize)))
                             || Refused(AtLeastOne(newSize), false, inIsr, old(runtimeLocked))
      ensures newp == 0 && (ptr == 0 || newSize != 0 || inIsr) ==> chain == old(chain) && mem[..] == old(mem[..])
      ensures ptr != 0 && newSize == 0 && !inIsr ==> chain == FreeAt(old(chain), at) && mem[..] == old(mem[..])
      ensures ptr != 0 && newp != 0 ==> Replaced(old(chain), at, newSize, where, chain)
      ensures Keeps(old(chain), old(mem[..]), chain, mem[..], begin, ptr)
      ensures ptr != 0 && newp != 0 ==>
                Moved(old(mem[..]), ptr - begin, mem[..], newp - begin, Min(old(chain)[at].requested, newSize))
    {
      hide Shape, Linked, CanariesIntact, UsedBytes, FreeAt, AllocAt, Guard, BlockSize, Granted, NoneFits, Keeps;
      newp, where := 0, -1;
      ghost var bs, a := chain, mem[..];
      KeepsAll(bs, a, begin, end, ptr);
      if ptr == 0 {
        newp, where := Allocate(newSize, false);
        if newp != 0 {
          GrantedKeeps(bs, a, begin, end, AtLeastOne(newSize), newp, where, chain, mem[..], ptr);
        }
        return;
      }
      if newSize == 0 {
        var corrupt := Free(ptr, at);
        if !inIsr {
          FreeKeepsOthers(bs, a, begin, end, at);
        }
        return;
      }
      if inIsr {
        return;
      }
      var hdr := ptr - HEADER;
      WalkStep(hdrs, chain, begin, end, at);
      if runtimeLocked {
        allocFailures := allocFailures + 1;
        return;
      }
      var oldSize := hdrs[hdr].requested;
      newp, where := Allocate(newSize, false);
      if newp != 0 {
        newp := MoveTo(ptr, newp, oldSize, newSize, at, where, bs, a);
      }
    }

    method MoveTo(ptr: nat, newp: nat, oldSize: nat, newSize: nat, ghost at: nat, ghost where: int,
                  ghost bs: seq<Block>, ghost a: seq<byte>) returns (r: nat)
      requires Valid() && !inIsr && newSize > 0 && newp != 0 && where >= 0
      requires Shape(bs, begin, end) && |a| == mem.Length && at < |bs| && bs[at].used && ptr == bs[at].addr + HEADER
      requires oldSize == bs[at].requested
      requires Granted(bs, a, begin, newSize, newp, where, chain, mem[..])
      modifies this`hdrs, this`chain, this`freeCount, this`currentUsed, mem
      ensures Valid() && r == newp
      ensures Keeps(bs, a, chain, mem[..], begin, ptr)
      ensures Moved(a, ptr - begin, mem[..], newp - begin, Min(oldSize, newSize))
      ensures Replaced(bs, at, newSize, where, chain)
    {
      hide Shape, Linked, CanariesIntact, UsedBytes, FreeAt, AllocAt, Guard, BlockSize, Granted, Keeps, MovedIndex, Moved;
      r := newp;
      GrantedFits(bs, a, begin, newSize, newp, where, chain, mem[..]);
      MoveFacts(bs, a, begin, end, newSize, newp, where, chain, mem[..], at);
      ghost var index := MovedIndex(bs, where, newSize, at);
      CopyTo(ptr, newp, newSize, Min(oldSize, newSize), at, where, bs, a);
      ghost var afterCopy := chain;
      var corrupt := Free(ptr, index);
      FreeKeepsOthers(afterCopy, mem[..], begin, end, index);
      KeepsTwice(bs, a, afterCopy, mem[..], chain, begin, ptr);
    }

    /** The `memcpy` of a reallocation. */
    method CopyTo(ptr: nat, newp: nat, newSize: nat, copy: nat, ghost at: nat, ghost where: int,
                  ghost bs: seq<Block>, ghost a: seq<byte>)
      requires Valid() && where >= 0 && Shape(bs, begin, end) && |a| == mem.Length
      requires at < |bs| && bs[at].used && ptr == bs[at].addr + HEADER && copy <= newSize && copy <= bs[at].requested
      requires Granted(bs, a, begin, newSize, newp, where, chain, mem[..])
      modifies mem
      ensures Valid() && Keeps(bs, a, chain, mem[..], begin, ptr) && Moved(a, ptr - begin, mem[..], newp - begin, copy)
    {
      hide Shape, Linked, CanariesIntact, UsedBytes, FreeAt, AllocAt, Guard, BlockSize, Granted, Keeps, MovedIndex;
      GrantedFits(bs, a, begin, newSize, newp, where, chain, mem[..]);
      MoveFacts(bs, a, begin, end, newSize, newp, where, chain, mem[..], at);
      ghost var grantedMem := mem[..];
      forall k | 0 <= k < copy {
        mem[newp - begin + k] := mem[ptr - begin + k];
      }
      CanariesAfterCopy(chain, begin, end, where, grantedMem, mem[..], copy);
      CopyKeeps(bs, a, begin, end, newSize, newp, where, chain, grantedMem, mem[..], at, copy);
    }
  }

  function Max(a: int, b: int): int { if a < b then b else a }

  function Min(a: nat, b: nat): nat { if a < b then a else b }

  /** What `aixos_heap_check` looks for, whatever is in memory: a chain from `first` whose
      headers pass their checks, whose links are inverse and whose canaries are intact,
      each block starting where the one before it ends. */
  ghost predicate Intact(hdrs: map<nat, Header>, first: nat, begin: nat, end: nat, bytes: seq<byte>, bs: seq<Block>) {
    && |bs| > 0 && bs[0].addr == first
    && forall i :: 0 <= i < |bs| ==> IntactAt(hdrs, begin, end, bytes, bs, i)
  }

  ghost predicate IntactAt(hdrs: map<nat, Header>, begin: nat, end: nat, bytes: seq<byte>, bs: seq<Block>, i: nat)
    requires i < |bs|
  {
    && bs[i].addr > 0 && HeaderValid(hdrs, begin, end, bs[i].addr) && hdrs[bs[i].addr] == HeaderOf(bs, i)
    && (bs[i].used ==> CanaryIntact(bytes, begin, bs[i]))
    && (i + 1 < |bs| ==> bs[i + 1].addr == End(bs[i]))
  }

  /** What the check establishes about the headers up to `hdr`, before it looks at `hdr`. */
  ghost predicate Walked(hdrs: map<nat, Header>, first: nat, begin: nat, end: nat, bytes: seq<byte>,
                         done: seq<Block>, hdr: nat, previous: nat)
  {
    && (if done == [] then hdr == first && previous == 0 else previous == done[|done| - 1].addr)
    && (forall i :: 0 <= i < |done| - 1 ==> IntactAt(hdrs, begin, end, bytes, done, i))
    && (done != [] ==> done[0].addr == first && LastIntact(hdrs, begin, end, bytes, done, hdr))
  }

  ghost predicate LastIntact(hdrs: map<nat, Header>, begin: nat, end: nat, bytes: seq<byte>, done: seq<Block>, hdr: nat)
    requires done != []
  {
    var i := |done| - 1;
    && done[i].addr > 0 && HeaderValid(hdrs, begin, end, done[i].addr)
    && hdrs[done[i].addr] == HeaderOf(done, i).(next := hdr)
    && (done[i].used ==> CanaryIntact(bytes, begin, done[i]))
    && (hdr != 0 ==> hdr == End(done[i]))
  }

  /** The block a valid header describes. */
  function Described(hdrs: map<nat, Header>, hdr: nat): Block
    requires hdr in hdrs
  {
    Block(hdr, hdrs[hdr].size, hdrs[hdr].magic == MAGIC_USED, hdrs[hdr].requested)
  }

  lemma WalkedFurther(hdrs: map<nat, Header>, first: nat, begin: nat, end: nat, bytes: seq<byte>,
                      done: seq<Block>, hdr: nat, previous: nat)
    requires Walked(hdrs, first, begin, end, bytes, done, hdr, previous) && hdr != 0
    requires HeaderValid(hdrs, begin, end, hdr) && hdrs[hdr].prev == previous
    requires Described(hdrs, hdr).used ==> CanaryIntact(bytes, begin, Described(hdrs, hdr))
    requires hdrs[hdr].next != 0 ==> hdrs[hdr].next == hdr + HEADER + hdrs[hdr].size
    ensures Walked(hdrs, first, begin, end, bytes, done + [Described(hdrs, hdr)], hdrs[hdr].next, hdr)
  {
    hide Guard, CanaryIntact;
    var more := done + [Described(hdrs, hdr)];
    forall i | 0 <= i < |more| - 1 ensures IntactAt(hdrs, begin, end, bytes, more, i) {
      if i < |done| - 1 {
        assert IntactAt(hdrs, begin, end, bytes, done, i);
      }
    }
  }

  lemma WalkedWhole(hdrs: map<nat, Header>, first: nat, begin: nat, end: nat, bytes: seq<byte>,
                    done: seq<Block>, previous: nat)
    requires Walked(hdrs, first, begin, end, bytes, done, 0, previous) && done != []
    ensures Intact(hdrs, first, begin, end, bytes, done)
  {
    hide Guard, CanaryIntact, HeaderValid;
    forall i | 0 <= i < |done| ensures IntactAt(hdrs, begin, end, bytes, done, i) {}
  }

  lemma ValidIsIntact(hdrs: map<nat, Header>, begin: nat, end: nat, bytes: seq<byte>, bs: seq<Block>)
    requires begin > 0 && Shape(bs, begin, end) && Linked(hdrs, bs) && CanariesIntact(bytes, begin, bs)
    ensures Intact(hdrs, begin, begin, end, bytes, bs)
  {
    hide Linked, CanaryIntact, HeaderValid, Guard;
    forall i | 0 <= i < |bs| ensures IntactAt(hdrs, begin, end, bytes, bs, i) {
      WalkStep(hdrs, bs, begin, end, i);
      Neighbourhood(hdrs, bs, begin, end, i);
    }
  }

  /** Every block in use but the one at `except` is still there with its payload as it was. */
  ghost predicate Keeps(bs: seq<Block>, a: seq<byte>, r: seq<Block>, b: seq<byte>, begin: nat, except: nat) {
    |a| == |b| &&
    forall x :: x in bs && x.used && x.addr + HEADER != except ==>
      && x in r
      && 0 <= PayloadAt(x, begin) && PayloadAt(x, begin) + x.requested <= |a|
      && b[PayloadAt(x, begin)..PayloadAt(x, begin) + x.requested]
         == a[PayloadAt(x, begin)..PayloadAt(x, begin) + x.requested]
  }

  /** Block `where` was carved for `requested` bytes and then block `at` was released. */
  ghost predicate Replaced(bs: seq<Block>, at: nat, requested: nat, where: int, r: seq<Block>) {
    && 0 <= where < |bs| && Fits(bs[where], BlockSize(requested))
    && var carved, moved := AllocAt(bs, where, BlockSize(requested), requested), MovedIndex(bs, where, requested, at);
       moved < |carved| && r == FreeAt(carved, moved)
  }

  /** `n` bytes at `from` in `a` are the `n` bytes at `to` in `b`. */
  ghost predicate Moved(a: seq<byte>, from: int, b: seq<byte>, to: int, n: nat) {
    && 0 <= from && from + n <= |a| && 0 <= to && to + n <= |b|
    && b[to..to + n] == a[from..from + n]
  }

  lemma CanaryOfLive(bytes: seq<byte>, begin: nat, bs: seq<Block>, i: nat)
    requires CanariesIntact(bytes, begin, bs) && i < |bs| && bs[i].used
    ensures CanaryIntact(bytes, begin, bs[i])
  {}

  /** The blocks in use after a release are the old ones but the freed one. */
  lemma UsedAfterFree(bs: seq<Block>, i: nat, x: Block)
    requires i < |bs| && bs[i].used
    ensures x in FreeAt(bs, i) && x.used ==> exists b :: 0 <= b < |bs| && b != i && bs[b] == x
    ensures x.used && (exists b :: 0 <= b < |bs| && b != i && bs[b] == x) ==> x in FreeAt(bs, i)
  {
    FreeElements(bs, i);
    var r := FreeAt(bs, i);
    var first, last := First(bs, i), Last(bs, i);
    hide FreeAt;
    if x in r && x.used {
      var j :| 0 <= j < |r| && r[j] == x;
      assert bs[if j < first then j else j - first + last] == x;
    }
    if b :| x.used && 0 <= b < |bs| && b != i && bs[b] == x {
      assert r[if b < first then b else b + first - last] == x;
    }
  }

  lemma CanariesAfterFree(bs: seq<Block>, begin: nat, i: nat, bytes: seq<byte>)
    requires CanariesIntact(bytes, begin, bs) && i < |bs| && bs[i].used
    ensures CanariesIntact(bytes, begin, FreeAt(bs, i))
  {
    var r := FreeAt(bs, i);
    hide FreeAt, CanaryIntact;
    forall j | 0 <= j < |r| && r[j].used ensures CanaryIntact(bytes, begin, r[j]) {
      UsedAfterFree(bs, i, r[j]);
    }
  }

  lemma LiveInside(bs: seq<Block>, begin: nat, end: nat, x: Block)
    requires Shape(bs, begin, end) && x in bs && x.used
    ensures 0 <= PayloadAt(x, begin) && PayloadAt(x, begin) + x.requested + CANARY <= end - begin
  {
    var i :| 0 <= i < |bs| && bs[i] == x;
    Inside(bs, begin, end, i);
    assert Sane(bs[i]);
  }

  lemma KeepsAll(bs: seq<Block>, a: seq<byte>, begin: nat, end: nat, except: nat)
    requires Shape(bs, begin, end) && |a| == end - begin
    ensures Keeps(bs, a, bs, a, begin, except)
  {
    hide Shape;
    forall x | x in bs && x.used ensures 0 <= PayloadAt(x, begin) && PayloadAt(x, begin) + x.requested <= |a| {
      LiveInside(bs, begin, end, x);
    }
  }

  lemma FreeKeepsOthers(bs: seq<Block>, a: seq<byte>, begin: nat, end: nat, i: nat)
    requires Shape(bs, begin, end) && |a| == end - begin && i < |bs| && bs[i].used
    ensures Keeps(bs, a, FreeAt(bs, i), a, begin, bs[i].addr + HEADER)
  {
    hide Shape, FreeAt;
    forall x | x in bs && x.used && x.addr != bs[i].addr
      ensures x in FreeAt(bs, i) && 0 <= PayloadAt(x, begin) && PayloadAt(x, begin) + x.requested <= |a|
    {
      LiveInside(bs, begin, end, x);
      var b :| 0 <= b < |bs| && bs[b] == x;
      UsedAfterFree(bs, i, x);
    }
  }

  lemma KeepsTwice(bs: seq<Block>, a: seq<byte>, r: seq<Block>, b: seq<byte>, s: seq<Block>, begin: nat, except: nat)
    requires Keeps(bs, a, r, b, begin, except) && Keeps(r, b, s, b, begin, except)
    ensures Keeps(bs, a, s, b, begin, except)
  {}

  /** A block in use keeps its place in the chain when another one is carved. */
  function MovedIndex(bs: seq<Block>, i: nat, requested: nat, j: nat): nat
    requires i < |bs|
  {
    if j < i || bs[i].size - BlockSize(requested) <= HEADER + ALIGN then j else j + 1
  }

  lemma UsedStays(bs: seq<Block>, i: nat, requested: nat, j: nat)
    requires i < |bs| && j < |bs| && Fits(bs[i], BlockSize(requested)) && bs[j].used
    ensures j != i
    ensures var r := AllocAt(bs, i, BlockSize(requested), requested);
            MovedIndex(bs, i, requested, j) < |r| && r[MovedIndex(bs, i, requested, j)] == bs[j]
  {
    hide AllocAt;
    if bs[i].size - BlockSize(requested) > HEADER + ALIGN {
      SplitElements(bs, i, BlockSize(requested), requested);
    } else {
      WholeElements(bs, i, BlockSize(requested), requested);
    }
  }

  lemma GrantedFits(bs: seq<Block>, a: seq<byte>, begin: nat, requested: nat, ptr: nat, at: nat,
                    r: seq<Block>, b: seq<byte>)
    requires Granted(bs, a, begin, requested, ptr, at, r, b)
    ensures at < |bs| && Fits(bs[at], BlockSize(requested)) && r == AllocAt(bs, at, BlockSize(requested), requested)
    ensures at < |r| && r[at].used && r[at].addr + HEADER == ptr && r[at].requested == requested
    ensures bs[at].addr + HEADER == ptr
    ensures 0 <= ptr - begin && ptr - begin + requested + CANARY <= |b|
    ensures SameOutside(a, b, ptr - begin, ptr - begin + requested + CANARY)
  {
    hide BlockSize;
  }

  /** Writes within the carved block leave every other payload alone. */
  lemma CarvedKeeps(bs: seq<Block>, a: seq<byte>, begin: nat, end: nat, requested: nat, at: nat, b: seq<byte>, except: nat)
    requires Shape(bs, begin, end) && |a| == end - begin && at < |bs| && Fits(bs[at], BlockSize(requested))
    requires SameOutside(a, b, PayloadAt(bs[at], begin), PayloadAt(bs[at], begin) + requested + CANARY)
    ensures Keeps(bs, a, AllocAt(bs, at, BlockSize(requested), requested), b, begin, except)
  {
    var r := AllocAt(bs, at, BlockSize(requested), requested);
    BlockSizeOk(requested);
    hide Shape, AllocAt, BlockSize;
    assert SameOutside(a, b, PayloadAt(bs[at], begin), End(bs[at]) - begin);
    forall x | x in bs && x.used
      ensures x in r && 0 <= PayloadAt(x, begin) && PayloadAt(x, begin) + x.requested <= |a|
      ensures b[PayloadAt(x, begin)..PayloadAt(x, begin) + x.requested]
              == a[PayloadAt(x, begin)..PayloadAt(x, begin) + x.requested]
    {
      LiveInside(bs, begin, end, x);
      var j :| 0 <= j < |bs| && bs[j] == x;
      UsedStays(bs, at, requested, j);
      OthersIntact(bs, begin, end, at, j, a, b);
    }
  }

  lemma GrantedKeeps(bs: seq<Block>, a: seq<byte>, begin: nat, end: nat, requested: nat, ptr: nat, at: nat,
                     r: seq<Block>, b: seq<byte>, except: nat)
    requires Shape(bs, begin, end) && |a| == end - begin && Granted(bs, a, begin, requested, ptr, at, r, b)
    ensures Keeps(bs, a, r, b, begin, except)
  {
    hide Shape, Granted, AllocAt, BlockSize, Keeps;
    GrantedFits(bs, a, begin, requested, ptr, at, r, b);
    CarvedKeeps(bs, a, begin, end, requested, at, b, except);
  }

  /** Where the old block is after the grant, and that source and target fit. */
  lemma MoveFacts(bs: seq<Block>, a: seq<byte>, begin: nat, end: nat, requested: nat, ptr: nat, at: nat,
                  r: seq<Block>, b: seq<byte>, i: nat)
    requires Shape(bs, begin, end) && |a| == end - begin && Granted(bs, a, begin, requested, ptr, at, r, b)
    requires i < |bs| && bs[i].used
    ensures at < |bs| && i != at
    ensures var j := MovedIndex(bs, at, requested, i); j < |r| && r[j] == bs[i]
    ensures at < |r| && r[at].used && r[at].requested == requested && r[at].addr + HEADER == ptr
    ensures 0 <= ptr - begin && ptr - begin + requested + CANARY <= |b|
    ensures 0 <= PayloadAt(bs[i], begin) && PayloadAt(bs[i], begin) + bs[i].requested <= |b|
  {
    hide Shape, Granted, AllocAt, BlockSize, MovedIndex;
    GrantedFits(bs, a, begin, requested, ptr, at, r, b);
    UsedStays(bs, at, requested, i);
    LiveInside(bs, begin, end, bs[i]);
  }

  /** Copying into a payload of at least that length disturbs no canary. */
  lemma CanariesAfterCopy(bs: seq<Block>, begin: nat, end: nat, i: nat, a: seq<byte>, b: seq<byte>, n: nat)
    requires Shape(bs, begin, end) && |a| == end - begin && CanariesIntact(a, begin, bs)
    requires i < |bs| && bs[i].used && n <= bs[i].requested
    requires SameOutside(a, b, PayloadAt(bs[i], begin), PayloadAt(bs[i], begin) + n)
    ensures CanariesIntact(b, begin, bs)
  {
    assert Sane(bs[i]);
    hide Shape, CanaryOf;
    forall j | 0 <= j < |bs| && bs[j].used ensures CanaryIntact(b, begin, bs[j]) {
      assert CanaryIntact(a, begin, bs[j]);
      if j != i {
        assert SameOutside(a, b, PayloadAt(bs[i], begin), End(bs[i]) - begin);
        OthersIntact(bs, begin, end, i, j, a, b);
      }
    }
  }

  lemma CopyKeeps(bs: seq<Block>, a: seq<byte>, begin: nat, end: nat, requested: nat, ptr: nat, at: nat,
                  r: seq<Block>, b: seq<byte>, c: seq<byte>, i: nat, n: nat)
    requires Shape(bs, begin, end) && |a| == end - begin && Granted(bs, a, begin, requested, ptr, at, r, b)
    requires i < |bs| && bs[i].used && n <= bs[i].requested && n <= requested
    requires 0 <= PayloadAt(bs[i], begin) && PayloadAt(bs[i], begin) + n <= |b|
    requires SameOutside(b, c, ptr - begin, ptr - begin + n)
    requires 0 <= ptr - begin && ptr - begin + n <= |c|
    requires forall k :: 0 <= k < n ==> c[ptr - begin..ptr - begin + n][k] == b[PayloadAt(bs[i], begin)..][k]
    ensures Keeps(bs, a, r, c, begin, bs[i].addr + HEADER)
    ensures Moved(a, PayloadAt(bs[i], begin), c, ptr - begin, n)
  {
    hide Shape, Granted, AllocAt, BlockSize, Keeps;
    GrantedFits(bs, a, begin, requested, ptr, at, r, b);
    assert SameOutside(a, c, PayloadAt(bs[at], begin), PayloadAt(bs[at], begin) + requested + CANARY);
    CarvedKeeps(bs, a, begin, end, requested, at, c, bs[i].addr + HEADER);
    SourceUntouched(bs, a, begin, end, requested, at, b, i);
    var from := PayloadAt(bs[i], begin);
    var kept, was := b[from..from + bs[i].requested], a[from..from + n];
    var target := c[ptr - begin..ptr - begin + n];
    forall k | 0 <= k < n ensures target[k] == was[k] {
      assert target[k] == b[from..][k] == kept[k];
      assert kept[k] == a[from..from + bs[i].requested][k];
    }
    assert target == was;
  }

  lemma SourceUntouched(bs: seq<Block>, a: seq<byte>, begin: nat, end: nat, requested: nat, at: nat, b: seq<byte>, i: nat)
    requires Shape(bs, begin, end) && |a| == end - begin && at < |bs| && Fits(bs[at], BlockSize(requested))
    requires SameOutside(a, b, PayloadAt(bs[at], begin), PayloadAt(bs[at], begin) + requested + CANARY)
    requires i < |bs| && bs[i].used
    ensures var from := PayloadAt(bs[i], begin);
            && 0 <= from && from + bs[i].requested <= |a|
            && b[from..from + bs[i].requested] == a[from..from + bs[i].requested]
  {
    BlockSizeOk(requested);
    hide Shape, BlockSize;
    assert SameOutside(a, b, PayloadAt(bs[at], begin), End(bs[at]) - begin);
    OthersIntact(bs, begin, end, at, i, a, b);
  }

  predicate Oversize(requested: nat, kernel: bool) {
    (requested > MAX_COPY && !kernel) || requested > UINT32_MAX - CANARY - (ALIGN - 1)
  }

  ghost predicate NoneFits(bs: seq<Block>, size: nat) {
    forall j :: 0 <= j < |bs| ==> !Fits(bs[j], size)
  }

  lemma BestOrNone(bs: seq<Block>, size: nat, best: nat, at: int)
    requires BestOf(bs, |bs|, size, best, at)
    ensures best == 0 <==> NoneFits(bs, size)
  {}

  lemma BestFits(bs: seq<Block>, size: nat, best: nat, at: int)
    requires BestOf(bs, |bs|, size, best, at) && best != 0
    ensures 0 <= at < |bs| && Fits(bs[at], size) && bs[at].addr == best
  {}

  /** The payload of block `at` and the canary behind it are written, nothing else. */
  ghost predicate Filled(bs: seq<Block>, a: seq<byte>, begin: nat, at: nat, requested: nat, b: seq<byte>)
    requires at < |bs|
  {
    var from := PayloadAt(bs[at], begin);
    && 0 <= from && from + requested + CANARY <= |b|
    && SameOutside(a, b, from, from + requested + CANARY)
    && (forall k :: from <= k < from + requested ==> b[k] == FILL)
    && b[from + requested..from + requested + CANARY] == CanaryOf(bs[at].addr)
  }

  lemma FilledIsGranted(bs: seq<Block>, a: seq<byte>, begin: nat, end: nat, requested: nat, best: nat, at: nat, b: seq<byte>)
    requires Shape(bs, begin, end) && BestOf(bs, |bs|, BlockSize(requested), best, at) && best != 0 && at < |bs|
    requires Filled(bs, a, begin, at, requested, b)
    ensures Fits(bs[at], BlockSize(requested))
    ensures Granted(bs, a, begin, requested, best + HEADER, at, AllocAt(bs, at, BlockSize(requested), requested), b)
  {
    BlockSizeOk(requested);
    assert Fits(bs[at], BlockSize(requested)) && bs[at].addr == best;
    hide Shape, AllocAt, BestOf, BlockSize;
    AllocFacts(bs, begin, end, at, BlockSize(requested), requested);
  }

  /** Everything the heap has to know about a carved and filled block. */
  lemma GrantHolds(bs: seq<Block>, a: seq<byte>, begin: nat, end: nat, requested: nat, best: nat, at: nat, b: seq<byte>)
    requires Shape(bs, begin, end) && BestOf(bs, |bs|, BlockSize(requested), best, at) && best != 0 && at < |bs|
    requires Filled(bs, a, begin, at, requested, b) && |a| == |b| == end - begin && CanariesIntact(a, begin, bs)
    ensures Fits(bs[at], BlockSize(requested))
    ensures var r := AllocAt(bs, at, BlockSize(requested), requested);
            && at < |r| && UsedBytes(r) == UsedBytes(bs) + r[at].size + HEADER
            && CanariesIntact(b, begin, r) && Granted(bs, a, begin, requested, best + HEADER, at, r, b)
  {
    hide BlockSize, Shape, CanariesIntact, AllocAt, UsedBytes, BestOf, Fits, Filled, Granted;
    BlockSizeOk(requested);
    BestFits(bs, BlockSize(requested), best, at);
    AllocFacts(bs, begin, end, at, BlockSize(requested), requested);
    CanariesAfterAlloc(bs, begin, end, at, BlockSize(requested), requested, a, b);
    FilledIsGranted(bs, a, begin, end, requested, best, at, b);
  }

  function AtLeastOne(size: nat): nat { if size == 0 then 1 else size }

  /** A granted request: the first of the smallest fitting blocks was carved, its payload
      is filled, and no byte outside its payload and canary changed. */
  ghost predicate Granted(bs: seq<Block>, a: seq<byte>, begin: nat, requested: nat, ptr: nat, at: nat,
                          r: seq<Block>, b: seq<byte>)
  {
    var needed := BlockSize(requested);
    && ptr >= HEADER && at < |bs| && BestOf(bs, |bs|, needed, ptr - HEADER, at) && Fits(bs[at], needed)
    && r == AllocAt(bs, at, needed, requested)
    && at < |r| && r[at].used && r[at].addr + HEADER == ptr && r[at].requested == requested
    && 0 <= ptr - begin && ptr - begin + requested + CANARY <= |b|
    && SameOutside(a, b, ptr - begin, ptr - begin + requested + CANARY)
    && forall k :: ptr - begin <= k < ptr - begin + requested ==> b[k] == FILL
  }

  predicate Refused(requested: nat, kernel: bool, inIsr: bool, locked: bool) {
    inIsr || Oversize(requested, kernel) || (locked && !kernel)
  }

  /** What is refused outright: any request from an interrupt, one too large for its caller, and
      any but the kernel's once the heap is locked. Everything else is granted if a free block
      has room for the payload, its canary and rounding. */
  lemma RefusedIff(size: nat, kernel: bool, inIsr: bool, locked: bool)
    requires size <= UINT32_MAX
    ensures Refused(AtLeastOne(size), kernel, inIsr, locked) <==>
              inIsr || (locked && !kernel) || (size > 1024 && !kernel) || size > 0xFFFF_FFFF - 11
    ensures size > 0 ==> AtLeastOne(size) == size
  {}

  lemma EnoughRoomIsGranted(bs: seq<Block>, size: nat, j: nat)
    requires j < |bs| && !bs[j].used && bs[j].size >= AtLeastOne(size) + CANARY + ALIGN
    ensures !NoneFits(bs, BlockSize(AtLeastOne(size)))
  {
    BlockSizeOk(AtLeastOne(size));
    hide BlockSize;
    assert Fits(bs[j], BlockSize(AtLeastOne(size)));
  }

  /** The carved block: where it is, how big, and that it lies in the region. */
  lemma AllocFacts(bs: seq<Block>, begin: nat, end: nat, i: nat, size: nat, requested: nat)
    requires Shape(bs, begin, end) && i < |bs| && Fits(bs[i], size)
    requires size % ALIGN == 0 && requested + CANARY <= size
    ensures var r := AllocAt(bs, i, size, requested);
            && Shape(r, begin, end) && i < |r|
            && UsedBytes(r) == UsedBytes(bs) + r[i].size + HEADER
            && r[i].addr == bs[i].addr && r[i].used && r[i].requested == requested && size <= r[i].size
            && begin <= r[i].addr && End(r[i]) <= end
  {
    AllocKeepsShape(bs, begin, end, i, size, requested);
    var r := AllocAt(bs, i, size, requested);
    assert r[i] == Carve(bs[i], size, requested)[0];
    hide AllocAt, Shape;
    assert Tiles(r, begin, end) by { ShapeTiles(r, begin, end); }
    Inside(r, begin, end, i);
  }

  lemma ShapeTiles(bs: seq<Block>, begin: nat, end: nat)
    requires Shape(bs, begin, end)
    ensures Tiles(bs, begin, end)
  {}

  /** The blocks in use after an allocation are the new one and the old ones, in place. */
  lemma UsedAfterAlloc(bs: seq<Block>, i: nat, size: nat, requested: nat, j: nat)
    requires i < |bs| && Fits(bs[i], size) && j < |AllocAt(bs, i, size, requested)|
    requires AllocAt(bs, i, size, requested)[j].used && j != i
    ensures exists b :: 0 <= b < |bs| && b != i && bs[b] == AllocAt(bs, i, size, requested)[j]
  {
    if bs[i].size - size > HEADER + ALIGN {
      SplitElements(bs, i, size, requested);
      var b := if j < i then j else j - 1;
      assert bs[b] == AllocAt(bs, i, size, requested)[j];
    } else {
      WholeElements(bs, i, size, requested);
      assert bs[j] == AllocAt(bs, i, size, requested)[j];
    }
  }

  lemma CanariesAfterAlloc(bs: seq<Block>, begin: nat, end: nat, i: nat, size: nat, requested: nat,
                           a: seq<byte>, b: seq<byte>)
    requires Shape(bs, begin, end) && i < |bs| && Fits(bs[i], size) && |a| == |b| == end - begin
    requires size % ALIGN == 0 && requested + CANARY <= size
    requires Filled(bs, a, begin, i, requested, b)
    requires CanariesIntact(a, begin, bs)
    ensures CanariesIntact(b, begin, AllocAt(bs, i, size, requested))
  {
    var r := AllocAt(bs, i, size, requested);
    AllocFacts(bs, begin, end, i, size, requested);
    hide AllocAt, Shape, CanaryOf;
    forall j | 0 <= j < |r| && r[j].used ensures CanaryIntact(b, begin, r[j]) {
      if j != i {
        UsedAfterAlloc(bs, i, size, requested, j);
        var k :| 0 <= k < |bs| && k != i && bs[k] == r[j];
        OthersIntact(bs, begin, end, i, k, a, b);
      }
    }
  }
}
