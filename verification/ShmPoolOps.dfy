/** The operations of the pool as functions on its value, and the laws that join them. */
module ShmPoolOps {
  import opened ShmPoolModel
  import opened Alignment

  // ---------------------------------------------------------------- allocation

  /** An alignment of 0 counts as 1, and every alignment is rounded up to the grain. */
  function EffectiveAlignment(alignment: nat): (a: nat)
    ensures a > 0
  {
    RoundUp(if alignment == 0 then 1 else alignment, GRAIN)
  }

  predicate Fits(c: Chunk, size: nat, align: nat)
    requires align > 0
  {
    c.Free() && RoundUp(c.paddr, align) + size <= c.End()
  }

  /** The earliest of the smallest fitting chunks among the first n, or -1. */
  function BestFit(cs: seq<Chunk>, n: nat, size: nat, align: nat): (b: int)
    requires n <= |cs| && align > 0
    ensures b == -1 || 0 <= b < n
    ensures b >= 0 ==> Fits(cs[b], size, align)
  {
    if n == 0 then -1
    else
      var b := BestFit(cs, n - 1, size, align);
      if Fits(cs[n - 1], size, align) && (b == -1 || cs[n - 1].size < cs[b].size) then n - 1 else b
  }

  lemma {:induction false} BestFitIsBest(cs: seq<Chunk>, n: nat, size: nat, align: nat)
    requires n <= |cs| && align > 0
    ensures var b := BestFit(cs, n, size, align);
      && (b == -1 ==> forall j :: 0 <= j < n ==> !Fits(cs[j], size, align))
      && (b >= 0 ==> forall j :: 0 <= j < n && Fits(cs[j], size, align) ==>
                         cs[b].size < cs[j].size || (cs[b].size == cs[j].size && b <= j))
  {
    if n > 0 { BestFitIsBest(cs, n - 1, size, align); }
  }

  function SlackBefore(c: Chunk, beg: nat): seq<Chunk>
  {
    if c.paddr < beg then [Chunk(c.paddr, beg - c.paddr, 0)] else []
  }

  function SlackAfter(end: nat, limit: nat): seq<Chunk>
  {
    if end < limit then [Chunk(end, limit - end, 0)] else []
  }

  /** A free chunk split into slack before, the block, and slack after. */
  function Carve(c: Chunk, beg: nat, size: nat): seq<Chunk>
    requires c.paddr <= beg && beg + size <= c.End()
  {
    SlackBefore(c, beg) + [Chunk(beg, size, 1)] + SlackAfter(beg + size, c.End())
  }

  /** Taking n bytes at alignment a from the best chunk, if there is one. */
  function Place(p: Pool, n: nat, a: nat, descriptors: bool): (Pool, nat)
    requires a > 0
  {
    var i := BestFit(p.chunks, |p.chunks|, n, a);
    if i == -1 || !descriptors then (p, 0)
    else
      var beg := RoundUp(p.chunks[i].paddr, a);
      (Pool(p.base, p.size, p.used + n,
            p.chunks[..i] + Carve(p.chunks[i], beg, n) + p.chunks[i + 1..]), beg)
  }

  /** tee_shm_pool_alloc. `descriptors` says whether both chunk descriptors could be allocated;
      the address 0 is failure. */
  function Alloc(p: Pool, size: nat, alignment: nat, descriptors: bool): (Pool, nat)
  {
    var n := RoundUp(size, GRAIN);
    if n + p.used > p.size then (p, 0)
    else Place(p, n, EffectiveAlignment(alignment), descriptors)
  }

  /** [a, a + n) lies in the pool and meets no live block. */
  ghost predicate Window(p: Pool, a: nat, n: nat)
  {
    && p.base <= a && a + n <= p.base + p.size
    && forall b :: b in Live(p.chunks) ==> a + n <= b || b + Live(p.chunks)[b].size <= a
  }

  lemma CarveFacts(c: Chunk, beg: nat, size: nat)
    requires c.Free() && c.paddr <= beg && beg + size <= c.End()
    ensures Bytes(Carve(c, beg, size)) == c.size
    ensures LiveBytes(Carve(c, beg, size)) == size
    ensures Live(Carve(c, beg, size)) == map[beg := Block(size, 1)]
    ensures size > 0 ==> Tiles(Carve(c, beg, size), c.paddr)
  {
    var pre, mid, post := SlackBefore(c, beg), [Chunk(beg, size, 1)], SlackAfter(beg + size, c.End());
    assert Carve(c, beg, size) == pre + (mid + post);
    TilesConcat(mid, post, beg);
    TilesConcat(pre, mid + post, c.paddr);
  }

  /** Replacing the chunk at i by a list that covers the same bytes. */
  lemma Replace(cs: seq<Chunk>, i: nat, mid: seq<Chunk>, lo: nat)
    requires i < |cs| && Tiles(cs, lo)
    requires Tiles(mid, cs[i].paddr) && Bytes(mid) == cs[i].size
    ensures var cs' := cs[..i] + mid + cs[i + 1..];
      && Tiles(cs', lo) && Bytes(cs') == Bytes(cs)
      && LiveBytes(cs') == LiveBytes(cs[..i]) + LiveBytes(mid) + LiveBytes(cs[i + 1..])
      && Live(cs') == Live(cs[..i]) + Live(mid) + Live(cs[i + 1..])
  {
    SplitAt(cs, i, lo);
    TilesConcat(cs[..i], mid, lo);
    TilesConcat(cs[..i] + mid, cs[i + 1..], lo);
  }

  lemma MapInsert(m: map<nat, Block>, k: map<nat, Block>, a: nat, v: Block)
    requires a !in k
    ensures m + map[a := v] + k == (m + map[] + k)[a := v]
  {
  }

  /** A window inside the free chunk i meets no live block. */
  lemma FreeWindow(cs: seq<Chunk>, i: nat, beg: nat, n: nat, lo: nat)
    requires Tiles(cs, lo) && i < |cs| && n > 0
    requires cs[i].Free() && cs[i].paddr <= beg && beg + n <= cs[i].End()
    ensures beg !in Live(cs[..i]) && beg !in Live(cs[i + 1..]) && beg !in Live(cs)
    ensures forall b :: b in Live(cs) ==> beg + n <= b || b + Live(cs)[b].size <= beg
    ensures lo <= beg && beg + n <= lo + Bytes(cs)
  {
    SplitAt(cs, i, lo);
    assert Live([cs[i]]) == map[];
    var pre, post := Live(cs[..i]), Live(cs[i + 1..]);
    assert forall b :: b in pre ==> b + pre[b].size <= beg && b < beg by { LiveRange(cs[..i], lo); }
    assert forall b :: b in post ==> beg + n <= b by { LiveRange(cs[i + 1..], cs[i].End()); }
    assert Live(cs) == pre + post;
  }

  /** The live blocks after carving a block out of the free chunk i. */
  lemma CarveLive(cs: seq<Chunk>, i: nat, beg: nat, n: nat, lo: nat)
    requires Tiles(cs, lo) && i < |cs| && n > 0
    requires cs[i].Free() && cs[i].paddr <= beg && beg + n <= cs[i].End()
    ensures Live(cs[..i] + Carve(cs[i], beg, n) + cs[i + 1..]) == Live(cs)[beg := Block(n, 1)]
  {
    var mid := Carve(cs[i], beg, n);
    assert Live(cs[..i] + mid + cs[i + 1..]) == Live(cs[..i]) + map[beg := Block(n, 1)] + Live(cs[i + 1..]) by {
      CarveFacts(cs[i], beg, n);
      Replace(cs, i, mid, lo);
    }
    assert Live(cs) == Live(cs[..i]) + map[] + Live(cs[i + 1..]) by {
      SplitAt(cs, i, lo);
      assert Live([cs[i]]) == map[];
    }
    FreeWindow(cs, i, beg, n, lo);
    MapInsert(Live(cs[..i]), Live(cs[i + 1..]), beg, Block(n, 1));
  }

  /** Carving keeps the invariant. */
  lemma CarveInv(p: Pool, i: nat, beg: nat, n: nat)
    requires Inv(p) && i < |p.chunks| && n > 0
    requires p.chunks[i].Free() && p.chunks[i].paddr <= beg && beg + n <= p.chunks[i].End()
    ensures Inv(Pool(p.base, p.size, p.used + n, p.chunks[..i] + Carve(p.chunks[i], beg, n) + p.chunks[i + 1..]))
  {
    var cs, c := p.chunks, p.chunks[i];
    var mid := Carve(c, beg, n);
    assert Tiles(mid, c.paddr) && Bytes(mid) == c.size && LiveBytes(mid) == n by { CarveFacts(c, beg, n); }
    assert LiveBytes([c]) == 0;
    assert LiveBytes(cs) == LiveBytes(cs[..i]) + LiveBytes(cs[i + 1..]) by { SplitAt(cs, i, p.base); }
    Replace(cs, i, mid, p.base);
    CarveCoalesced(cs, i, beg, n);
    forall d | d in cs[..i] + mid + cs[i + 1..] ensures d.counter < COUNTER_WRAP {
      if d in cs[..i] || d in cs[i + 1..] { assert d in cs; }
    }
  }

  /** What a successful allocation does. */
  lemma AllocSucceeds(p: Pool, size: nat, alignment: nat)
    requires Inv(p) && size > 0 && Alloc(p, size, alignment, true).1 != 0
    ensures var (q, r) := Alloc(p, size, alignment, true); var n := RoundUp(size, GRAIN);
      && Inv(q) && q.base == p.base && q.size == p.size
      && r % EffectiveAlignment(alignment) == 0
      && Window(p, r, n)
      && r !in Live(p.chunks) && Live(q.chunks) == Live(p.chunks)[r := Block(n, 1)]
  {
    var n, a := RoundUp(size, GRAIN), EffectiveAlignment(alignment);
    var i := BestFit(p.chunks, |p.chunks|, n, a);
    var beg := RoundUp(p.chunks[i].paddr, a);
    FreeWindow(p.chunks, i, beg, n, p.base);
    RoundUpMultiple(p.chunks[i].paddr, a);
    CarveLive(p.chunks, i, beg, n, p.base);
    CarveInv(p, i, beg, n);
  }

  lemma CarveCoalesced(cs: seq<Chunk>, i: nat, beg: nat, n: nat)
    requires i < |cs| && cs[i].Free() && cs[i].paddr <= beg && beg + n <= cs[i].End()
    requires Coalesced(cs)
    ensures Coalesced(cs[..i] + Carve(cs[i], beg, n) + cs[i + 1..])
  {
  }

  // ---------------------------------------------------------------- completeness

  /** Free chunks are maximal: a gap between live blocks lies inside one of them. */
  lemma {:induction false} GapIsInOneChunk(cs: seq<Chunk>, lo: nat, a: nat, n: nat) returns (i: nat)
    requires Tiles(cs, lo) && Coalesced(cs) && n > 0 && lo <= a && a + n <= lo + Bytes(cs)
    requires forall b :: b in Live(cs) ==> a + n <= b || b + Live(cs)[b].size <= a
    ensures i < |cs| && cs[i].Free() && cs[i].paddr <= a && a + n <= cs[i].End()
  {
    var c := cs[0];
    LiveAt(cs, 0, lo);
    if c.End() <= a {
      var tail := cs[1..];
      LiveRange(tail, c.End());
      forall j | 0 <= j < |tail| - 1 ensures !(tail[j].Free() && tail[j + 1].Free()) {
        assert tail[j] == cs[j + 1] && tail[j + 1] == cs[j + 2];
      }
      i := GapIsInOneChunk(tail, c.End(), a, n);
      i := i + 1;
    } else {
      i := 0;
      if c.End() < a + n { LiveAt(cs, 1, lo); }
    }
  }

  lemma FreeBytesBound(cs: seq<Chunk>, i: nat, lo: nat)
    requires i < |cs| && Tiles(cs, lo) && cs[i].Free()
    ensures LiveBytes(cs) + cs[i].size <= Bytes(cs)
    ensures lo <= cs[i].paddr && cs[i].End() <= lo + Bytes(cs)
  {
    SplitAt(cs, i, lo);
    LiveBytesBound(cs[..i]);
    LiveBytesBound(cs[i + 1..]);
    assert LiveBytes([cs[i]]) == 0;
  }

  /** tee_shm_pool_alloc fails only when no aligned window of the rounded size is left. */
  lemma AllocComplete(p: Pool, size: nat, alignment: nat)
    requires Inv(p) && size > 0
    ensures Alloc(p, size, alignment, true).1 != 0 <==>
            exists w: nat :: w % EffectiveAlignment(alignment) == 0 && Window(p, w, RoundUp(size, GRAIN))
  {
    var n, a := RoundUp(size, GRAIN), EffectiveAlignment(alignment);
    if Alloc(p, size, alignment, true).1 != 0 {
      AllocSucceeds(p, size, alignment);
      assert Window(p, Alloc(p, size, alignment, true).1, n);
    }
    if w: nat :| w % a == 0 && Window(p, w, n) {
      var i := GapIsInOneChunk(p.chunks, p.base, w, n);
      RoundUpLeast(p.chunks[i].paddr, a, w);
      FreeBytesBound(p.chunks, i, p.base);
      assert Fits(p.chunks[i], n, a);
      var b := BestFit(p.chunks, |p.chunks|, n, a);
      BestFitIsBest(p.chunks, |p.chunks|, n, a);
      FreeBytesBound(p.chunks, b, p.base);
    }
  }

  /** Where a block comes from: the smallest free chunk that has room behind its first multiple of the
      alignment, the first of several, and it starts at that multiple. The constant 0x20 is the grain
      of sizes and alignments. */
  lemma AllocPlaces(p: Pool, size: nat, alignment: nat, descriptors: bool) returns (i: nat)
    requires Inv(p) && size > 0 && Alloc(p, size, alignment, descriptors).1 != 0
    ensures descriptors && i < |p.chunks|
    ensures var n, a := RoundUp(size, 0x20), RoundUp(if alignment == 0 then 1 else alignment, 0x20);
      && Alloc(p, size, alignment, descriptors).1 == RoundUp(p.chunks[i].paddr, a)
      && HasRoom(p.chunks[i], n, a)
      && forall j :: 0 <= j < |p.chunks| && HasRoom(p.chunks[j], n, a) ==>
           p.chunks[i].size < p.chunks[j].size || (p.chunks[i].size == p.chunks[j].size && i <= j)
  {
    var n, a := RoundUp(size, GRAIN), EffectiveAlignment(alignment);
    BestFitIsBest(p.chunks, |p.chunks|, n, a);
    i := BestFit(p.chunks, |p.chunks|, n, a);
    forall j | 0 <= j < |p.chunks| ensures HasRoom(p.chunks[j], n, a) <==> Fits(p.chunks[j], n, a) { }
  }

  predicate HasRoom(c: Chunk, n: nat, a: nat)
    requires a > 0
  {
    c.counter == 0 && RoundUp(c.paddr, a) + n <= c.paddr + c.size
  }

  /** The rounded alignment of a power of two: itself, or the grain. */
  lemma EffectiveIsMax(alignment: nat)
    requires alignment == 0 || PowerOfTwo(alignment)
    ensures EffectiveAlignment(alignment) == if alignment < 0x20 then 0x20 else alignment
  {
    if alignment < 0x20 {
      RoundUpSmall(if alignment == 0 then 1 else alignment, GRAIN);
    } else {
      GrainIsPower();
      PowersDivide(GRAIN, alignment);
      RoundUpFixed(alignment, GRAIN);
    }
  }

  lemma GrainIsPower()
    ensures PowerOfTwo(GRAIN)
  {
  }

  /** The returned address honours the alignment the caller asked for, not only the rounded one. */
  lemma AlignmentHonoured(alignment: nat, r: nat)
    requires PowerOfTwo(alignment) && r % EffectiveAlignment(alignment) == 0
    ensures r % alignment == 0
  {
    GrainIsPower();
    RoundUpPower(alignment, GRAIN);
    DividesTrans(alignment, EffectiveAlignment(alignment), r);
  }

  // ---------------------------------------------------------------- counting and release

  predicate InPool(p: Pool, paddr: nat) { p.base <= paddr < p.base + p.size }

  /** The first chunk that starts at paddr, or |cs|. */
  function Find(cs: seq<Chunk>, paddr: nat): (i: nat)
    ensures i <= |cs| && (i < |cs| ==> cs[i].paddr == paddr)
    ensures forall j :: 0 <= j < i ==> cs[j].paddr != paddr
  {
    if cs == [] || cs[0].paddr == paddr then 0
    else
      var r := Find(cs[1..], paddr);
      assert forall j :: 0 < j < r + 1 ==> cs[j] == cs[1..][j - 1];
      r + 1
  }

  /** tee_shm_pool_incref; the counter is a uint32_t and is not tested. */
  function Incref(p: Pool, paddr: nat): (Pool, bool)
  {
    var i := Find(p.chunks, paddr);
    if !InPool(p, paddr) || i == |p.chunks| then (p, false)
    else
      var c := p.chunks[i];
      (p.(chunks := p.chunks[i := c.(counter := (c.counter + 1) % COUNTER_WRAP)]), true)
  }

  /** A chunk absorbed by a free predecessor, and where the result stands. */
  function JoinPrev(cs: seq<Chunk>, i: nat): (r: (seq<Chunk>, nat))
    requires i < |cs|
    ensures r.1 < |r.0|
  {
    if i > 0 && cs[i - 1].Free()
    then (cs[..i - 1] + [cs[i - 1].(size := cs[i - 1].size + cs[i].size)] + cs[i + 1..], i - 1)
    else (cs, i)
  }

  /** A chunk that absorbs a free successor. */
  function JoinNext(cs: seq<Chunk>, i: nat): seq<Chunk>
    requires i < |cs|
  {
    if i + 1 < |cs| && cs[i + 1].Free()
    then cs[..i] + [cs[i].(size := cs[i].size + cs[i + 1].size)] + cs[i + 2..]
    else cs
  }

  /** The chunk list after chunk i has become free. */
  function Release(cs: seq<Chunk>, i: nat): seq<Chunk>
    requires i < |cs|
  {
    var (joined, k) := JoinPrev(cs[i := cs[i].(counter := 0)], i);
    JoinNext(joined, k)
  }

  /** The four ways tee_shm_pool_free ends; the size is what it stores through its pointer. */
  datatype FreeOutcome = NotFound | AlreadyFree(size: nat) | Decremented(size: nat) | Released(size: nat)

  /** One reference off the chunk i. */
  function Drop(p: Pool, i: nat): (Pool, FreeOutcome)
    requires i < |p.chunks| && (p.chunks[i].counter == 1 ==> p.chunks[i].size <= p.used)
  {
    var c := p.chunks[i];
    if c.counter == 0 then (p, AlreadyFree(c.size))
    else if c.counter > 1 then
      (p.(chunks := p.chunks[i := c.(counter := c.counter - 1)]), Decremented(c.size))
    else
      (p.(used := p.used - c.size, chunks := Release(p.chunks, i)), Released(c.size))
  }

  /** tee_shm_pool_free. */
  function Free(p: Pool, paddr: nat): (Pool, FreeOutcome)
    requires Inv(p)
  {
    var i := Find(p.chunks, paddr);
    if !InPool(p, paddr) || i == |p.chunks| then (p, NotFound)
    else
      UsedCovers(p, i);
      Drop(p, i)
  }

  lemma UsedCovers(p: Pool, i: nat)
    requires Inv(p) && i < |p.chunks|
    ensures !p.chunks[i].Free() ==> p.chunks[i].size <= p.used
  {
    SplitAt(p.chunks, i, p.base);
    assert !p.chunks[i].Free() ==> LiveBytes([p.chunks[i]]) == p.chunks[i].size;
  }

  /** Changing one counter without making or unmaking a live block. */
  lemma Recount(p: Pool, i: nat, k: nat)
    requires Inv(p) && i < |p.chunks| && !p.chunks[i].Free() && 0 < k < COUNTER_WRAP
    ensures var c := p.chunks[i]; var q := p.(chunks := p.chunks[i := c.(counter := k)]);
      Inv(q) && Live(q.chunks) == Live(p.chunks)[c.paddr := Block(c.size, k)]
  {
    var cs, c := p.chunks, p.chunks[i];
    var d := c.(counter := k);
    var cs' := cs[i := d];
    assert cs' == cs[..i] + [d] + cs[i + 1..];
    RecountLive(cs, i, k, p.base);
    assert forall j :: 0 <= j < |cs| ==> cs'[j].Free() == cs[j].Free();
    assert Tiles(cs', p.base) && Bytes(cs') == Bytes(cs) && LiveBytes(cs') == LiveBytes(cs) by {
      SplitAt(cs, i, p.base);
      Replace(cs, i, [d], p.base);
      assert LiveBytes([c]) == LiveBytes([d]) == c.size;
    }
    forall x | x in cs' ensures x.counter < COUNTER_WRAP { assert x == d || x in cs; }
  }

  lemma RecountLive(cs: seq<Chunk>, i: nat, k: nat, lo: nat)
    requires Tiles(cs, lo) && i < |cs| && !cs[i].Free() && 0 < k
    ensures Live(cs[..i] + [cs[i].(counter := k)] + cs[i + 1..]) == Live(cs)[cs[i].paddr := Block(cs[i].size, k)]
  {
    var c, d := cs[i], cs[i].(counter := k);
    assert Live(cs[..i] + [d] + cs[i + 1..])
      == Live(cs[..i]) + map[c.paddr := Block(c.size, k)] + Live(cs[i + 1..]) by {
      LiveConcat(cs[..i], [d]);
      LiveConcat(cs[..i] + [d], cs[i + 1..]);
      OneLive(d);
    }
    assert Live(cs) == Live(cs[..i]) + map[c.paddr := Block(c.size, c.counter)] + Live(cs[i + 1..]) by {
      SplitAt(cs, i, lo);
      OneLive(c);
    }
    ApartAfter(cs, i, i + 1, lo);
    MapReplace(Live(cs[..i]), Live(cs[i + 1..]), c.paddr, Block(c.size, c.counter), Block(c.size, k));
  }

  lemma MapReplace(m: map<nat, Block>, k: map<nat, Block>, a: nat, v: Block, w: Block)
    requires a !in k
    ensures m + map[a := w] + k == (m + map[a := v] + k)[a := w]
  {
  }

  lemma Concat3(x: seq<Chunk>, y: seq<Chunk>, z: seq<Chunk>, lo: nat)
    ensures Tiles(x + y + z, lo) <==>
            Tiles(x, lo) && Tiles(y, lo + Bytes(x)) && Tiles(z, lo + Bytes(x) + Bytes(y))
    ensures Bytes(x + y + z) == Bytes(x) + Bytes(y) + Bytes(z)
    ensures LiveBytes(x + y + z) == LiveBytes(x) + LiveBytes(y) + LiveBytes(z)
    ensures Live(x + y + z) == Live(x) + Live(y) + Live(z)
  {
    TilesConcat(x, y, lo);
    TilesConcat(x + y, z, lo);
  }

  lemma Slices(cs: seq<Chunk>, a: nat, b: nat)
    requires a <= b <= |cs|
    ensures cs == cs[..a] + cs[a..b] + cs[b..]
  {
  }

  /** Replacing the chunks [a, b) by one free chunk over the same bytes. */
  lemma MergeRange(cs: seq<Chunk>, a: nat, b: nat, lo: nat)
    requires a < b <= |cs| && Tiles(cs, lo)
    ensures LiveBytes(cs) == LiveBytes(cs[..a]) + LiveBytes(cs[a..b]) + LiveBytes(cs[b..])
    ensures Live(cs) == Live(cs[..a]) + Live(cs[a..b]) + Live(cs[b..])
    ensures var cs' := cs[..a] + [Chunk(cs[a].paddr, Bytes(cs[a..b]), 0)] + cs[b..];
      && Tiles(cs', lo) && Bytes(cs') == Bytes(cs)
      && LiveBytes(cs') == LiveBytes(cs[..a]) + LiveBytes(cs[b..])
      && Live(cs') == Live(cs[..a]) + Live(cs[b..])
  {
    var mid, m := cs[a..b], [Chunk(cs[a].paddr, Bytes(cs[a..b]), 0)];
    Slices(cs, a, b);
    Concat3(cs[..a], mid, cs[b..], lo);
    assert mid[0] == cs[a];
    assert Bytes(m) == Bytes(mid) && LiveBytes(m) == 0 && Live(m) == map[] && Tiles(m, lo + Bytes(cs[..a]));
    Concat3(cs[..a], m, cs[b..], lo);
    assert Live(cs[..a]) + map[] == Live(cs[..a]);
  }

  /** Where the merged chunk begins and ends in the old list. */
  function MergeFrom(cs: seq<Chunk>, i: nat): (a: nat)
    requires i < |cs|
    ensures a <= i
  {
    if i > 0 && cs[i - 1].Free() then i - 1 else i
  }

  function MergeTo(cs: seq<Chunk>, i: nat): (b: nat)
    requires i < |cs|
    ensures i < b <= |cs|
  {
    if i + 1 < |cs| && cs[i + 1].Free() then i + 2 else i + 1
  }

  lemma ReleaseIsMerge(cs: seq<Chunk>, i: nat)
    requires i < |cs|
    ensures var (a, b) := (MergeFrom(cs, i), MergeTo(cs, i));
      Release(cs, i) == cs[..a] + [Chunk(cs[a].paddr, Bytes(cs[a..b]), 0)] + cs[b..]
  {
    MergedPart(cs, i);
    var a, b := MergeFrom(cs, i), MergeTo(cs, i);
    var (joined, k) := JoinPrev(cs[i := cs[i].(counter := 0)], i);
    assert k == a && joined[..a] == cs[..a] && joined[a + 1..] == cs[i + 1..];
    assert joined[a].paddr == cs[a].paddr && joined[a].counter == 0;
    assert b == i + 2 ==> joined[a + 1] == cs[i + 1] && joined[a + 2..] == cs[b..];
    assert JoinNext(joined, k) == joined[..a] + [Chunk(cs[a].paddr, Bytes(cs[a..b]), 0)] + cs[b..];
  }

  lemma MergedPart(cs: seq<Chunk>, i: nat)
    requires i < |cs|
    ensures var part := cs[MergeFrom(cs, i)..MergeTo(cs, i)];
      && Bytes(part) == (if MergeFrom(cs, i) < i then cs[i - 1].size else 0) + cs[i].size
                        + (if i + 1 < MergeTo(cs, i) then cs[i + 1].size else 0)
      && LiveBytes(part) == LiveBytes([cs[i]])
      && Live(part) == Live([cs[i]])
  {
    var a, b := MergeFrom(cs, i), MergeTo(cs, i);
    var pre, post := cs[a..i], cs[i + 1..b];
    assert cs[a..b] == pre + [cs[i]] + post;
    Concat3(pre, [cs[i]], post, 0);
    if a < i { assert pre == [cs[i - 1]]; }
    if i + 1 < b { assert post == [cs[i + 1]]; }
    assert Live(pre) == map[] && Live(post) == map[];
    assert LiveBytes(pre) == 0 && LiveBytes(post) == 0;
  }

  lemma ReleaseCoalesced(cs: seq<Chunk>, i: nat)
    requires i < |cs| && !cs[i].Free() && Coalesced(cs)
    ensures Coalesced(Release(cs, i))
  {
  }

  lemma MapRemove(m: map<nat, Block>, k: map<nat, Block>, a: nat, v: Block)
    requires a !in m && a !in k
    ensures m + k == (m + map[a := v] + k) - {a}
  {
  }

  /** Dropping the last reference frees exactly that block. */
  lemma ReleaseKeeps(p: Pool, i: nat)
    requires Inv(p) && i < |p.chunks| && !p.chunks[i].Free()
    ensures p.chunks[i].size <= p.used
    ensures Inv(p.(used := p.used - p.chunks[i].size, chunks := Release(p.chunks, i)))
    ensures Live(Release(p.chunks, i)) == Live(p.chunks) - {p.chunks[i].paddr}
  {
    var cs, c := p.chunks, p.chunks[i];
    var a, b := MergeFrom(cs, i), MergeTo(cs, i);
    UsedCovers(p, i);
    ReleaseIsMerge(cs, i);
    MergedPart(cs, i);
    assert Live([c]) == map[c.paddr := Block(c.size, c.counter)] && LiveBytes([c]) == c.size;
    MergeRange(cs, a, b, p.base);
    ReleaseCoalesced(cs, i);
    assert c.paddr !in Live(cs[..a]) && c.paddr !in Live(cs[b..]) by { ReleaseApart(cs, i, p.base); }
    MapRemove(Live(cs[..a]), Live(cs[b..]), c.paddr, Block(c.size, c.counter));
    forall d | d in Release(cs, i) ensures d.counter < COUNTER_WRAP {
      if d in cs[..a] || d in cs[b..] { assert d in cs; }
    }
  }

  lemma ReleaseApart(cs: seq<Chunk>, i: nat, lo: nat)
    requires i < |cs| && Tiles(cs, lo)
    ensures cs[i].paddr !in Live(cs[..MergeFrom(cs, i)]) && cs[i].paddr !in Live(cs[MergeTo(cs, i)..])
  {
    SplitAt(cs, i, lo);
    ApartBefore(cs, MergeFrom(cs, i), i, lo);
    ApartAfter(cs, i, MergeTo(cs, i), lo);
  }

  lemma ApartBefore(cs: seq<Chunk>, a: nat, i: nat, lo: nat)
    requires a <= i < |cs| && Tiles(cs, lo)
    ensures cs[i].paddr !in Live(cs[..a])
  {
    SplitAt(cs, i, lo);
    assert cs[..i] == cs[..a] + cs[a..i];
    TilesJoin(cs[..a], cs[a..i], lo);
    BytesConcat(cs[..a], cs[a..i]);
    LiveRange(cs[..a], lo);
  }

  lemma ApartAfter(cs: seq<Chunk>, i: nat, b: nat, lo: nat)
    requires i < b <= |cs| && Tiles(cs, lo)
    ensures cs[i].paddr !in Live(cs[b..])
  {
    SplitAt(cs, i, lo);
    assert cs[i + 1..] == cs[i + 1..b] + cs[b..];
    TilesJoin(cs[i + 1..b], cs[b..], cs[i].End());
    LiveRange(cs[b..], cs[i].End() + Bytes(cs[i + 1..b]));
  }
}
