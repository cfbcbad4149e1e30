/** struct shm_pool and struct mem_chunk of tee_mem.c as objects updated in place; every
    method is tied to the function of the same name in ShmPoolOps. */
module ShmPool {
  import opened Alignment
  import opened ShmPoolModel
  import opened ShmPoolOps

  class MemChunk {
    var paddr: nat
    var size: nat
    var counter: nat

    constructor (paddr: nat, size: nat)
      ensures this.paddr == paddr && this.size == size && this.counter == 0
    {
      this.paddr, this.size, this.counter := paddr, size, 0;
    }

    ghost function View(): Chunk
      reads this
    {
      Chunk(paddr, size, counter)
    }
  }

  lemma CutBehind(cs: seq<Chunk>, k: nat, c: Chunk)
    requires k + 1 < |cs|
    ensures cs[k := c][..k + 1] + cs[k := c][k + 2..] == cs[..k] + [c] + cs[k + 2..]
  {
    assert cs[k := c][..k + 1] == cs[..k] + [c];
  }

  /** The fit test of tee_shm_pool_alloc, whose additions and ALIGN are on words. */
  predicate FitsOnWords(paddr: nat, csize: nat, size: nat, align: nat)
    requires align > 0
  {
    var begAddr := AlignWord(paddr, align);
    var endAddr := Wrap(begAddr + size);
    begAddr >= paddr && endAddr <= Wrap(paddr + csize)
  }

  lemma FitTest(c: Chunk, size: nat, align: nat)
    requires c.End() <= HALF_WORD && PowerOfTwo(align) && align <= HALF_WORD && size < HALF_WORD
    ensures AlignWord(c.paddr, align) == RoundUp(c.paddr, align)
    ensures Fits(c, size, align) <==> c.Free() && FitsOnWords(c.paddr, c.size, size, align)
  {
    AlignNoWrap(c.paddr, align);
    AlignStaysLow(c.paddr, align);
  }

  lemma SizeOnWords(size: nat)
    requires size < WORD
    ensures AlignWord(size, GRAIN) < size ==> RoundUp(size, GRAIN) > HALF_WORD
    ensures AlignWord(size, GRAIN) >= size ==> AlignWord(size, GRAIN) == RoundUp(size, GRAIN)
  {
    RoundingWraps(size, GRAIN);
  }

  lemma AlignmentOnWords(alignment: nat)
    requires alignment < WORD && (alignment == 0 || PowerOfTwo(alignment))
    ensures var a := AlignWord(if alignment == 0 then 1 else alignment, GRAIN);
      a == EffectiveAlignment(alignment) && PowerOfTwo(a) && a <= HALF_WORD
  {
    var a := if alignment == 0 then 1 else alignment;
    PowerIsHalfWord(a);
    GrainIsPower();
    AlignNoWrap(a, GRAIN);
    RoundUpPower(a, GRAIN);
    AlignStaysLow(a, GRAIN);
  }

  /** No chunk reaches past the lower half of the address space. */
  predicate Low(cs: seq<Chunk>)
  {
    forall c :: c in cs ==> c.End() <= HALF_WORD
  }

  lemma AlignedAt(cs: seq<Chunk>, at: nat, a: nat)
    requires Low(cs) && at < |cs| && PowerOfTwo(a) && a <= HALF_WORD
    ensures AlignWord(cs[at].paddr, a) == RoundUp(cs[at].paddr, a)
  {
    assert cs[at] in cs;
    AlignNoWrap(cs[at].paddr, a);
  }

  lemma InvIsLow(p: Pool)
    requires Inv(p)
    ensures Low(p.chunks) && |p.chunks| > 0 && p.used <= p.size < HALF_WORD
  {
    forall i | 0 <= i < |p.chunks| ensures p.chunks[i].End() <= HALF_WORD { SplitAt(p.chunks, i, p.base); }
    LiveBytesBound(p.chunks);
  }

  /** The list edits of an allocation together. */
  lemma CarveAssembled(v: seq<Chunk>, v1: seq<Chunk>, v2: seq<Chunk>, at: nat, pos: nat, beg: nat, size: nat)
    requires at < |v| && pos < |v1| && pos < |v2| && v[at].paddr <= beg && beg + size <= v[at].End()
    requires v1[..pos] == v[..at] + SlackBefore(v[at], beg) && v1[pos + 1..] == v[at + 1..]
    requires v2[..pos] == v1[..pos] && v2[pos + 1..] == SlackAfter(beg + size, v[at].End()) + v1[pos + 1..]
    ensures v2[pos := Chunk(beg, size, 1)] == v[..at] + Carve(v[at], beg, size) + v[at + 1..]
  {
    assert v2[pos := Chunk(beg, size, 1)] == v2[..pos] + [Chunk(beg, size, 1)] + v2[pos + 1..];
  }

  class ShmPool {
    var locked: bool
    var size: nat
    var used: nat
    var vaddr: nat
    var paddr: nat
    var mchunks: seq<MemChunk>
    ghost var chunks: seq<Chunk>

    /** The list holds distinct descriptors, and `chunks` is what they say. */
    ghost predicate Linked()
      reads this, mchunks
    {
      && |chunks| == |mchunks|
      && (forall i, j :: 0 <= i < j < |mchunks| ==> mchunks[i] != mchunks[j])
      && (forall i :: 0 <= i < |mchunks| ==> mchunks[i].View() == chunks[i])
    }

    ghost function View(): Pool
      reads this
    {
      Pool(paddr, size, used, chunks)
    }

    ghost predicate Valid()
      reads this, mchunks
    {
      Linked() && Inv(View())
    }

    constructor (size: nat, vaddr: nat, paddr: nat, first: MemChunk)
      ensures !locked && Linked() && View() == Pool(paddr, size, 0, [first.View()])
      ensures mchunks == [first] && this.vaddr == vaddr
    {
      this.size, this.used, this.vaddr, this.paddr := size, 0, vaddr, paddr;
      this.mchunks := [first];
      this.chunks := [first.View()];
      this.locked := false;
    }

    /** tee_shm_pool_create: the two flags say whether the two descriptors could be allocated. */
    static method Create(shmSize: nat, shmVaddr: nat, shmPaddr: nat, poolMemory: bool, chunkMemory: bool)
      returns (pool: ShmPool?)
      ensures pool != null <==> poolMemory && chunkMemory
      ensures pool != null ==> fresh(pool) && fresh(pool.mchunks) && !pool.locked
                               && pool.Linked() && pool.View() == Initial(shmPaddr, shmSize)
    {
      if !poolMemory || !chunkMemory { return null; }
      var chunk := new MemChunk(shmPaddr, shmSize);
      pool := new ShmPool(shmSize, shmVaddr, shmPaddr, chunk);
    }

    /** tee_shm_pool_reset. */
    method Reset()
      requires Linked() && |mchunks| > 0 && !locked
      modifies this, mchunks
      ensures !locked && Linked() && View() == Initial(old(paddr), old(size))
      ensures mchunks == old(mchunks)[..1]
    {
      locked := true;
      var first := mchunks[0];
      while |mchunks| > 1
        invariant 0 < |mchunks| <= |old(mchunks)| && mchunks[0] == first == old(mchunks)[0]
        invariant paddr == old(paddr) && size == old(size) && locked
        decreases |mchunks|
      {
        mchunks := [mchunks[0]] + mchunks[2..];
      }
      first.counter := 0;
      first.paddr := paddr;
      first.size := size;
      used := 0;
      chunks := [first.View()];
      locked := false;
    }

    /** tee_shm_pool_alloc. The pool mutex is taken after the checks on the arguments; the two flags
        say whether the descriptors for the slack before and after could be allocated. */
    method Alloc(size: nat, alignment: nat, prevMemory: bool, nextMemory: bool) returns (r: nat)
      requires Valid() && !locked
      requires size < WORD && alignment < WORD && (alignment == 0 || PowerOfTwo(alignment))
      modifies this, mchunks
      ensures (View(), r) == ShmPoolOps.Alloc(old(View()), size, alignment, prevMemory && nextMemory)
      ensures !locked && Linked() && forall o :: o in mchunks ==> o in old(mchunks) || fresh(o)
    {
      InvIsLow(View());
      SizeOnWords(size);
      AlignmentOnWords(alignment);
      if AlignWord(size, GRAIN) < size { return 0; }
      var a := AlignWord(if alignment == 0 then 1 else alignment, GRAIN);
      var n := AlignWord(size, GRAIN);
      if n > this.size - used { return 0; }
      r := Place(n, a, prevMemory && nextMemory);
    }

    /** The part of tee_shm_pool_alloc that runs under the pool mutex. */
    method Place(n: nat, a: nat, memory: bool) returns (r: nat)
      requires !locked && Linked() && Low(chunks) && n < HALF_WORD && PowerOfTwo(a) && a <= HALF_WORD
      modifies this, mchunks
      ensures !locked && Linked() && forall o :: o in mchunks ==> o in old(mchunks) || fresh(o)
      ensures (View(), r) == ShmPoolOps.Place(old(View()), n, a, memory)
    {
      locked := true;
      r := PlaceLocked(n, a, memory);
      locked := false;
    }

    method PlaceLocked(n: nat, a: nat, memory: bool) returns (r: nat)
      requires Linked() && Low(chunks) && n < HALF_WORD && PowerOfTwo(a) && a <= HALF_WORD
      modifies this`mchunks, this`chunks, this`used, mchunks
      ensures Linked() && forall o :: o in mchunks ==> o in old(mchunks) || fresh(o)
      ensures (View(), r) == ShmPoolOps.Place(old(View()), n, a, memory)
    {
      var betterchunk, at := BestChunk(n, a);
      if betterchunk == null || !memory { return 0; }
      r := AlignWord(betterchunk.paddr, a);
      AlignedAt(chunks, at, a);
      Split(betterchunk, at, n, r);
    }

    /** The best-fit search of tee_shm_pool_alloc. */
    method BestChunk(size: nat, alignment: nat) returns (betterchunk: MemChunk?, at: nat)
      requires Linked() && Low(chunks) && size < HALF_WORD && PowerOfTwo(alignment) && alignment <= HALF_WORD
      ensures var b := BestFit(chunks, |chunks|, size, alignment);
        if b == -1 then betterchunk == null else at == b && betterchunk == mchunks[at]
    {
      betterchunk, at := null, 0;
      var k := 0;
      while k < |mchunks|
        invariant 0 <= k <= |mchunks|
        invariant var b := BestFit(chunks, k, size, alignment);
          if b == -1 then betterchunk == null else at == b && betterchunk == mchunks[at]
      {
        var chunk := mchunks[k];
        FitTest(chunks[k], size, alignment);
        if chunk.counter == 0 {
          if FitsOnWords(chunk.paddr, chunk.size, size, alignment)
             && (betterchunk == null || chunk.size < betterchunk.size) {
            betterchunk, at := chunk, k;
          }
        }
        k := k + 1;
      }
    }

    /** The list update of tee_shm_pool_alloc. */
    method Split(betterchunk: MemChunk, at: nat, size: nat, begAddr: nat)
      requires Linked() && at < |mchunks| && mchunks[at] == betterchunk
      requires betterchunk.paddr <= begAddr && begAddr + size <= betterchunk.View().End()
      modifies this`mchunks, this`used, this`chunks, betterchunk
      ensures chunks == old(chunks)[..at] + Carve(old(chunks)[at], begAddr, size) + old(chunks)[at + 1..]
      ensures used == old(used) + size
      ensures Linked() && forall o :: o in mchunks ==> o in old(mchunks) || fresh(o)
    {
      var prev := new MemChunk(0, 0);
      var next := new MemChunk(0, 0);
      ghost var v := chunks;
      var pos := CutBefore(betterchunk, at, begAddr, prev);
      ghost var v1 := chunks;
      CutAfter(betterchunk, pos, size, begAddr + size, next);
      ghost var v2 := chunks;
      betterchunk.counter := 1;
      chunks := chunks[pos := betterchunk.View()];
      used := used + size;
      CarveAssembled(v, v1, v2, at, pos, begAddr, size);
    }

    /** list_add and list_add_tail: the descriptor becomes element `at` of the list. */
    method LinkAt(at: nat, o: MemChunk)
      requires Linked() && at <= |mchunks| && o !in mchunks
      modifies this`mchunks, this`chunks
      ensures mchunks == old(mchunks)[..at] + [o] + old(mchunks)[at..]
      ensures chunks == old(chunks)[..at] + [o.View()] + old(chunks)[at..]
      ensures Linked()
    {
      mchunks := mchunks[..at] + [o] + mchunks[at..];
      chunks := chunks[..at] + [o.View()] + chunks[at..];
    }

    /** Slack before the block becomes a chunk of its own, linked in front. */
    method CutBefore(betterchunk: MemChunk, at: nat, begAddr: nat, prev: MemChunk) returns (pos: nat)
      requires Linked() && at < |mchunks| && mchunks[at] == betterchunk && prev !in mchunks
      requires betterchunk.paddr <= begAddr <= betterchunk.View().End()
      modifies this`mchunks, this`chunks, betterchunk, prev
      ensures Linked() && pos < |mchunks| && mchunks[pos] == betterchunk
      ensures forall o :: o in mchunks ==> o in old(mchunks) || o == prev
      ensures chunks[..pos] == old(chunks)[..at] + SlackBefore(old(chunks)[at], begAddr)
      ensures chunks[pos + 1..] == old(chunks)[at + 1..]
      ensures chunks[pos].paddr == begAddr && chunks[pos].End() == old(chunks)[at].End()
    {
      pos := at;
      if betterchunk.paddr < begAddr {
        prev.counter := 0;
        prev.paddr := betterchunk.paddr;
        prev.size := begAddr - betterchunk.paddr;
        betterchunk.paddr := begAddr;
        betterchunk.size := betterchunk.size - prev.size;
        chunks := chunks[at := betterchunk.View()];
        LinkAt(at, prev);
        pos := pos + 1;
      }
    }

    /** Slack after the block becomes a chunk of its own, linked behind. */
    method CutAfter(betterchunk: MemChunk, pos: nat, size: nat, endAddr: nat, next: MemChunk)
      requires Linked() && pos < |mchunks| && mchunks[pos] == betterchunk && next !in mchunks
      requires endAddr == betterchunk.paddr + size <= betterchunk.View().End()
      modifies this`mchunks, this`chunks, betterchunk, next
      ensures Linked() && pos < |mchunks| && mchunks[pos] == betterchunk
      ensures forall o :: o in mchunks ==> o in old(mchunks) || o == next
      ensures chunks[..pos] == old(chunks)[..pos]
      ensures chunks[pos + 1..] == SlackAfter(endAddr, old(chunks)[pos].End()) + old(chunks)[pos + 1..]
      ensures chunks[pos].paddr == old(chunks)[pos].paddr && chunks[pos].size == size
    {
      if betterchunk.paddr + betterchunk.size > endAddr {
        next.counter := 0;
        next.paddr := endAddr;
        next.size := betterchunk.size - size;
        betterchunk.size := size;
        chunks := chunks[pos := betterchunk.View()];
        LinkAt(pos + 1, next);
      }
    }

    /** The search by address that free and incref begin with. */
    method FindChunk(addr: nat) returns (k: nat)
      requires Linked()
      ensures k == Find(chunks, addr)
    {
      k := 0;
      while k < |mchunks|
        invariant 0 <= k <= |mchunks|
        invariant forall j :: 0 <= j < k ==> chunks[j].paddr != addr
      {
        if mchunks[k].paddr == addr { return; }
        k := k + 1;
      }
    }

    method SetCounter(k: nat, counter: nat)
      requires Linked() && k < |mchunks|
      modifies this`chunks, mchunks[k]
      ensures Linked() && chunks == old(chunks)[k := old(chunks)[k].(counter := counter)]
      ensures mchunks[k].counter == counter && mchunks[k].size == old(mchunks[k].size)
    {
      mchunks[k].counter := counter;
      chunks := chunks[k := mchunks[k].View()];
    }

    method SetSize(k: nat, size: nat)
      requires Linked() && k < |mchunks|
      modifies this`chunks, mchunks[k]
      ensures Linked() && chunks == old(chunks)[k := old(chunks)[k].(size := size)]
    {
      mchunks[k].size := size;
      chunks := chunks[k := mchunks[k].View()];
    }

    /** tee_shm_pool_free: 0 when the block is gone, 1 when references remain, -EINVAL otherwise.
        A block found already free returns with the pool mutex still held. */
    method Free(addr: nat) returns (ret: int, blockSize: nat)
      requires Valid() && !locked
      modifies this, mchunks
      ensures View() == ShmPoolOps.Free(old(View()), addr).0 && Linked()
      ensures Reported(ShmPoolOps.Free(old(View()), addr).1, ret, blockSize, locked)
    {
      locked := true;
      ret, blockSize := -EINVAL, 0;
      var k := |mchunks|;
      if paddr <= addr < paddr + size { k := FindChunk(addr); }
      if k == |mchunks| {
        locked := false;
        return;
      }
      UsedCovers(View(), k);
      ret, blockSize := Drop(k);
    }

    /** The return code, the size stored and the mutex for each outcome. */
    static predicate Reported(o: FreeOutcome, ret: int, blockSize: nat, locked: bool)
    {
      match o
      case NotFound => ret == -EINVAL && !locked
      case AlreadyFree(n) => ret == -EINVAL && blockSize == n && locked
      case Decremented(n) => ret == 1 && blockSize == n && !locked
      case Released(n) => ret == 0 && blockSize == n && !locked
    }

    /** One reference off chunk k, under the mutex. */
    method Drop(k: nat) returns (ret: int, blockSize: nat)
      requires Linked() && k < |mchunks| && locked
      requires chunks[k].counter == 1 ==> chunks[k].size <= used
      modifies this`mchunks, this`chunks, this`used, this`locked, mchunks
      ensures Linked() && View() == ShmPoolOps.Drop(old(View()), k).0
      ensures Reported(ShmPoolOps.Drop(old(View()), k).1, ret, blockSize, locked)
    {
      blockSize := mchunks[k].size;
      if mchunks[k].counter == 0 { return -EINVAL, blockSize; }
      SetCounter(k, mchunks[k].counter - 1);
      if mchunks[k].counter == 0 {
        used := used - mchunks[k].size;
        Merge(k);
        ret := 0;
      } else {
        ret := 1;
      }
      locked := false;
    }

    /** Both merges of a chunk that is free now. */
    method Merge(k: nat)
      requires Linked() && k < |mchunks|
      modifies this`mchunks, this`chunks, mchunks
      ensures Linked() && chunks == (var (joined, at) := JoinPrev(old(chunks), k); JoinNext(joined, at))
    {
      var at := MergePrev(k);
      MergeNext(at);
    }

    method MergePrev(at: nat) returns (k: nat)
      requires Linked() && at < |mchunks|
      modifies this`mchunks, this`chunks, if at > 0 then {mchunks[at - 1]} else {}
      ensures Linked() && (chunks, k) == JoinPrev(old(chunks), at)
      ensures k < |mchunks| && mchunks[k] in old(mchunks)
    {
      k := at;
      if at > 0 && mchunks[at - 1].counter == 0 {
        k := at - 1;
        Absorb(k);
      }
    }

    method MergeNext(k: nat)
      requires Linked() && k < |mchunks|
      modifies this`mchunks, this`chunks, mchunks[k]
      ensures Linked() && chunks == JoinNext(old(chunks), k)
    {
      if k + 1 < |mchunks| && mchunks[k + 1].counter == 0 { Absorb(k); }
    }

    /** Element k takes over the memory of the next one, which is unlinked. */
    method Absorb(k: nat)
      requires Linked() && k + 1 < |mchunks|
      modifies this`mchunks, this`chunks, mchunks[k]
      ensures Linked() && |mchunks| == |old(mchunks)| - 1 && mchunks[k] == old(mchunks)[k]
      ensures var cs := old(chunks);
        chunks == cs[..k] + [cs[k].(size := cs[k].size + cs[k + 1].size)] + cs[k + 2..]
    {
      CutBehind(chunks, k, chunks[k].(size := chunks[k].size + chunks[k + 1].size));
      SetSize(k, mchunks[k].size + mchunks[k + 1].size);
      UnlinkAt(k + 1);
    }

    /** list_del of element `at`. */
    method UnlinkAt(at: nat)
      requires Linked() && at < |mchunks|
      modifies this`mchunks, this`chunks
      ensures mchunks == old(mchunks)[..at] + old(mchunks)[at + 1..]
      ensures chunks == old(chunks)[..at] + old(chunks)[at + 1..]
      ensures Linked()
    {
      mchunks := mchunks[..at] + mchunks[at + 1..];
      chunks := chunks[..at] + chunks[at + 1..];
    }

    /** tee_shm_pool_incref. */
    method Incref(addr: nat) returns (ok: bool)
      requires Valid() && !locked
      modifies this, mchunks
      ensures (View(), ok) == ShmPoolOps.Incref(old(View()), addr) && Linked() && !locked
    {
      locked := true;
      ok := false;
      if paddr <= addr < paddr + size { ok := Count(addr); }
      locked := false;
    }

    method Count(addr: nat) returns (ok: bool)
      requires Linked() && InPool(View(), addr)
      modifies this`chunks, mchunks
      ensures (View(), ok) == ShmPoolOps.Incref(old(View()), addr) && Linked()
    {
      var k := FindChunk(addr);
      if k == |mchunks| { return false; }
      SetCounter(k, (mchunks[k].counter + 1) % COUNTER_WRAP);
      return true;
    }
  }
}
