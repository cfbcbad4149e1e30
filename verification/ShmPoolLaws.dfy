/** Runs of the pool: which calls keep it well formed and open, and why its chunk list has no history. */
module ShmPoolLaws {
  import opened ShmPoolModel
  import opened Alignment
  import opened ShmPoolOps

  datatype Op =
    | DoAlloc(size: nat, alignment: nat, descriptors: bool)
    | DoIncref(paddr: nat)
    | DoFree(paddr: nat)
    | DoReset

  /** A pool between calls, and whether its mutex was left locked. */
  datatype State = State(pool: Pool, locked: bool)

  /** Well formed, and the next call can enter. */
  ghost predicate Sound(s: State) { Inv(s.pool) && !s.locked }

  datatype Option<T> = None | Some(value: T)

  /** A request larger than what is free is turned down before the mutex is taken. */
  predicate TakesMutex(p: Pool, op: Op)
  {
    op.DoAlloc? ==> RoundUp(op.size, GRAIN) + p.used <= p.size
  }

  /** What a call does once it is in; the free of a block that is free already does not unlock. */
  function Entered(p: Pool, op: Op): State
    requires Inv(p)
  {
    match op
    case DoAlloc(size, alignment, descriptors) => State(Alloc(p, size, alignment, descriptors).0, false)
    case DoIncref(paddr) => State(Incref(p, paddr).0, false)
    case DoFree(paddr) => var (q, o) := Free(p, paddr); State(q, o.AlreadyFree?)
    case DoReset => State(Initial(p.base, p.size), false)
  }

  /** One call; None is a call that never returns. */
  function Step(s: State, op: Op): Option<State>
    requires Inv(s.pool)
  {
    if !s.locked then Some(Entered(s.pool, op))
    else if TakesMutex(s.pool, op) then None
    else Some(s)
  }

  /** The address is that of a free chunk. */
  predicate NamesFree(p: Pool, paddr: nat)
  {
    var i := Find(p.chunks, paddr);
    InPool(p, paddr) && i < |p.chunks| && p.chunks[i].Free()
  }

  /** The calls that leave the pool well formed and open, as a caller can tell them beforehand. */
  predicate Disciplined(p: Pool, op: Op)
  {
    match op
    case DoAlloc(size, alignment, descriptors) =>
      size > 0 || !descriptors || forall i :: 0 <= i < |p.chunks| ==>
        !Fits(p.chunks[i], 0, EffectiveAlignment(alignment))
    case DoIncref(paddr) =>
      var i := Find(p.chunks, paddr);
      i < |p.chunks| ==> 0 < p.chunks[i].counter < COUNTER_WRAP - 1
    case DoFree(paddr) => !NamesFree(p, paddr)
    case DoReset => true
  }

  // ---------------------------------------------------------------- single steps

  lemma {:induction false} TilesOrdered(cs: seq<Chunk>, lo: nat, i: nat, j: nat)
    requires Tiles(cs, lo) && i < j < |cs|
    ensures cs[i].End() <= cs[j].paddr && cs[i].size > 0
  {
    SplitAt(cs, j, lo);
    assert cs[..j][i] == cs[i];
    SplitAt(cs[..j], i, lo);
  }

  lemma FindLive(p: Pool, a: nat)
    requires Inv(p)
    ensures var i := Find(p.chunks, a);
      && (a in Live(p.chunks) <==> i < |p.chunks| && !p.chunks[i].Free())
      && (i < |p.chunks| ==> InPool(p, a))
      && (a in Live(p.chunks) ==> Live(p.chunks)[a] == Block(p.chunks[i].size, p.chunks[i].counter))
  {
    var i := Find(p.chunks, a);
    if a in Live(p.chunks) {
      LiveHasChunk(p.chunks, a);
      var j :| 0 <= j < |p.chunks| && p.chunks[j].paddr == a && !p.chunks[j].Free();
      if i < j { TilesOrdered(p.chunks, p.base, i, j); }
    }
    if i < |p.chunks| {
      LiveAt(p.chunks, i, p.base);
      SplitAt(p.chunks, i, p.base);
    }
  }

  lemma InitialInv(base: nat, size: nat)
    requires 0 < base && 0 < size && base + size <= HALF_WORD
    ensures Inv(Initial(base, size)) && Live(Initial(base, size).chunks) == map[]
  {
  }

  function LiveAfterFree(m: map<nat, Block>, a: nat): map<nat, Block>
  {
    if a !in m then m
    else if m[a].counter > 1 then m[a := m[a].(counter := m[a].counter - 1)]
    else m - {a}
  }

  /** tee_shm_pool_free is always safe for the list, and takes one reference off one block. */
  lemma FreeKeeps(p: Pool, a: nat)
    requires Inv(p)
    ensures var q := Free(p, a).0;
      && Inv(q) && q.base == p.base && q.size == p.size
      && Live(q.chunks) == LiveAfterFree(Live(p.chunks), a)
    ensures Free(p, a).1.Released? || Free(p, a).1.Decremented? <==> a in Live(p.chunks)
    ensures Free(p, a).1.AlreadyFree? <==> NamesFree(p, a)
  {
    FindLive(p, a);
    var i := Find(p.chunks, a);
    if a in Live(p.chunks) {
      var c := p.chunks[i];
      if c.counter > 1 {
        assert c in p.chunks;
        Recount(p, i, c.counter - 1);
      } else {
        ReleaseKeeps(p, i);
      }
    }
  }

  /** A counted reference on a live block, and nothing else, is what incref adds. */
  lemma IncrefKeeps(p: Pool, a: nat)
    requires Inv(p) && Disciplined(p, DoIncref(a))
    ensures var (q, ok) := Incref(p, a);
      && Inv(q) && q.base == p.base && q.size == p.size && ok == (a in Live(p.chunks))
      && (ok ==> Live(q.chunks) == Live(p.chunks)[a := Live(p.chunks)[a].(counter := Live(p.chunks)[a].counter + 1)])
      && (!ok ==> q == p)
  {
    FindLive(p, a);
    var i := Find(p.chunks, a);
    if i < |p.chunks| { Recount(p, i, p.chunks[i].counter + 1); }
  }

  lemma {:induction false} TilesPositive(cs: seq<Chunk>, lo: nat, c: Chunk)
    requires Tiles(cs, lo) && c in cs
    ensures c.size > 0
  {
    if c != cs[0] { TilesPositive(cs[1..], cs[0].End(), c); }
  }

  lemma LiveBytesUpdate(cs: seq<Chunk>, i: nat, d: Chunk)
    requires i < |cs|
    ensures LiveBytes(cs[i := d]) == LiveBytes(cs) - LiveBytes([cs[i]]) + LiveBytes([d])
  {
    assert cs[i := d] == cs[..i] + [d] + cs[i + 1..];
    assert cs == cs[..i] + [cs[i]] + cs[i + 1..];
    Concat3(cs[..i], [d], cs[i + 1..], 0);
    Concat3(cs[..i], [cs[i]], cs[i + 1..], 0);
  }

  /** Counting references on a free chunk, or past the last uint32_t value, loses track of `used`. */
  lemma IncrefBreaks(p: Pool, a: nat)
    requires Inv(p) && !Disciplined(p, DoIncref(a))
    ensures !Inv(Incref(p, a).0)
  {
    FindLive(p, a);
    var i := Find(p.chunks, a);
    var c := p.chunks[i];
    assert c in p.chunks;
    TilesPositive(p.chunks, p.base, c);
    var d := c.(counter := (c.counter + 1) % COUNTER_WRAP);
    assert c.Free() != d.Free();
    LiveBytesUpdate(p.chunks, i, d);
    assert LiveBytes([d]) != LiveBytes([c]);
  }

  lemma ZeroSizeBreaks(p: Pool, alignment: nat)
    requires Inv(p) && Alloc(p, 0, alignment, true).1 != 0
    ensures !Inv(Alloc(p, 0, alignment, true).0)
  {
    assert RoundUp(0, GRAIN) == 0 by { ModSelf(GRAIN); RoundUpFixed(0, GRAIN); }
    var (q, r) := Alloc(p, 0, alignment, true);
    if Inv(q) {
      assert Chunk(r, 0, 1) in q.chunks;
      TilesPositive(q.chunks, q.base, Chunk(r, 0, 1));
    }
  }

  /** What is carved off a chunk of the pool starts above 0. */
  lemma PlacedAboveZero(p: Pool, i: nat, align: nat)
    requires Inv(p) && i < |p.chunks| && align > 0
    ensures RoundUp(p.chunks[i].paddr, align) > 0
  {
    SplitAt(p.chunks, i, p.base);
  }

  /** 0 is returned only when nothing was changed. */
  lemma AllocFails(p: Pool, size: nat, alignment: nat, descriptors: bool)
    requires Inv(p)
    ensures Alloc(p, size, alignment, descriptors).1 == 0 ==> Alloc(p, size, alignment, descriptors).0 == p
  {
    var i := BestFit(p.chunks, |p.chunks|, RoundUp(size, GRAIN), EffectiveAlignment(alignment));
    if i >= 0 { PlacedAboveZero(p, i, EffectiveAlignment(alignment)); }
  }

  /** An allocation of something keeps the pool well formed, whether it succeeds or not. */
  lemma AllocKeeps(p: Pool, size: nat, alignment: nat, descriptors: bool)
    requires Inv(p) && size > 0
    ensures var q := Alloc(p, size, alignment, descriptors).0; Inv(q) && q.base == p.base && q.size == p.size
  {
    if Alloc(p, size, alignment, descriptors).1 == 0 {
      AllocFails(p, size, alignment, descriptors);
    } else {
      AllocSucceeds(p, size, alignment);
    }
  }

  /** An allocation of nothing succeeds exactly when descriptors are at hand and some free chunk
      holds an aligned address. */
  lemma ZeroSizeSucceedsIff(p: Pool, alignment: nat, descriptors: bool)
    requires Inv(p)
    ensures Alloc(p, 0, alignment, descriptors).1 == 0 <==> Disciplined(p, DoAlloc(0, alignment, descriptors))
  {
    var a := EffectiveAlignment(alignment);
    ZeroRoundsToZero(GRAIN);
    LiveBytesBound(p.chunks);
    BestFitIsBest(p.chunks, |p.chunks|, 0, a);
    var i := BestFit(p.chunks, |p.chunks|, 0, a);
    if i >= 0 { PlacedAboveZero(p, i, a); }
  }

  lemma ZeroRoundsToZero(a: nat)
    requires a > 0
    ensures RoundUp(0, a) == 0
  {
  }

  lemma AllocKeepsIff(p: Pool, size: nat, alignment: nat, descriptors: bool)
    requires Inv(p)
    ensures var q := Alloc(p, size, alignment, descriptors).0;
      (Inv(q) <==> Disciplined(p, DoAlloc(size, alignment, descriptors))) && q.base == p.base && q.size == p.size
  {
    if size > 0 {
      AllocKeeps(p, size, alignment, descriptors);
    } else {
      ZeroSizeSucceedsIff(p, alignment, descriptors);
      AllocFails(p, 0, alignment, descriptors);
      if Alloc(p, 0, alignment, descriptors).1 != 0 { ZeroSizeBreaks(p, alignment); }
    }
  }

  /** Exactly the disciplined calls leave a sound pool sound. */
  lemma StepKeepsIff(s: State, op: Op)
    requires Sound(s)
    ensures Step(s, op).Some?
    ensures var t := Step(s, op).value;
      (Sound(t) <==> Disciplined(s.pool, op)) && t.pool.base == s.pool.base && t.pool.size == s.pool.size
  {
    match op
    case DoAlloc(size, alignment, descriptors) => AllocKeepsIff(s.pool, size, alignment, descriptors);
    case DoIncref(a) => if Disciplined(s.pool, op) { IncrefKeeps(s.pool, a); } else { IncrefBreaks(s.pool, a); }
    case DoFree(a) => FreeKeeps(s.pool, a);
    case DoReset => InitialInv(s.pool.base, s.pool.size);
  }

  // ---------------------------------------------------------------- the mutex

  /** What a free reports, and the size it stores: that of the chunk that starts at the address. */
  lemma FreeReports(p: Pool, a: nat, i: nat)
    requires Inv(p)
    ensures Free(p, a).1 == NotFound <==> forall j :: 0 <= j < |p.chunks| ==> p.chunks[j].paddr != a
    ensures i < |p.chunks| && p.chunks[i].paddr == a ==>
      var c := p.chunks[i];
      Free(p, a).1 ==
      if c.counter == 0 then AlreadyFree(c.size) else if c.counter == 1 then Released(c.size) else Decremented(c.size)
  {
    FindLive(p, a);
    var k := Find(p.chunks, a);
    if i < |p.chunks| && p.chunks[i].paddr == a && k != i { StartsElsewhere(p.chunks, p.base, i, k); }
  }

  function LiveAfter(m: map<nat, Block>, op: Op, r: nat): map<nat, Block>
  {
    match op
    case DoAlloc(size, _, _) => if r == 0 then m else m[r := Block(RoundUp(size, GRAIN), 1)]
    case DoIncref(a) => if a in m then m[a := m[a].(counter := m[a].counter + 1)] else m
    case DoFree(a) => LiveAfterFree(m, a)
    case DoReset => map[]
  }

  /** What each call does to the live blocks, which are all there is to a pool: by Canonical they
      determine the rest. r is what an allocation returns. */
  lemma StepDoes(s: State, op: Op, r: nat)
    requires Sound(s) && Disciplined(s.pool, op)
    requires op.DoAlloc? ==> r == Alloc(s.pool, op.size, op.alignment, op.descriptors).1
    ensures Step(s, op).Some? && Live(Step(s, op).value.pool.chunks) == LiveAfter(Live(s.pool.chunks), op, r)
  {
    match op
    case DoAlloc(size, alignment, descriptors) =>
      AllocFails(s.pool, size, alignment, descriptors);
      if size == 0 { ZeroSizeSucceedsIff(s.pool, alignment, descriptors); }
      if r != 0 {
        var i := AllocPlaces(s.pool, size, alignment, descriptors);
        AllocSucceeds(s.pool, size, alignment);
      }
    case DoIncref(a) => FindLive(s.pool, a); IncrefKeeps(s.pool, a);
    case DoFree(a) => FreeKeeps(s.pool, a);
    case DoReset => InitialInv(s.pool.base, s.pool.size);
  }

  /** After a free the mutex is open if and only if the address was not that of a free chunk. */
  lemma {:induction false} MutexOpenIff(s: State, a: nat)
    requires Sound(s)
    ensures Step(s, DoFree(a)).Some?
    ensures !Step(s, DoFree(a)).value.locked
      <==> (InPool(s.pool, a) && Find(s.pool.chunks, a) < |s.pool.chunks| ==>
              !s.pool.chunks[Find(s.pool.chunks, a)].Free())
  {
    FreeKeeps(s.pool, a);
  }

  /** Once it is left locked, every call that takes the mutex waits for ever, and the others, too
      large allocations, change nothing. */
  lemma {:induction false} LockedForGood(s: State, a: nat, op: Op)
    requires Sound(s) && NamesFree(s.pool, a)
    ensures Step(s, DoFree(a)) == Some(State(s.pool, true))
    ensures Step(State(s.pool, true), op) == if TakesMutex(s.pool, op) then None else Some(State(s.pool, true))
  {
    FreeKeeps(s.pool, a);
  }

  /** Freeing the start of a new pool locks it: no free ever returns again. */
  lemma {:induction false} FreeOfFreeWitness(a: nat)
    ensures var s := State(Initial(0x1000, 0x1000), false);
      Sound(s) && Step(s, DoFree(0x1000)) == Some(State(s.pool, true)) && Step(State(s.pool, true), DoFree(a)) == None
  {
    var s := State(Initial(0x1000, 0x1000), false);
    InitialInv(0x1000, 0x1000);
    assert s.pool.chunks[0].paddr == 0x1000;
    LockedForGood(s, 0x1000, DoFree(a));
  }

  // ---------------------------------------------------------------- runs

  /** A run all of whose calls are disciplined. */
  ghost predicate Legal(s: State, ops: seq<Op>)
    requires Sound(s)
    decreases |ops|
  {
    ops == [] ||
    (Disciplined(s.pool, ops[0]) && (StepKeepsIff(s, ops[0]); Legal(Step(s, ops[0]).value, ops[1..])))
  }

  function Run(s: State, ops: seq<Op>): State
    requires Sound(s) && Legal(s, ops)
    decreases |ops|
  {
    if ops == [] then s
    else
      StepKeepsIff(s, ops[0]);
      Run(Step(s, ops[0]).value, ops[1..])
  }

  /** Tiling, coalescing, the byte count and the open mutex survive every disciplined run. */
  lemma {:induction false} RunKeeps(s: State, ops: seq<Op>)
    requires Sound(s) && Legal(s, ops)
    ensures Sound(Run(s, ops)) && Run(s, ops).pool.base == s.pool.base && Run(s, ops).pool.size == s.pool.size
    decreases |ops|
  {
    if ops != [] {
      StepKeepsIff(s, ops[0]);
      RunKeeps(Step(s, ops[0]).value, ops[1..]);
    }
  }

  /** The pool carries no history: any two runs that leave the same live blocks, whatever the
      calls and their order, leave the same chunk list and the same byte count. */
  lemma RunsConfluent(s: State, left: seq<Op>, right: seq<Op>)
    requires Sound(s) && Legal(s, left) && Legal(s, right)
    requires Live(Run(s, left).pool.chunks) == Live(Run(s, right).pool.chunks)
    ensures Run(s, left) == Run(s, right)
  {
    RunKeeps(s, left);
    RunKeeps(s, right);
    Canonical(Run(s, left).pool, Run(s, right).pool);
  }

  /** Freeing a block just allocated restores the pool it was carved from. */
  lemma FreeUndoesAlloc(p: Pool, size: nat, alignment: nat)
    requires Inv(p) && size > 0
    ensures var (q, r) := Alloc(p, size, alignment, true);
      r != 0 ==> Inv(q) && Free(q, r) == (p, Released(RoundUp(size, GRAIN)))
  {
    var (q, r) := Alloc(p, size, alignment, true);
    if r != 0 {
      AllocSucceeds(p, size, alignment);
      FindLive(q, r);
      FreeKeeps(q, r);
      assert Live(Free(q, r).0.chunks) == Live(p.chunks);
      Canonical(Free(q, r).0, p);
    }
  }

  lemma CountUncount(m: map<nat, Block>, a: nat)
    requires a in m && m[a].counter > 0
    ensures LiveAfterFree(m[a := m[a].(counter := m[a].counter + 1)], a) == m
  {
  }

  /** Taking a reference and dropping it is no change. */
  lemma FreeUndoesIncref(p: Pool, a: nat)
    requires Inv(p) && a in Live(p.chunks) && Live(p.chunks)[a].counter < COUNTER_WRAP - 1
    ensures Inv(Incref(p, a).0) && Free(Incref(p, a).0, a).0 == p
  {
    assert Disciplined(p, DoIncref(a)) && Live(p.chunks)[a].counter > 0 by { FindLive(p, a); }
    IncrefKeeps(p, a);
    CountUncount(Live(p.chunks), a);
    var q := Incref(p, a).0;
    FreeKeeps(q, a);
    Canonical(Free(q, a).0, p);
  }

  lemma LiveAfterFreeCommutes(m: map<nat, Block>, a: nat, b: nat)
    ensures LiveAfterFree(LiveAfterFree(m, a), b) == LiveAfterFree(LiveAfterFree(m, b), a)
  {
  }

  /** One free after another; None if one of them never returns. */
  function FreeBoth(s: State, a: nat, b: nat): Option<State>
    requires Inv(s.pool)
  {
    match Step(s, DoFree(a))
    case None => None
    case Some(t) => FreeKeeps(s.pool, a); Step(t, DoFree(b))
  }

  /** A free chunk is found at its address. */
  lemma FreeStart(p: Pool, k: nat)
    requires Inv(p) && k < |p.chunks| && p.chunks[k].Free()
    ensures NamesFree(p, p.chunks[k].paddr)
  {
    var i := Find(p.chunks, p.chunks[k].paddr);
    if i < k { TilesOrdered(p.chunks, p.base, i, k); }
    SplitAt(p.chunks, k, p.base);
  }

  /** The free of one address makes a free chunk start at no other. */
  lemma NoNewFreeStart(p: Pool, a: nat, b: nat)
    requires Inv(p) && a != b && !NamesFree(p, b)
    ensures !NamesFree(Free(p, a).0, b)
  {
    var i := Find(p.chunks, a);
    var q := Free(p, a).0;
    var j := Find(q.chunks, b);
    if InPool(p, a) && i < |p.chunks| && j < |q.chunks| && q.chunks[j].Free() {
      if p.chunks[i].counter == 1 {
        ReleaseIsMerge(p.chunks, i);
        MergedStart(p, i, j);
      } else {
        FreeStart(p, j);
      }
    }
  }

  /** After a release a free chunk starts where one did before, or at the block released. */
  lemma MergedStart(p: Pool, i: nat, j: nat)
    requires Inv(p) && i < |p.chunks| && j < |Release(p.chunks, i)| && Release(p.chunks, i)[j].Free()
    ensures var b := Release(p.chunks, i)[j].paddr; b == p.chunks[i].paddr || NamesFree(p, b)
  {
    var cs := p.chunks;
    var m, n := MergeFrom(cs, i), MergeTo(cs, i);
    ReleaseIsMerge(cs, i);
    if j == m {
      if m < i { FreeStart(p, m); }
    } else {
      FreeStart(p, if j < m then j else j - 1 - m + n);
    }
  }

  /** Two frees of different addresses both return and leave the mutex open, in either order, if and
      only if neither address is that of a free chunk; then their order makes no difference. */
  lemma FreesCommute(s: State, a: nat, b: nat)
    requires Sound(s) && a != b
    ensures var ab, ba := FreeBoth(s, a, b), FreeBoth(s, b, a); (
      && (ab.Some? && !ab.value.locked && ba.Some? && !ba.value.locked
        <==> !NamesFree(s.pool, a) && !NamesFree(s.pool, b))
      && (!NamesFree(s.pool, a) && !NamesFree(s.pool, b) ==> ab == ba && Sound(ab.value)))
  {
    FreeKeeps(s.pool, a);
    FreeKeeps(s.pool, b);
    var pa, pb := Free(s.pool, a).0, Free(s.pool, b).0;
    FreeKeeps(pa, b);
    FreeKeeps(pb, a);
    if !NamesFree(s.pool, a) && !NamesFree(s.pool, b) {
      NoNewFreeStart(s.pool, a, b);
      NoNewFreeStart(s.pool, b, a);
      LiveAfterFreeCommutes(Live(s.pool.chunks), a, b);
      Canonical(Free(pa, b).0, Free(pb, a).0);
    }
  }

  /** A block that was merged into the chunk before it does not start a chunk any more. */
  lemma MergedAway(cs: seq<Chunk>, lo: nat, i: nat, m: nat, n: nat, c: Chunk)
    requires Tiles(cs, lo) && m < i < n <= |cs| && c.paddr == cs[m].paddr
    ensures var after := cs[..m] + [c] + cs[n..]; Find(after, cs[i].paddr) == |after|
  {
    var after := cs[..m] + [c] + cs[n..];
    var j := Find(after, cs[i].paddr);
    if j < |after| {
      if j < m { StartsElsewhere(cs, lo, i, j); }
      else if j == m { StartsElsewhere(cs, lo, i, m); }
      else { StartsElsewhere(cs, lo, i, j - 1 - m + n); }
    }
  }

  /** After the last reference to the chunk i is dropped its address is that of a free chunk, unless
      it was merged into the one before. */
  lemma ReleasedStart(p: Pool, i: nat)
    requires Inv(p) && i < |p.chunks| && p.chunks[i].counter == 1
    requires p.chunks[i].size <= p.used && Inv(p.(chunks := Release(p.chunks, i), used := p.used - p.chunks[i].size))
    ensures var q := p.(chunks := Release(p.chunks, i), used := p.used - p.chunks[i].size);
      NamesFree(q, p.chunks[i].paddr) <==> !(i > 0 && p.chunks[i - 1].Free())
  {
    var q := p.(chunks := Release(p.chunks, i), used := p.used - p.chunks[i].size);
    var m, n := MergeFrom(p.chunks, i), MergeTo(p.chunks, i);
    ReleaseIsMerge(p.chunks, i);
    if m == i {
      FreeStart(q, m);
    } else {
      MergedAway(p.chunks, p.base, i, m, n, Chunk(p.chunks[m].paddr, Bytes(p.chunks[m..n]), 0));
    }
  }

  /** A second free of a block whose last reference is gone leaves the mutex open exactly when the
      block was merged into a free chunk before it, so that its address is not found any more. */
  lemma SecondFree(s: State, a: nat)
    requires Sound(s) && a in Live(s.pool.chunks) && Live(s.pool.chunks)[a].counter == 1
    ensures var i := Find(s.pool.chunks, a);
      && i < |s.pool.chunks|
      && FreeBoth(s, a, a).Some?
      && (!FreeBoth(s, a, a).value.locked <==> i > 0 && s.pool.chunks[i - 1].Free())
  {
    FindLive(s.pool, a);
    FreeKeeps(s.pool, a);
    FreeKeeps(Free(s.pool, a).0, a);
    ReleasedStart(s.pool, Find(s.pool.chunks, a));
  }

  lemma StartsElsewhere(cs: seq<Chunk>, lo: nat, i: nat, k: nat)
    requires Tiles(cs, lo) && i < |cs| && k < |cs| && k != i
    ensures cs[k].paddr != cs[i].paddr
  {
    if k < i { TilesOrdered(cs, lo, k, i); } else { TilesOrdered(cs, lo, i, k); }
  }

  function FreeAll(s: State, addresses: seq<nat>): Option<State>
    requires Inv(s.pool)
    decreases |addresses|
  {
    if addresses == [] then Some(s)
    else
      match Step(s, DoFree(addresses[0]))
      case None => None
      case Some(t) => FreeKeeps(s.pool, addresses[0]); FreeAll(t, addresses[1..])
  }

  /** What is live is not free. */
  lemma LiveIsNotFree(p: Pool, a: nat)
    requires Inv(p) && a in Live(p.chunks)
    ensures !NamesFree(p, a)
  {
    FindLive(p, a);
  }

  /** Dropping every outstanding reference, in any order whatever, gives back the pool as created,
      with its mutex open. */
  lemma {:induction false} DrainedPoolIsInitial(p: Pool, addresses: seq<nat>)
    requires Inv(p)
    requires forall a: nat :: multiset(addresses)[a] == if a in Live(p.chunks) then Live(p.chunks)[a].counter else 0
    ensures FreeAll(State(p, false), addresses) == Some(State(Initial(p.base, p.size), false))
    decreases |addresses|
  {
    var m := Live(p.chunks);
    if addresses == [] {
      forall a | a in m ensures false { LivePositive(p, a); }
      InitialInv(p.base, p.size);
      Canonical(p, Initial(p.base, p.size));
    } else {
      var x: nat, rest: seq<nat> := addresses[0], addresses[1..];
      assert addresses == [x] + rest;
      assert multiset(addresses)[x] > 0;
      LiveIsNotFree(p, x);
      FreeKeeps(p, x);
      var q := Free(p, x).0;
      forall a: nat ensures multiset(rest)[a] == if a in Live(q.chunks) then Live(q.chunks)[a].counter else 0 {
        assert multiset(addresses)[a] == multiset(rest)[a] + if a == x then 1 else 0;
        if a in m { LivePositive(p, a); }
      }
      DrainedPoolIsInitial(q, rest);
    }
  }

  lemma LivePositive(p: Pool, a: nat)
    requires Inv(p) && a in Live(p.chunks)
    ensures Live(p.chunks)[a].counter > 0
  {
    FindLive(p, a);
  }

  /** The excluded calls do break a pool: a reference counted on free memory ... */
  lemma {:induction false} IncrefOfFreeWitness()
    ensures var s := State(Initial(0x1000, 0x1000), false); Sound(s) && !Sound(Step(s, DoIncref(0x1000)).value)
  {
    InitialInv(0x1000, 0x1000);
    assert Initial(0x1000, 0x1000).chunks[0].paddr == 0x1000;
    IncrefBreaks(Initial(0x1000, 0x1000), 0x1000);
  }

  /** ... and a block of no bytes, on every fresh pool that holds an aligned address. */
  lemma ZeroSizeOnFreshPool(p: Pool, alignment: nat)
    requires Inv(p) && p == Initial(p.base, p.size)
    requires RoundUp(p.base, EffectiveAlignment(alignment)) <= p.base + p.size
    ensures !Sound(Step(State(p, false), DoAlloc(0, alignment, true)).value)
  {
    assert Fits(p.chunks[0], 0, EffectiveAlignment(alignment));
    AllocKeepsIff(p, 0, alignment, true);
  }
}
