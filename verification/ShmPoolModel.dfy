/** The shared-memory pool of tee_mem.c as values: its chunk list, one function for
    each operation on it, and what every run of those operations keeps. */
module ShmPoolModel {
  import opened Alignment

  /** The reference counter is a uint32_t. */
  const COUNTER_WRAP: nat := 0x1_0000_0000
  const GRAIN: nat := 0x20
  const EINVAL: int := 22

  datatype Chunk = Chunk(paddr: nat, size: nat, counter: nat)
  {
    predicate Free() { counter == 0 }
    function End(): nat { paddr + size }
  }

  datatype Block = Block(size: nat, counter: nat)

  datatype Pool = Pool(base: nat, size: nat, used: nat, chunks: seq<Chunk>)

  // ---------------------------------------------------------------- the chunk list

  /** The chunks follow one another without a gap from `lo`, and none is empty. */
  ghost predicate Tiles(cs: seq<Chunk>, lo: nat)
  {
    cs == [] || (cs[0].paddr == lo && cs[0].size > 0 && Tiles(cs[1..], cs[0].End()))
  }

  function Bytes(cs: seq<Chunk>): nat
  {
    if cs == [] then 0 else cs[0].size + Bytes(cs[1..])
  }

  function LiveBytes(cs: seq<Chunk>): nat
  {
    if cs == [] then 0 else (if cs[0].Free() then 0 else cs[0].size) + LiveBytes(cs[1..])
  }

  ghost predicate Coalesced(cs: seq<Chunk>)
  {
    forall i :: 0 <= i < |cs| - 1 ==> !(cs[i].Free() && cs[i + 1].Free())
  }

  /** The live blocks: address to size and reference count. */
  function Live(cs: seq<Chunk>): map<nat, Block>
  {
    if cs == [] then map[]
    else if cs[0].Free() then Live(cs[1..])
    else map[cs[0].paddr := Block(cs[0].size, cs[0].counter)] + Live(cs[1..])
  }

  /** What every reachable pool satisfies. */
  ghost predicate Inv(p: Pool)
  {
    && 0 < p.base && 0 < p.size && p.base + p.size <= HALF_WORD
    && Tiles(p.chunks, p.base)
    && Bytes(p.chunks) == p.size
    && Coalesced(p.chunks)
    && p.used == LiveBytes(p.chunks)
    && (forall c :: c in p.chunks ==> c.counter < COUNTER_WRAP)
  }

  function Initial(base: nat, size: nat): Pool
  {
    Pool(base, size, 0, [Chunk(base, size, 0)])
  }

  lemma {:induction false} BytesConcat(a: seq<Chunk>, b: seq<Chunk>)
    ensures Bytes(a + b) == Bytes(a) + Bytes(b)
    ensures LiveBytes(a + b) == LiveBytes(a) + LiveBytes(b)
  {
    if a == [] {
      assert a + b == b;
    } else {
      assert (a + b)[1..] == a[1..] + b;
      BytesConcat(a[1..], b);
    }
  }

  lemma {:induction false} LiveConcat(a: seq<Chunk>, b: seq<Chunk>)
    ensures Live(a + b) == Live(a) + Live(b)
  {
    if a == [] {
      assert a + b == b;
    } else {
      assert (a + b)[1..] == a[1..] + b && (a + b)[0] == a[0];
      LiveConcat(a[1..], b);
    }
  }

  lemma {:induction false} TilesJoin(a: seq<Chunk>, b: seq<Chunk>, lo: nat)
    ensures Tiles(a + b, lo) <==> Tiles(a, lo) && Tiles(b, lo + Bytes(a))
  {
    if a == [] {
      assert a + b == b;
    } else if a[0].paddr == lo {
      assert (a + b)[1..] == a[1..] + b;
      TilesJoin(a[1..], b, a[0].End());
    }
  }

  lemma TilesConcat(a: seq<Chunk>, b: seq<Chunk>, lo: nat)
    ensures Tiles(a + b, lo) <==> Tiles(a, lo) && Tiles(b, lo + Bytes(a))
    ensures Bytes(a + b) == Bytes(a) + Bytes(b)
    ensures LiveBytes(a + b) == LiveBytes(a) + LiveBytes(b)
    ensures Live(a + b) == Live(a) + Live(b)
  {
    TilesJoin(a, b, lo);
    BytesConcat(a, b);
    LiveConcat(a, b);
  }

  /** Three-way split around position i, which every operation edits at. */
  lemma SplitAt(cs: seq<Chunk>, i: nat, lo: nat)
    requires i < |cs| && Tiles(cs, lo)
    ensures cs == cs[..i] + [cs[i]] + cs[i + 1..]
    ensures Tiles(cs[..i], lo) && cs[i].paddr == lo + Bytes(cs[..i]) && cs[i].size > 0
    ensures Tiles(cs[i + 1..], cs[i].End())
    ensures Bytes(cs) == Bytes(cs[..i]) + cs[i].size + Bytes(cs[i + 1..])
    ensures LiveBytes(cs) == LiveBytes(cs[..i]) + LiveBytes([cs[i]]) + LiveBytes(cs[i + 1..])
    ensures Live(cs) == Live(cs[..i]) + Live([cs[i]]) + Live(cs[i + 1..])
  {
    assert cs == cs[..i] + ([cs[i]] + cs[i + 1..]);
    ThreeParts(cs[..i], cs[i], cs[i + 1..], lo);
  }

  lemma ThreeParts(a: seq<Chunk>, c: Chunk, b: seq<Chunk>, lo: nat)
    requires Tiles(a + ([c] + b), lo)
    ensures Tiles(a, lo) && c.paddr == lo + Bytes(a) && c.size > 0 && Tiles(b, c.End())
    ensures Bytes(a + ([c] + b)) == Bytes(a) + c.size + Bytes(b)
    ensures LiveBytes(a + ([c] + b)) == LiveBytes(a) + LiveBytes([c]) + LiveBytes(b)
    ensures Live(a + ([c] + b)) == Live(a) + Live([c]) + Live(b)
  {
    TilesConcat(a, [c] + b, lo);
    TilesConcat([c], b, lo + Bytes(a));
    assert Bytes([c]) == c.size;
    LiveRegroups(Live(a), Live([c]), Live(b));
  }

  lemma LiveRegroups(x: map<nat, Block>, y: map<nat, Block>, z: map<nat, Block>)
    ensures x + (y + z) == x + y + z
  {
  }

  /** Every live address lies inside the tiled range. */
  lemma {:induction false} LiveRange(cs: seq<Chunk>, lo: nat)
    requires Tiles(cs, lo)
    ensures forall a :: a in Live(cs) ==> lo <= a && a + Live(cs)[a].size <= lo + Bytes(cs) && Live(cs)[a].size > 0
  {
    if cs != [] { LiveRange(cs[1..], cs[0].End()); }
  }

  lemma {:induction false} LiveBytesBound(cs: seq<Chunk>)
    ensures LiveBytes(cs) <= Bytes(cs)
  {
    if cs != [] { LiveBytesBound(cs[1..]); }
  }

  /** A chunk is in the list as a live chunk exactly when the map says so. */
  lemma LiveAt(cs: seq<Chunk>, i: nat, lo: nat)
    requires i < |cs| && Tiles(cs, lo)
    ensures cs[i].paddr in Live(cs) <==> !cs[i].Free()
    ensures !cs[i].Free() ==> Live(cs)[cs[i].paddr] == Block(cs[i].size, cs[i].counter)
  {
    SplitAt(cs, i, lo);
    NotInside(cs[..i], lo, cs[i].paddr);
    NotInside(cs[i + 1..], cs[i].End(), cs[i].paddr);
    OneLive(cs[i]);
  }

  lemma NotInside(cs: seq<Chunk>, lo: nat, a: nat)
    requires Tiles(cs, lo) && (a < lo || lo + Bytes(cs) <= a)
    ensures a !in Live(cs)
  {
    LiveRange(cs, lo);
  }

  lemma OneLive(c: Chunk)
    ensures Live([c]) == if c.Free() then map[] else map[c.paddr := Block(c.size, c.counter)]
  {
  }

  lemma {:induction false} LiveHasChunk(cs: seq<Chunk>, a: nat)
    requires a in Live(cs)
    ensures exists i :: 0 <= i < |cs| && cs[i].paddr == a && !cs[i].Free()
  {
    if !cs[0].Free() && cs[0].paddr == a {
    } else {
      LiveHasChunk(cs[1..], a);
      var i :| 0 <= i < |cs[1..]| && cs[1..][i].paddr == a && !cs[1..][i].Free();
      assert cs[i + 1].paddr == a && !cs[i + 1].Free();
    }
  }

  // ---------------------------------------------------------------- canonical form

  /** The chunk list is determined by the live blocks: tiling plus coalescing leave no choice. */
  lemma {:induction false} CanonicalChunks(a: seq<Chunk>, b: seq<Chunk>, lo: nat)
    requires Tiles(a, lo) && Tiles(b, lo) && Bytes(a) == Bytes(b)
    requires Coalesced(a) && Coalesced(b)
    requires Live(a) == Live(b)
    ensures a == b
  {
    if a == [] || b == [] {
    } else {
      LiveRange(a[1..], a[0].End());
      LiveRange(b[1..], b[0].End());
      LiveAt(a, 0, lo);
      LiveAt(b, 0, lo);
      if a[0].Free() {
        if a[0].size < b[0].size { LiveAt(a, 1, lo); assert false; }
        if b[0].size < a[0].size { LiveAt(b, 1, lo); assert false; }
      } else {
        assert Live(a[1..]) == Live(a) - {lo};
        assert Live(b[1..]) == Live(b) - {lo};
      }
      assert a[0] == b[0];
      forall i | 0 <= i < |a[1..]| - 1 ensures !(a[1..][i].Free() && a[1..][i + 1].Free()) {
        assert a[1..][i] == a[i + 1] && a[1..][i + 1] == a[i + 2];
      }
      forall i | 0 <= i < |b[1..]| - 1 ensures !(b[1..][i].Free() && b[1..][i + 1].Free()) {
        assert b[1..][i] == b[i + 1] && b[1..][i + 1] == b[i + 2];
      }
      CanonicalChunks(a[1..], b[1..], a[0].End());
      assert a == [a[0]] + a[1..] && b == [b[0]] + b[1..];
    }
  }

  /** Two pools over the same region with the same live blocks are the same pool. */
  lemma Canonical(p: Pool, q: Pool)
    requires Inv(p) && Inv(q) && p.base == q.base && p.size == q.size
    requires Live(p.chunks) == Live(q.chunks)
    ensures p == q
  {
    CanonicalChunks(p.chunks, q.chunks, p.base);
  }
}
