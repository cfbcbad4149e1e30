/** sg_alloc_table_from_pages: a list of pages as the shortest list of segments of adjacent pages. */
module PageRuns {

  const PAGE: nat := 0x1000
  const U32: nat := 0x1_0000_0000
  const WORD: nat := 0x1_0000_0000_0000_0000

  /** A scatterlist entry: the frame number of its first page, its bytes, and where they start in it. */
  datatype Segment = Segment(page: nat, length: nat, offset: nat)

  function Min(a: nat, b: nat): nat { if a < b then a else b }

  /** Page k comes right after its predecessor. */
  predicate Follows(p: seq<nat>, k: nat)
    requires 0 < k < |p|
  {
    p[k] == p[k - 1] + 1
  }

  predicate AllFollow(p: seq<nat>, c: nat, e: nat)
    requires e <= |p|
  {
    forall k {:trigger Follows(p, k)} :: c < k < e ==> Follows(p, k)
  }

  /** Where the run of adjacent pages from c on ends. */
  function RunEnd(p: seq<nat>, c: nat): (e: nat)
    requires c < |p|
    ensures c < e <= |p| && AllFollow(p, c, e) && (e < |p| ==> !Follows(p, e))
    decreases |p| - c
  {
    if c + 1 < |p| && Follows(p, c + 1) then RunEnd(p, c + 1) else c + 1
  }

  /** What a run of so many pages takes of a size, from an offset on, and what it leaves. */
  type Take = (nat, nat, nat) -> (nat, nat)

  /** One segment for each run from page c on. */
  function Fill(f: Take, p: seq<nat>, c: nat, size: nat, offset: nat): seq<Segment>
    requires c <= |p|
    decreases |p| - c
  {
    if c == |p| then []
    else
      var e := RunEnd(p, c);
      var (length, left) := f(e - c, size, offset);
      [Segment(p[c], length, offset)] + Fill(f, p, e, left, 0)
  }

  /** The bytes of a run, in numbers that do not wrap. */
  function Chunk(pages: nat, offset: nat): nat { if pages * PAGE < offset then 0 else pages * PAGE - offset }

  function Exact(pages: nat, size: nat, offset: nat): (nat, nat)
  {
    var chunk := Chunk(pages, offset);
    (Min(size, chunk), if size < chunk then 0 else size - chunk)
  }

  /** The segments as they should be. */
  function Segments(p: seq<nat>, c: nat, size: nat, offset: nat): seq<Segment>
    requires c <= |p|
  {
    Fill(Exact, p, c, size, offset)
  }

  /** The bytes begin in the first page and end in the last. */
  predicate Spans(n: nat, size: nat, offset: nat)
  {
    n > 0 && offset < PAGE && (n - 1) * PAGE < offset + size <= n * PAGE
  }

  /** The pages that a segment reaches into. */
  function PagesOf(s: Segment): nat { (s.offset + s.length + PAGE - 1) / PAGE }

  function Adjacent(page: nat, n: nat): seq<nat>
    decreases n
  {
    if n == 0 then [] else [page] + Adjacent(page + 1, n - 1)
  }

  function Expand(s: seq<Segment>): seq<nat>
  {
    if s == [] then [] else Adjacent(s[0].page, PagesOf(s[0])) + Expand(s[1..])
  }

  function Lengths(s: seq<Segment>): nat
  {
    if s == [] then 0 else s[0].length + Lengths(s[1..])
  }

  lemma {:induction false} RunIsAdjacent(p: seq<nat>, c: nat, e: nat)
    requires c <= e <= |p| && AllFollow(p, c, e)
    ensures c < e ==> Adjacent(p[c], e - c) == p[c..e]
    decreases e - c
  {
    if c + 1 < e {
      assert Follows(p, c + 1);
      RunIsAdjacent(p, c + 1, e);
      assert p[c..e] == [p[c]] + p[c + 1..e];
    }
  }

  lemma SpanSplits(n: nat, e: nat, size: nat, offset: nat)
    requires Spans(n, size, offset) && 0 < e <= n
    ensures var chunk := e * PAGE - offset;
      && (e < n ==> size > chunk && Spans(n - e, size - chunk, 0))
      && (e == n ==> size <= chunk)
  {
  }

  lemma SpanCovers(n: nat, e: nat, size: nat, offset: nat)
    requires Spans(n, size, offset) && 0 < e <= n
    ensures (offset + Min(size, e * PAGE - offset) + PAGE - 1) / PAGE == e
  {
  }

  /** The segments from c on: the first one, which has the pages of its run, and the others. */
  lemma Unfold(p: seq<nat>, c: nat, size: nat, offset: nat) returns (e: nat, first: Segment, left: nat)
    requires c < |p| && Spans(|p| - c, size, offset)
    ensures e == RunEnd(p, c) && first.page == p[c] && PagesOf(first) == e - c && first.length + left == size
    ensures Segments(p, c, size, offset) == [first] + Segments(p, e, left, 0)
    ensures if e < |p| then Spans(|p| - e, left, 0) else left == 0
  {
    e := RunEnd(p, c);
    SpanSplits(|p| - c, e - c, size, offset);
    SpanCovers(|p| - c, e - c, size, offset);
    first := Segment(p[c], Exact(e - c, size, offset).0, offset);
    left := Exact(e - c, size, offset).1;
  }

  /** The segments name the pages again, one after the other, and nothing else. */
  lemma {:induction false} SegmentsExpand(p: seq<nat>, c: nat, size: nat, offset: nat)
    requires c < |p| && Spans(|p| - c, size, offset)
    ensures Expand(Segments(p, c, size, offset)) == p[c..] && Lengths(Segments(p, c, size, offset)) == size
    decreases |p| - c
  {
    var e, first, left := Unfold(p, c, size, offset);
    RunIsAdjacent(p, c, e);
    if e < |p| {
      SegmentsExpand(p, e, left, 0);
    } else {
      assert Segments(p, e, left, 0) == [];
    }
    ExpandCons(first, Segments(p, e, left, 0));
    assert p[c..] == p[c..e] + p[e..];
  }

  lemma ExpandCons(first: Segment, rest: seq<Segment>)
    ensures Expand([first] + rest) == Adjacent(first.page, PagesOf(first)) + Expand(rest)
    ensures Lengths([first] + rest) == first.length + Lengths(rest)
  {
    assert ([first] + rest)[1..] == rest;
  }

  /** No two neighbours could be one segment. */
  lemma {:induction false} SegmentsMaximal(p: seq<nat>, c: nat, size: nat, offset: nat, i: nat)
    requires c < |p| && Spans(|p| - c, size, offset) && i + 1 < |Segments(p, c, size, offset)|
    ensures var s := Segments(p, c, size, offset); s[i].page + PagesOf(s[i]) != s[i + 1].page
    decreases |p| - c
  {
    var e, first, left := Unfold(p, c, size, offset);
    if e < |p| {
      if i > 0 {
        SegmentsMaximal(p, e, left, 0, i - 1);
      } else {
        var _, second, _ := Unfold(p, e, left, 0);
        RunGrows(p, c, e);
      }
    }
  }

  lemma {:induction false} RunGrows(p: seq<nat>, c: nat, e: nat)
    requires c < e <= |p| && AllFollow(p, c, e)
    ensures p[e - 1] == p[c] + (e - 1 - c)
    decreases e
  {
    if c + 1 < e {
      assert Follows(p, e - 1);
      RunGrows(p, c, e - 1);
    }
  }

  // ---------------------------------------------------------------- the two loops

  /** The first loop from i on: how many pages do not follow their predecessor. */
  function Breaks(p: seq<nat>, i: nat): nat
    requires 0 < i
    decreases |p| - i
  {
    if i >= |p| then 0 else (if Follows(p, i) then 0 else 1) + Breaks(p, i + 1)
  }

  lemma {:induction false} NoBreaks(p: seq<nat>, c: nat, i: nat)
    requires c < |p| && c < i <= RunEnd(p, c)
    ensures Breaks(p, i) == Breaks(p, RunEnd(p, c))
    decreases |p| - i
  {
    if i < RunEnd(p, c) {
      assert Follows(p, i);
      NoBreaks(p, c, i + 1);
    }
  }

  /** There are as many segments as the first loop counts, whatever the bytes. */
  lemma {:induction false} CountsSegments(f: Take, p: seq<nat>, c: nat, size: nat, offset: nat)
    requires c < |p|
    ensures |Fill(f, p, c, size, offset)| == 1 + Breaks(p, c + 1)
    decreases |p| - c
  {
    var e := RunEnd(p, c);
    NoBreaks(p, c, c + 1);
    if e < |p| { CountsSegments(f, p, e, f(e - c, size, offset).1, 0); }
  }

  /** a - b on unsigned long. */
  function Minus(a: nat, b: nat): nat { if a >= b then a - b else if WORD + a >= b then WORD + a - b else 0 }

  /** chunk_size: the pages are counted and shifted in 32 bits, the rest is done in 64. */
  function ChunkSize(pages: nat, offset: nat): nat { Minus(pages * PAGE % U32, offset) }

  /** One turn of the second loop; the length is an unsigned int. */
  function Machine(pages: nat, size: nat, offset: nat): (nat, nat)
  {
    (Min(size, ChunkSize(pages, offset)) % U32, Minus(size, ChunkSize(pages, offset)))
  }

  /** What the second loop writes from page c on. */
  function Table(p: seq<nat>, c: nat, size: nat, offset: nat): seq<Segment>
    requires c <= |p|
  {
    Fill(Machine, p, c, size, offset)
  }

  /** Every run is shorter than 4 GiB. */
  ghost predicate ShortRuns(p: seq<nat>, c: nat)
    requires c <= |p|
    decreases |p| - c
  {
    c == |p| || (RunEnd(p, c) - c < U32 / PAGE && ShortRuns(p, RunEnd(p, c)))
  }

  /** 4 GiB in pages. */
  const GIB4: nat := U32 / PAGE

  /** The bytes left in the second loop are those that are left, or more, if these fill the last page. */
  predicate Enough(n: nat, left: nat, size: nat) { left < WORD && (left == size || (left > size && size == n * PAGE)) }

  /** A run that starts a page gets its length if and only if it is shorter than 4 GiB. */
  lemma RunRightIff(n: nat, pages: nat, left: nat, size: nat)
    requires Spans(n, size, 0) && 0 < pages <= n && Enough(n, left, size)
    ensures Machine(pages, left, 0).0 == Exact(pages, size, 0).0 <==> pages < GIB4
    ensures pages < GIB4 && pages < n ==>
      Spans(n - pages, Exact(pages, size, 0).1, 0)
        && Enough(n - pages, Machine(pages, left, 0).1, Exact(pages, size, 0).1)
  {
    SpanSplits(n, pages, size, 0);
  }

  /** Whether the first run gets its length. One of exactly 4 GiB that is entered behind its start
      does if it is the last, or if the whole ends at a multiple of 4 GiB. */
  predicate FirstRunRight(n: nat, pages: nat, size: nat, offset: nat)
  {
    pages < GIB4 || (pages == GIB4 && offset > 0 && (pages == n || (offset + size) % U32 == 0))
  }

  lemma FirstRunRightIff(n: nat, pages: nat, size: nat, offset: nat)
    requires Spans(n, size, offset) && 0 < pages <= n < U32 && size < WORD
    ensures Machine(pages, size, offset).0 == Exact(pages, size, offset).0 <==> FirstRunRight(n, pages, size, offset)
  {
    SpanSplits(n, pages, size, offset);
  }

  lemma FirstRunLeaves(n: nat, pages: nat, size: nat, offset: nat)
    requires Spans(n, size, offset) && 0 < pages < n < U32 && size < WORD && FirstRunRight(n, pages, size, offset)
    ensures Spans(n - pages, Exact(pages, size, offset).1, 0)
    ensures Enough(n - pages, Machine(pages, size, offset).1, Exact(pages, size, offset).1)
  {
    SpanSplits(n, pages, size, offset);
    if pages == GIB4 {
      EndsFull(n, size, offset);
    }
  }

  lemma EndsFull(n: nat, size: nat, offset: nat)
    requires Spans(n, size, offset) && (offset + size) % U32 == 0
    ensures offset + size == n * PAGE
  {
    var m: nat := 0x10_0000 * ((offset + size) / U32);
    assert offset + size == m * 0x1000;
    assert n - 1 < m <= n;
  }

  /** From a page on at which a run starts. */
  lemma {:induction false} RestRightIff(p: seq<nat>, c: nat, left: nat, size: nat)
    requires c < |p| && Spans(|p| - c, size, 0) && Enough(|p| - c, left, size)
    ensures Table(p, c, left, 0) == Segments(p, c, size, 0) <==> ShortRuns(p, c)
    decreases |p| - c
  {
    var e := RunEnd(p, c);
    RunRightIff(|p| - c, e - c, left, size);
    var rest, right := Table(p, e, Machine(e - c, left, 0).1, 0), Segments(p, e, Exact(e - c, size, 0).1, 0);
    SameHeads(Segment(p[c], Machine(e - c, left, 0).0, 0), rest, Segment(p[c], Exact(e - c, size, 0).0, 0), right);
    if e < |p| && e - c < GIB4 {
      RestRightIff(p, e, Machine(e - c, left, 0).1, Exact(e - c, size, 0).1);
    }
  }

  lemma SameHeads(a: Segment, s: seq<Segment>, b: Segment, t: seq<Segment>)
    ensures [a] + s == [b] + t <==> a == b && s == t
  {
    assert ([a] + s)[0] == a && ([a] + s)[1..] == s && ([b] + t)[0] == b && ([b] + t)[1..] == t;
  }

  /** What a caller can check: the runs behind the first are shorter than 4 GiB, and so is the first,
      or it is one of the exceptions. */
  ghost predicate RightRuns(p: seq<nat>, size: nat, offset: nat)
    requires p != []
  {
    FirstRunRight(|p|, RunEnd(p, 0), size, offset) && ShortRuns(p, RunEnd(p, 0))
  }

  /** A buffer gets the right table if and only if no run of it reaches 4 GiB, exceptions apart. */
  lemma TableRightIff(p: seq<nat>, size: nat, offset: nat)
    requires Spans(|p|, size, offset) && |p| < U32 && size < WORD
    ensures Table(p, 0, size, offset) == Segments(p, 0, size, offset) <==> RightRuns(p, size, offset)
  {
    var e := RunEnd(p, 0);
    FirstRunRightIff(|p|, e, size, offset);
    var rest, right := Table(p, e, Machine(e, size, offset).1, 0), Segments(p, e, Exact(e, size, offset).1, 0);
    SameHeads(Segment(p[0], Machine(e, size, offset).0, offset), rest, Segment(p[0], Exact(e, size, offset).0, offset),
      right);
    if e < |p| && FirstRunRight(|p|, e, size, offset) {
      FirstRunLeaves(|p|, e, size, offset);
      RestRightIff(p, e, Machine(e, size, offset).1, Exact(e, size, offset).1);
    }
  }

  /** For a buffer that starts a page there is no exception. */
  lemma PageStartRightIff(p: seq<nat>, size: nat)
    requires Spans(|p|, size, 0) && |p| < U32 && size < WORD
    ensures Table(p, 0, size, 0) == Segments(p, 0, size, 0) <==> ShortRuns(p, 0)
  {
    TableRightIff(p, size, 0);
  }

  /** Such a table names the pages in order, accounts for all the bytes, and has no two entries that
      could be one. */
  lemma TableLossless(p: seq<nat>, size: nat, offset: nat)
    requires Spans(|p|, size, offset) && |p| < U32 && size < WORD && RightRuns(p, size, offset)
    ensures var s := Table(p, 0, size, offset); (
      && Expand(s) == p && Lengths(s) == size
      && forall i :: 0 <= i < |s| - 1 ==> s[i].page + PagesOf(s[i]) != s[i + 1].page)
  {
    TableRightIff(p, size, offset);
    SegmentsExpand(p, 0, size, offset);
    var s := Segments(p, 0, size, offset);
    forall i | 0 <= i < |s| - 1 ensures s[i].page + PagesOf(s[i]) != s[i + 1].page {
      SegmentsMaximal(p, 0, size, offset, i);
    }
  }

  /** The loop that looks for the end of the current chunk. */
  method FindEnd(pages: seq<nat>, curPage: nat) returns (j: nat)
    requires curPage < |pages|
    ensures j == RunEnd(pages, curPage)
  {
    j := curPage + 1;
    while j < |pages|
      invariant curPage < j <= RunEnd(pages, curPage)
    {
      if !Follows(pages, j) { break; }
      j := j + 1;
    }
  }

  /** The loop that counts the chunks. */
  method CountChunks(pages: seq<nat>) returns (chunks: nat)
    ensures chunks == 1 + Breaks(pages, 1)
  {
    chunks := 1;
    var i := 1;
    while i < |pages|
      invariant 1 <= i && chunks + Breaks(pages, i) == 1 + Breaks(pages, 1)
    {
      if !Follows(pages, i) { chunks := chunks + 1; }
      i := i + 1;
    }
  }

  lemma FillStep(f: Take, p: seq<nat>, c: nat, size: nat, offset: nat)
    requires c < |p|
    ensures var e := RunEnd(p, c);
      Fill(f, p, c, size, offset)
        == [Segment(p[c], f(e - c, size, offset).0, offset)] + Fill(f, p, e, f(e - c, size, offset).1, 0)
  {
  }

  /** The loop that merges the chunks into the entries; take is the arithmetic of one turn. The
      entries are as many as the pages need, so the loop stops with the pages. */
  method MergeChunks(take: Take, pages: seq<nat>, offset0: nat, size0: nat, chunks: nat) returns (sgl: seq<Segment>)
    requires pages != [] && chunks == 1 + Breaks(pages, 1)
    ensures sgl == Fill(take, pages, 0, size0, offset0)
  {
    ghost var goal := Fill(take, pages, 0, size0, offset0);
    CountsSegments(take, pages, 0, size0, offset0);
    var curPage: nat, size: nat, offset: nat := 0, size0, offset0;
    sgl := [];
    ghost var rest := goal;
    var i := 0;
    while i < chunks
      invariant 0 <= i <= chunks && curPage <= |pages|
      invariant rest == Fill(take, pages, curPage, size, offset) && |rest| == chunks - i
      invariant sgl + rest == goal
    {
      FillStep(take, pages, curPage, size, offset);
      var j := FindEnd(pages, curPage);
      var (length, left) := take(j - curPage, size, offset);
      var s := Segment(pages[curPage], length, offset);
      MoveOver(sgl, s, rest);
      sgl, rest := sgl + [s], rest[1..];
      size, offset, curPage := left, 0, j;
      i := i + 1;
    }
    assert rest == [];
    assert sgl + [] == sgl;
  }

  lemma MoveOver(a: seq<Segment>, s: Segment, rest: seq<Segment>)
    requires rest != [] && rest[0] == s
    ensures a + [s] + rest[1..] == a + rest
  {
  }

  /** sg_alloc_table_from_pages; memory says whether sg_alloc_table succeeds. */
  method SgAllocTableFromPages(pages: seq<nat>, offset: nat, size: nat, memory: bool)
    returns (ok: bool, sgl: seq<Segment>)
    requires pages != [] && offset < PAGE && size < WORD
    ensures ok == memory
    ensures ok ==> sgl == Table(pages, 0, size, offset)
  {
    var chunks := CountChunks(pages);
    if !memory { return false, []; }
    sgl := MergeChunks(Machine, pages, offset, size, chunks);
    ok := true;
  }
}
