/** Two requests at once on the handle table: exactly which pairs can go wrong. */
module HandleOverlap {

  import opened HandleTable
  import opened HandleThreads

  /** A block was touched that was handed back, a buffer was freed twice, or cookies and owned buffers no
      longer match. */
  ghost predicate GoesWrong(o: Outcome) { o == Fault || (o.Moved? && !Bijection(o.world.now)) }

  predicate AllSteps(ms: seq<Move>) { forall i :: 0 <= i < |ms| ==> ms[i].Step? }

  // ---------------------------------------------------------------- schedules

  lemma {:induction false} RunAppends(w: World, ms: seq<Move>, more: seq<Move>)
    requires Run(w, ms).Moved?
    ensures Run(w, ms + more) == Run(Run(w, ms).world, more)
    decreases |ms|
  {
    if ms == [] {
      assert ms + more == more;
    } else {
      assert (ms + more)[0] == ms[0] && (ms + more)[1..] == ms[1..] + more;
      RunAppends(Next(w, ms[0]).world, ms[1..], more);
    }
  }

  function Steps(t: nat, k: nat): (ms: seq<Move>)
    ensures |ms| == k
  {
    if k == 0 then [] else [Step(t, true)] + Steps(t, k - 1)
  }

  /** The scan of a thread up to the first free place, or past the end. */
  lemma {:induction false} ScanRuns(w: World, t: nat, p: Ptr, k: nat)
    requires t < |w.calls| && w.calls[t] == Scanning(p, k) && !w.freed
    requires k <= FirstFree(w.now.table)
    ensures var n := FirstFree(w.now.table);
      Run(w, Steps(t, n + 1 - k)) == Moved(At(w, t, if n < |w.now.table| then Storing(p, n) else Growing(p, n)))
    decreases FirstFree(w.now.table) - k
  {
    var n := FirstFree(w.now.table);
    var end := if n < |w.now.table| then Storing(p, n) else Growing(p, n);
    assert Steps(t, n + 1 - k)[1..] == Steps(t, n - k);
    ScanStep(w, t, p, k);
    if k < n {
      var v := At(w, t, Scanning(p, k + 1));
      ScanRuns(v, t, p, k + 1);
      assert At(v, t, end) == At(w, t, end);
    } else {
      assert Steps(t, 0) == [];
    }
  }

  lemma ScanStep(w: World, t: nat, p: Ptr, k: nat)
    requires t < |w.calls| && w.calls[t] == Scanning(p, k) && !w.freed && k <= FirstFree(w.now.table)
    ensures var n := FirstFree(w.now.table);
      Next(w, Step(t, true)) == Moved(At(w, t,
        if k < n then Scanning(p, k + 1) else if n < |w.now.table| then Storing(p, n) else Growing(p, n)))
  {
  }

  /** Where a scan ends. */
  function Scanned(table: seq<Ptr>, p: Ptr): Call
  {
    var n := FirstFree(table);
    if n < |table| then Storing(p, n) else Growing(p, n)
  }

  lemma {:induction false} StepsOnly(t: nat, k: nat)
    ensures AllSteps(Steps(t, k))
  {
    if k > 0 { StepsOnly(t, k - 1); }
  }

  lemma StepsJoin(ms: seq<Move>, more: seq<Move>)
    requires AllSteps(ms) && AllSteps(more)
    ensures AllSteps(ms + more)
  {
  }

  lemma RunTwo(w: World, x: Move, y: Move)
    requires Next(w, x).Moved?
    ensures Run(w, [x, y]) == Next(Next(w, x).world, y)
  {
    assert [x, y][1..] == [y];
    var o := Next(Next(w, x).world, y);
    assert o.Moved? ==> Run(o.world, [y][1..]) == o;
  }

  function BothScanning(w: World, p: Ptr, q: Ptr): World
    requires |w.calls| >= 2
  {
    w.(calls := w.calls[0 := Scanning(p, 0)][1 := Scanning(q, 0)])
  }

  function BothScanned(w: World, p: Ptr, q: Ptr): World
    requires |w.calls| >= 2
  {
    w.(calls := w.calls[0 := Scanned(w.now.table, p)][1 := Scanned(w.now.table, q)])
  }

  lemma BothScan(w: World, p: Ptr, q: Ptr)
    requires !w.freed && |w.calls| >= 2 && w.calls[0] == Scanning(p, 0) && w.calls[1] == Scanning(q, 0)
    ensures Run(w, Steps(0, FirstFree(w.now.table) + 1) + Steps(1, FirstFree(w.now.table) + 1))
      == Moved(BothScanned(w, p, q))
  {
    ScanRuns(w, 0, p, 0);
    var v := At(w, 0, Scanned(w.now.table, p));
    ScanRuns(v, 1, q, 0);
    RunAppends(w, Steps(0, FirstFree(w.now.table) + 1), Steps(1, FirstFree(w.now.table) + 1));
  }

  /** The second store at a place takes the cookie of the first. */
  lemma StoreTwice(w: World, p: Ptr, q: Ptr, n: nat)
    requires Bijection(w.now) && !w.freed && n < |w.now.table| && |w.calls| >= 2
    requires p != q && p !in w.now.owned && q != 0
    requires w.calls[0] == Storing(p, n) && w.calls[1] == Storing(q, n)
    ensures GoesWrong(Run(w, [Step(0, true), Step(1, true)]))
  {
    var table: seq<Ptr> := w.now.table;
    RunTwo(w, Step(0, true), Step(1, true));
    var first: seq<Ptr> := table[n := p];
    assert first[n := q] == table[n := q];
    LostCookie(w.now, p, q, n);
  }

  lemma LostCookie(s: State, p: Ptr, q: Ptr, n: nat)
    requires Bijection(s) && n < |s.table| && p != q && p !in s.owned
    ensures !HasCookie(Handles(s.table[n := q]), p)
  {
    var m := Handles(s.table[n := q]);
    forall h | h in m ensures m[h] != p {
      assert h != n ==> h in Handles(s.table) && Handles(s.table)[h] == m[h];
    }
  }

  /** Of two reallocations at once the second is of a block that the first handed back. */
  lemma GrowTwice(w: World, p: Ptr, q: Ptr, n: nat)
    requires !w.freed && w.now.table != [] && |w.calls| >= 2
    requires w.calls[0] == Growing(p, n) && w.calls[1] == Growing(q, n)
    ensures Run(w, [Step(0, true), Step(1, true)]) == Fault
  {
    RunTwo(w, Step(0, true), Step(1, true));
  }

  /** Two first allocations of the table: the second wipes out what the first has stored. */
  function FirstTwice(): seq<Move>
  {
    [Step(0, true), Step(1, true)] + ([Step(0, true), Step(0, true)] + [Step(1, true), Step(1, true)])
  }

  lemma BothGrow(w: World, p: Ptr, q: Ptr)
    requires !w.freed && w.now.table == [] && |w.calls| >= 2
    requires w.calls[0] == Growing(p, 0) && w.calls[1] == Growing(q, 0)
    ensures var z := Zeros(INITIAL_MAX_PTRS);
      Run(w, [Step(0, true), Step(1, true)])
      == Moved(w.(calls := w.calls[0 := Installing(p, 0, z)][1 := Installing(q, 0, z)]))
  {
    var z := Zeros(INITIAL_MAX_PTRS);
    assert w.now.table + z == z;
    RunTwo(w, Step(0, true), Step(1, true));
  }

  /** What krealloc gave is installed, and the pointer stored in it. */
  lemma InstallAndStore(w: World, t: nat, p: Ptr)
    requires t < |w.calls| && w.calls[t] == Installing(p, 0, Zeros(INITIAL_MAX_PTRS))
    ensures Run(w, [Step(t, true), Step(t, true)])
         == Moved(World(State(Zeros(INITIAL_MAX_PTRS)[0 := p], w.now.owned + {p}), false, w.calls[t := Idle]))
  {
    RunTwo(w, Step(t, true), Step(t, true));
    assert w.calls[t := Storing(p, 0)][t := Idle] == w.calls[t := Idle];
  }

  lemma FirstGrowTwice(w: World, p: Ptr, q: Ptr)
    requires Bijection(w.now) && !w.freed && w.now.table == [] && |w.calls| >= 2
    requires p != q && p != 0 && q != 0 && p !in w.now.owned
    requires w.calls[0] == Growing(p, 0) && w.calls[1] == Growing(q, 0)
    ensures GoesWrong(Run(w, FirstTwice()))
  {
    var z := Zeros(INITIAL_MAX_PTRS);
    BothGrow(w, p, q);
    var w2 := w.(calls := w.calls[0 := Installing(p, 0, z)][1 := Installing(q, 0, z)]);
    InstallAndStore(w2, 0, p);
    var w4 := World(State(z[0 := p], w.now.owned + {p}), false, w2.calls[0 := Idle]);
    InstallAndStore(w4, 1, q);
    RunAppends(w2, [Step(0, true), Step(0, true)], [Step(1, true), Step(1, true)]);
    RunAppends(w, [Step(0, true), Step(1, true)], [Step(0, true), Step(0, true)] + [Step(1, true), Step(1, true)]);
    OnlyOneStored(p, q);
  }

  lemma OnlyOneStored(p: Ptr, q: Ptr)
    requires p != q
    ensures !HasCookie(Handles(Zeros(INITIAL_MAX_PTRS)[0 := q]), p)
  {
    var m := Handles(Zeros(INITIAL_MAX_PTRS)[0 := q]);
    forall h | h in m ensures m[h] != p { }
  }

  /** How two allocations go on after both have scanned. */
  function Ending(table: seq<Ptr>): seq<Move>
  {
    if table == [] then FirstTwice() else [Step(0, true), Step(1, true)]
  }

  lemma EndingGoesWrong(w: World, p: Ptr, q: Ptr)
    requires Quiet(w) && Bijection(w.now) && !w.freed && |w.calls| >= 2
    requires p != q && p != 0 && q != 0 && p !in w.now.owned
    ensures GoesWrong(Run(BothScanned(w, p, q), Ending(w.now.table)))
  {
    var v := BothScanned(w, p, q);
    var n := FirstFree(w.now.table);
    if w.now.table == [] { FirstGrowTwice(v, p, q); }
    else if n < |w.now.table| { StoreTwice(v, p, q, n); }
    else { GrowTwice(v, p, q, n); }
  }

  /** Both scan, and go on as told. */
  lemma ScansThen(w: World, p: Ptr, q: Ptr, end: seq<Move>)
    requires !w.freed && |w.calls| >= 2
    ensures var n := FirstFree(w.now.table);
      Run(BothScanning(w, p, q), Steps(0, n + 1) + Steps(1, n + 1) + end) == Run(BothScanned(w, p, q), end)
  {
    var n := FirstFree(w.now.table);
    var v := BothScanning(w, p, q);
    BothScan(v, p, q);
    assert BothScanned(v, p, q).calls == BothScanned(w, p, q).calls;
    RunAppends(v, Steps(0, n + 1) + Steps(1, n + 1), end);
  }

  lemma AllocMeetsAlloc(w: World, p: Ptr, q: Ptr) returns (rest: seq<Move>)
    requires Quiet(w) && Bijection(w.now) && !w.freed && |w.calls| >= 2
    requires p != q && p != 0 && q != 0 && p !in w.now.owned
    ensures AllSteps(rest) && GoesWrong(Run(BothScanning(w, p, q), rest))
  {
    var n := FirstFree(w.now.table);
    var end := Ending(w.now.table);
    EndingGoesWrong(w, p, q);
    ScansThen(w, p, q, end);
    StepsOnly(0, n + 1);
    StepsOnly(1, n + 1);
    StepsJoin(Steps(0, n + 1), Steps(1, n + 1));
    StepsJoin(Steps(0, n + 1) + Steps(1, n + 1), end);
    rest := Steps(0, n + 1) + Steps(1, n + 1) + end;
  }

  // ---------------------------------------------------------------- an allocation and a free

  /** The free of a cookie meets an allocation when the cookie is that of the place the allocation
      takes, or when the allocation hands back the block that the free is about to touch. */
  predicate Meets(table: seq<Ptr>, cookie: int)
  {
    cookie == FirstFree(table) || (0 <= cookie < |table| && FirstFree(table) == |table|)
  }

  lemma TakeStoreClear(w: World, a: nat, b: nat, p: Ptr, n: nat)
    requires Bijection(w.now) && !w.freed && a < |w.calls| && b < |w.calls| && a != b
    requires n < |w.now.table| && w.now.table[n] == 0 && p != 0 && p !in w.now.owned
    requires w.calls[a] == Storing(p, n) && w.calls[b] == Taking(n)
    ensures GoesWrong(Run(w, [Step(b, true)] + [Step(a, true), Step(b, true)]))
  {
    var v := At(w, b, Clearing(n, 0));
    RunOne(w, Step(b, true));
    RunTwo(v, Step(a, true), Step(b, true));
    RunAppends(w, [Step(b, true)], [Step(a, true), Step(b, true)]);
    var table: seq<Ptr> := w.now.table;
    assert table[n := p][n := 0] == table[n := 0];
    LostCookie(w.now, p, 0, n);
  }

  lemma RunOne(w: World, x: Move)
    ensures Run(w, [x]) == Next(w, x)
  {
    assert [x][1..] == [];
  }

  lemma GrowAndInstall(w: World, a: nat, p: Ptr, n: nat)
    requires a < |w.calls| && w.calls[a] == Growing(p, n) && !w.freed
    ensures var table := w.now.table + Zeros(Grown(|w.now.table|) - |w.now.table|);
      Run(w, [Step(a, true), Step(a, true)])
      == Moved(World(w.now.(table := table), false, w.calls[a := Storing(p, n)]))
  {
    RunTwo(w, Step(a, true), Step(a, true));
    var c := Installing(p, n, w.now.table + Zeros(Grown(|w.now.table|) - |w.now.table|));
    assert w.calls[a := c][a := Storing(p, n)] == w.calls[a := Storing(p, n)];
  }

  /** An allocation and a free under way at the start of their calls. */
  ghost predicate Pair(w: World, a: nat, b: nat, p: Ptr, cookie: int)
  {
    && a < |w.calls| && b < |w.calls| && a != b
    && Bijection(w.now) && !w.freed && p != 0 && p !in w.now.owned
    && w.calls[a] == Scanning(p, 0) && w.calls[b] == Taking(cookie)
  }

  lemma PlaceIsTaken(w: World, a: nat, b: nat, p: Ptr) returns (rest: seq<Move>)
    requires FirstFree(w.now.table) < |w.now.table| && Pair(w, a, b, p, FirstFree(w.now.table))
    ensures AllSteps(rest) && GoesWrong(Run(w, rest))
  {
    var n := FirstFree(w.now.table);
    ScanRuns(w, a, p, 0);
    TakeStoreClear(At(w, a, Storing(p, n)), a, b, p, n);
    rest := Steps(a, n + 1) + ([Step(b, true)] + [Step(a, true), Step(b, true)]);
    RunAppends(w, Steps(a, n + 1), [Step(b, true)] + [Step(a, true), Step(b, true)]);
    StepsOnly(a, n + 1);
  }

  lemma BlockIsHandedBack(w: World, a: nat, b: nat, p: Ptr, h: nat) returns (rest: seq<Move>)
    requires h < |w.now.table| == FirstFree(w.now.table) && Pair(w, a, b, p, h)
    ensures AllSteps(rest) && GoesWrong(Run(w, rest))
  {
    var n := FirstFree(w.now.table);
    ScanRuns(w, a, p, 0);
    RunTwo(At(w, a, Growing(p, n)), Step(a, true), Step(b, true));
    rest := Steps(a, n + 1) + [Step(a, true), Step(b, true)];
    RunAppends(w, Steps(a, n + 1), [Step(a, true), Step(b, true)]);
    StepsOnly(a, n + 1);
  }

  lemma CallTwice(calls: seq<Call>, t: nat, c: Call, d: Call)
    requires t < |calls|
    ensures calls[t := c][t := d] == calls[t := d]
  {
  }

  /** The scan of a full table, the growth and the installation. */
  lemma GrowthRuns(w: World, a: nat, p: Ptr)
    requires FirstFree(w.now.table) == |w.now.table| && a < |w.calls| && w.calls[a] == Scanning(p, 0) && !w.freed
    ensures var n := |w.now.table|; var table := w.now.table + Zeros(Grown(n) - n);
      Run(w, Steps(a, n + 1) + [Step(a, true), Step(a, true)])
      == Moved(World(w.now.(table := table), false, w.calls[a := Storing(p, n)]))
  {
    var n := |w.now.table|;
    var v := At(w, a, Growing(p, n));
    var scan, grow := Steps(a, n + 1), [Step(a, true), Step(a, true)];
    ScanRuns(w, a, p, 0);
    GrowAndInstall(v, a, p, n);
    CallTwice(w.calls, a, Growing(p, n), Storing(p, n));
    RunAppends(w, scan, grow);
  }

  lemma NewPlaceIsTaken(w: World, a: nat, b: nat, p: Ptr) returns (rest: seq<Move>)
    requires FirstFree(w.now.table) == |w.now.table| && Pair(w, a, b, p, |w.now.table|)
    ensures AllSteps(rest) && GoesWrong(Run(w, rest))
  {
    var n := |w.now.table|;
    var grown := w.now.table + Zeros(Grown(n) - n);
    var u := World(w.now.(table := grown), false, w.calls[a := Storing(p, n)]);
    var start := Steps(a, n + 1) + [Step(a, true), Step(a, true)];
    var end := [Step(b, true)] + [Step(a, true), Step(b, true)];
    GrowthRuns(w, a, p);
    ZerosKeepHandles(w.now, Grown(n) - n);
    TakeStoreClear(u, a, b, p, n);
    RunAppends(w, start, end);
    StepsOnly(a, n + 1);
    rest := start + end;
  }

  lemma AllocMeetsFree(w: World, a: nat, b: nat, p: Ptr, cookie: int) returns (rest: seq<Move>)
    requires Pair(w, a, b, p, cookie) && Meets(w.now.table, cookie)
    ensures AllSteps(rest) && GoesWrong(Run(w, rest))
  {
    if cookie == FirstFree(w.now.table) < |w.now.table| { rest := PlaceIsTaken(w, a, b, p); }
    else if cookie < |w.now.table| { rest := BlockIsHandedBack(w, a, b, p, cookie); }
    else { rest := NewPlaceIsTaken(w, a, b, p); }
  }

  // ---------------------------------------------------------------- pairs that are apart

  /** What holds while an allocation is under way: it stores no later than at the place n0, the first
      one free when it began; full says that there was none. */
  predicate AllocApart(s: State, freed: bool, c: Call, n0: nat, full: bool)
  {
    && n0 <= |s.table|
    && (freed ==> c.Installing?)
    && (n0 == |s.table| ==> full)
    && match c
       case Idle => true
       case Scanning(p, k) => p != 0 && p !in s.owned && k <= n0 && (n0 < |s.table| ==> s.table[n0] == 0)
       case Growing(p, n) => p != 0 && p !in s.owned && n == n0 == |s.table|
       case Installing(p, n, copy) =>
         p != 0 && p !in s.owned && n == n0 == |s.table| && copy == s.table + Zeros(Grown(n) - n)
       case Storing(p, n) => p != 0 && p !in s.owned && n <= n0 && n < |s.table| && s.table[n] == 0
       case Taking(_) => false
       case Clearing(_, _) => false
  }

  /** What holds while a free is under way: it is not at a place where the allocation may store. */
  predicate FreeApart(s: State, c: Call, n0: nat, full: bool)
  {
    match c
    case Idle => true
    case Taking(h) => h != n0 && (0 <= h < n0 ==> !full && h < |s.table| && s.table[h] != 0)
    case Clearing(h, x) => h != n0 && h < |s.table| && s.table[h] == x && (h < n0 ==> !full && x != 0)
    case Scanning(_, _) => false
    case Growing(_, _) => false
    case Installing(_, _, _) => false
    case Storing(_, _) => false
  }

  ghost predicate Apart(w: World, a: nat, b: nat, n0: nat, full: bool)
  {
    && a < |w.calls| && b < |w.calls| && a != b
    && (forall t :: 0 <= t < |w.calls| && t != a && t != b ==> w.calls[t] == Idle)
    && Bijection(w.now)
    && AllocApart(w.now, w.freed, w.calls[a], n0, full)
    && FreeApart(w.now, w.calls[b], n0, full)
  }

  lemma StoreKeeps(s: State, p: Ptr, n: nat)
    requires Bijection(s) && n < |s.table| && s.table[n] == 0 && p != 0 && p !in s.owned
    ensures Bijection(State(s.table[n := p], s.owned + {p}))
  {
    var table: seq<Ptr> := s.table[n := p];
    var m, m' := Handles(s.table), Handles(table);
    assert m' == m[n := p];
    forall q | q in s.owned + {p} ensures HasCookie(m', q) {
      if q == p { assert m'[n] == p; } else {
        var h :| h in m && m[h] == q;
        assert h in m' && m'[h] == q;
      }
    }
  }

  lemma AllocStep(w: World, a: nat, b: nat, n0: nat, full: bool, memory: bool)
    requires Apart(w, a, b, n0, full) && w.calls[a] != Idle
    ensures Access(w, a, memory).Moved? && Apart(Access(w, a, memory).world, a, b, n0, full)
  {
    var c := w.calls[a];
    if c.Storing? { StoreKeeps(w.now, c.p, c.n); }
    else if c.Installing? { ZerosKeepHandles(w.now, Grown(c.n) - c.n); }
  }

  lemma FreeStep(w: World, a: nat, b: nat, n0: nat, full: bool, memory: bool)
    requires Apart(w, a, b, n0, full) && w.calls[b] != Idle
    ensures Access(w, b, memory).Moved? && Apart(Access(w, b, memory).world, a, b, n0, full)
  {
    var c := w.calls[b];
    if c.Clearing? { TakenIsOwned(w.now, c.h); FreeKeeps(w.now, c.h); }
  }

  lemma {:induction false} ApartIsSafe(w: World, a: nat, b: nat, n0: nat, full: bool, ms: seq<Move>)
    requires Apart(w, a, b, n0, full) && AllSteps(ms)
    ensures !GoesWrong(Run(w, ms))
    decreases |ms|
  {
    if ms != [] && ms[0].t < |w.calls| && w.calls[ms[0].t] != Idle {
      var memory := ms[0].memory;
      if ms[0].t == a { AllocStep(w, a, b, n0, full, memory); } else { FreeStep(w, a, b, n0, full, memory); }
      ApartIsSafe(Next(w, ms[0]).world, a, b, n0, full, ms[1..]);
    }
  }

  // ---------------------------------------------------------------- frees only

  /** Both read the pointer before either clears it, and so both free the buffer. */
  lemma FreeTwice(w: World, h: nat)
    requires |w.calls| >= 2 && !w.freed && h < |w.now.table| && w.now.table[h] != 0 && w.now.table[h] in w.now.owned
    requires w.calls[0] == w.calls[1] == Taking(h)
    ensures Run(w, [Step(0, true), Step(1, true)] + [Step(0, true), Step(1, true)]) == Fault
  {
    var both := [Step(0, true), Step(1, true)];
    var c := Clearing(h, w.now.table[h]);
    var v := w.(calls := w.calls[0 := c][1 := c]);
    RunTwo(w, Step(0, true), Step(1, true));
    RunTwo(v, Step(0, true), Step(1, true));
    RunAppends(w, both, both);
  }

  /** The place that a free is about to touch. */
  function Place(c: Call): int { if c.Taking? then c.cookie else if c.Clearing? then c.h else -1 }

  predicate OnlyFree(s: State, c: Call)
  {
    c == Idle || c.Taking? || (c.Clearing? && c.h < |s.table| && s.table[c.h] == c.p)
  }

  /** Two frees under way are at different places, or at one with nothing in it. */
  predicate SameFree(s: State, c: Call, d: Call)
  {
    Place(c) == Place(d) && 0 <= Place(c) < |s.table| && s.table[Place(c)] != 0
  }

  ghost predicate Freeing(w: World)
  {
    && !w.freed && Bijection(w.now)
    && (forall t :: 0 <= t < |w.calls| ==> OnlyFree(w.now, w.calls[t]))
    && forall t, u :: 0 <= t < u < |w.calls| ==> !SameFree(w.now, w.calls[t], w.calls[u])
  }

  lemma ClearedAlone(w: World, t: nat, u: nat)
    requires Freeing(w) && t < |w.calls| && u < |w.calls| && t != u && w.calls[t].Clearing?
    ensures var c := w.calls[t]; OnlyFree(State(w.now.table[c.h := 0], w.now.owned - {c.p}), w.calls[u])
  {
    assert OnlyFree(w.now, w.calls[t]) && OnlyFree(w.now, w.calls[u]);
    assert !SameFree(w.now, w.calls[t], w.calls[u]) by {
      if t < u {
        assert !SameFree(w.now, w.calls[t], w.calls[u]);
      } else {
        assert !SameFree(w.now, w.calls[u], w.calls[t]);
      }
    }
  }

  lemma ClearingStep(w: World, t: nat, memory: bool)
    requires Freeing(w) && t < |w.calls| && w.calls[t].Clearing?
    ensures Access(w, t, memory).Moved? && Freeing(Access(w, t, memory).world)
  {
    var c := w.calls[t];
    assert OnlyFree(w.now, c);
    TakenIsOwned(w.now, c.h);
    FreeKeeps(w.now, c.h);
    var n := Access(w, t, memory).world;
    forall u | 0 <= u < |w.calls| ensures OnlyFree(n.now, n.calls[u]) {
      if u != t { ClearedAlone(w, t, u); }
    }
    forall u, v | 0 <= u < v < |w.calls| ensures !SameFree(n.now, n.calls[u], n.calls[v]) {
      assert !SameFree(w.now, w.calls[u], w.calls[v]);
    }
  }

  lemma TakingStep(w: World, t: nat, memory: bool)
    requires Freeing(w) && t < |w.calls| && w.calls[t].Taking?
    ensures Access(w, t, memory).Moved? && Freeing(Access(w, t, memory).world)
  {
    var n := Access(w, t, memory).world;
    forall u, v | 0 <= u < v < |w.calls| ensures !SameFree(n.now, n.calls[u], n.calls[v]) {
      assert !SameFree(w.now, w.calls[u], w.calls[v]);
    }
  }

  lemma {:induction false} FreeingIsSafe(w: World, ms: seq<Move>)
    requires Freeing(w) && AllSteps(ms)
    ensures !GoesWrong(Run(w, ms))
    decreases |ms|
  {
    if ms != [] && ms[0].t < |w.calls| && w.calls[ms[0].t] != Idle {
      var t := ms[0].t;
      assert OnlyFree(w.now, w.calls[t]);
      if w.calls[t].Taking? { TakingStep(w, t, ms[0].memory); } else { ClearingStep(w, t, ms[0].memory); }
      FreeingIsSafe(Next(w, ms[0]).world, ms[1..]);
    }
  }

  // ---------------------------------------------------------------- every pair

  predicate Allocates(r: Request) { r.AllocPayload? && r.p != 0 }

  /** The free of a cookie that is given out. */
  predicate FreesCookie(table: seq<Ptr>, r: Request, cookie: int)
  {
    r.FreePayload? && r.cookie == cookie && 0 <= cookie < |table| && table[cookie] != 0
  }

  /** Both allocate, one frees a cookie that meets what the other allocates, or both free one cookie. */
  predicate Clash(table: seq<Ptr>, r: Request, q: Request)
  {
    || (Allocates(r) && Allocates(q))
    || (Allocates(r) && q.FreePayload? && Meets(table, q.cookie))
    || (Allocates(q) && r.FreePayload? && Meets(table, r.cookie))
    || (q.FreePayload? && FreesCookie(table, r, q.cookie))
  }

  function Begun(r: Request): Call
  {
    if r.FreePayload? then Taking(r.cookie) else if r.p == 0 then Idle else Scanning(r.p, 0)
  }

  function BothBegin(r: Request, q: Request): seq<Move> { [Begin(0, r), Begin(1, q)] }

  function BothBegun(w: World, r: Request, q: Request): World
    requires |w.calls| >= 2
  {
    w.(calls := w.calls[0 := Begun(r)][1 := Begun(q)])
  }

  lemma BeginBoth(w: World, r: Request, q: Request, rest: seq<Move>)
    requires Quiet(w) && |w.calls| >= 2
    ensures Run(w, BothBegin(r, q) + rest) == Run(BothBegun(w, r, q), rest)
  {
    RunTwo(w, Begin(0, r), Begin(1, q));
    RunAppends(w, BothBegin(r, q), rest);
  }

  /** Two requests on a table in order: distinct new buffers. */
  ghost predicate TwoRequests(w: World, r: Request, q: Request)
  {
    && Quiet(w) && Bijection(w.now) && !w.freed && |w.calls| >= 2
    && Fresh(w.now, r) && Fresh(w.now, q)
    && (Allocates(r) && Allocates(q) ==> r.p != q.p)
  }

  lemma ClashGoesWrong(w: World, r: Request, q: Request) returns (rest: seq<Move>)
    requires TwoRequests(w, r, q) && Clash(w.now.table, r, q)
    ensures AllSteps(rest) && GoesWrong(Run(BothBegun(w, r, q), rest))
  {
    var v := BothBegun(w, r, q);
    if Allocates(r) && Allocates(q) { rest := AllocMeetsAlloc(w, r.p, q.p); }
    else if Allocates(r) { rest := AllocMeetsFree(v, 0, 1, r.p, q.cookie); }
    else if Allocates(q) { rest := AllocMeetsFree(v, 1, 0, q.p, r.cookie); }
    else {
      TakenIsOwned(w.now, q.cookie);
      FreeTwice(v, q.cookie);
      rest := [Step(0, true), Step(1, true)] + [Step(0, true), Step(1, true)];
    }
  }

  lemma FreesApart(w: World, r: Request, q: Request)
    requires TwoRequests(w, r, q) && !Clash(w.now.table, r, q) && !Allocates(r) && !Allocates(q)
    ensures Freeing(BothBegun(w, r, q))
  {
  }

  lemma NoClashIsSafe(w: World, r: Request, q: Request, rest: seq<Move>)
    requires TwoRequests(w, r, q) && !Clash(w.now.table, r, q) && AllSteps(rest)
    ensures !GoesWrong(Run(BothBegun(w, r, q), rest))
  {
    var v := BothBegun(w, r, q);
    var n0 := FirstFree(w.now.table);
    if Allocates(r) { ApartIsSafe(v, 0, 1, n0, n0 == |w.now.table|, rest); }
    else if Allocates(q) { ApartIsSafe(v, 1, 0, n0, n0 == |w.now.table|, rest); }
    else { FreesApart(w, r, q); FreeingIsSafe(v, rest); }
  }

  /** Two requests that are served at once can go wrong exactly when they clash: the table needs a
      lock for two allocations, for a free that meets an allocation, and for two frees of a cookie
      that is given out. Any other pair can be served without one. */
  lemma OverlapGoesWrongIff(w: World, r: Request, q: Request)
    requires TwoRequests(w, r, q)
    ensures Clash(w.now.table, r, q)
       <==> exists rest :: AllSteps(rest) && GoesWrong(Run(w, BothBegin(r, q) + rest))
  {
    if Clash(w.now.table, r, q) {
      var rest := ClashGoesWrong(w, r, q);
      BeginBoth(w, r, q, rest);
      assert AllSteps(rest);
    } else {
      forall rest | AllSteps(rest) ensures !GoesWrong(Run(w, BothBegin(r, q) + rest)) {
        NoClashIsSafe(w, r, q, rest);
        BeginBoth(w, r, q, rest);
      }
    }
  }

  // ---------------------------------------------------------------- one request alone

  lemma BeginAlone(w: World, t: nat, r: Request, rest: seq<Move>)
    requires Quiet(w) && t < |w.calls|
    ensures Run(w, [Begin(t, r)] + rest) == Run(At(w, t, Begun(r)), rest)
  {
    RunOne(w, Begin(t, r));
    RunAppends(w, [Begin(t, r)], rest);
  }

  /** The accesses of an allocation: the scan, the growth if it is needed, and the store. */
  lemma AllocAlone(w: World, t: nat, p: Ptr, memory: bool) returns (rest: seq<Move>)
    requires t < |w.calls| && w.calls[t] == Scanning(p, 0) && !w.freed && p != 0
    ensures AllSteps(rest)
    ensures Run(w, rest) == Moved(World(Serve(w.now, AllocPayload(p, memory)), false, w.calls[t := Idle]))
  {
    var n := FirstFree(w.now.table);
    var scan := Steps(t, n + 1);
    StepsOnly(t, n + 1);
    ScanRuns(w, t, p, 0);
    if n < |w.now.table| {
      rest := scan + [Step(t, true)];
      RunAppends(w, scan, [Step(t, true)]);
      RunOne(At(w, t, Storing(p, n)), Step(t, true));
      CallTwice(w.calls, t, Storing(p, n), Idle);
    } else if memory {
      var grow := scan + [Step(t, true), Step(t, true)];
      GrowthRuns(w, t, p);
      rest := grow + [Step(t, true)];
      RunAppends(w, grow, [Step(t, true)]);
      RunOne(Run(w, grow).world, Step(t, true));
      CallTwice(w.calls, t, Storing(p, n), Idle);
    } else {
      rest := scan + [Step(t, false)];
      RunAppends(w, scan, [Step(t, false)]);
      RunOne(At(w, t, Growing(p, n)), Step(t, false));
      CallTwice(w.calls, t, Growing(p, n), Idle);
    }
  }

  lemma FreeAlone(w: World, t: nat, cookie: int) returns (rest: seq<Move>)
    requires t < |w.calls| && w.calls[t] == Taking(cookie) && !w.freed && Bijection(w.now)
    ensures AllSteps(rest)
    ensures Run(w, rest) == Moved(World(Serve(w.now, FreePayload(cookie)), false, w.calls[t := Idle]))
  {
    if 0 <= cookie < |w.now.table| {
      rest := [Step(t, true), Step(t, true)];
      TakenIsOwned(w.now, cookie);
      RunTwo(w, Step(t, true), Step(t, true));
      CallTwice(w.calls, t, Clearing(cookie, w.now.table[cookie]), Idle);
    } else {
      rest := [Step(t, true)];
      RunOne(w, Step(t, true));
      NobodyOwnsNull(w.now);
      assert w.now.owned - {0} == w.now.owned;
    }
  }

  /** Left to itself every request comes to its end, and its accesses together do what the request does
      when it is served at once. */
  lemma AloneServes(w: World, t: nat, r: Request) returns (rest: seq<Move>)
    requires Quiet(w) && Bijection(w.now) && !w.freed && t < |w.calls|
    ensures AllSteps(rest) && Run(w, [Begin(t, r)] + rest) == Moved(w.(now := Serve(w.now, r)))
  {
    var v := At(w, t, Begun(r));
    if r.FreePayload? { rest := FreeAlone(v, t, r.cookie); }
    else if r.p == 0 { rest := []; }
    else { rest := AllocAlone(v, t, r.p, r.memory); }
    BeginAlone(w, t, r, rest);
    CallTwice(w.calls, t, Begun(r), Idle);
    assert w.calls[t := Idle] == w.calls;
  }
}
