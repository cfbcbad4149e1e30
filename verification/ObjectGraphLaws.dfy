/** What every run of the driver keeps of its contexts, sessions and buffers. */
module ObjectGraphLaws {

  import opened Collections
  import opened Alignment
  import opened ShmPoolModel
  import opened ShmPoolOps
  import opened ShmPoolLaws
  import opened ObjectGraph
  import opened ObjectGraphProofs

  /** One critical section, or one access outside of one, of any thread. An object that a move
      brings in is named by it. */
  datatype Move =
    | TakeTee | DropTee
    | CreateContext(c: TeeContext) | DestroyContext(c: TeeContext)
    | BeginOpen(s: TeeSession, c: TeeContext) | FailOpen(s: TeeSession) | FinishOpen(s: TeeSession)
    | BeginClose(s: TeeSession) | EndClose(s: TeeSession)
    | Allocate(c: TeeContext, b: TeeShm, nonsecure: bool, size: nat, memory: bool, descriptors: bool, exported: bool)
    | ReleaseFile(b: TeeShm)
    | RpcAllocate(b: TeeShm, nonsecure: bool, size: nat, memory: bool, descriptors: bool)
    | RpcRelease(b: TeeShm)
    | Export(c: TeeContext, b: TeeShm, wantNonsecure: bool, exported: bool)
    | TakeBlock(size: nat, alignment: nat, descriptors: bool) | GiveBlock(a: nat)

  /** What the callers of the driver keep to: a context is used until its owner destroys it, a file
      is released once, and the secure world frees once what it was given. */
  predicate Allowed(g: Graph, m: Move)
  {
    match m
    case TakeTee => true
    case DropTee => g.pending > 0
    case CreateContext(c) => g.pending > 0 && c !in g.contexts
    case DestroyContext(c) => c in g.contexts && !g.contexts[c].closed
    case BeginOpen(s, c) => g.pending > 0 && c in g.contexts && !g.contexts[c].closed && s !in g.sessions
    case FailOpen(s) => s in g.sessions && g.sessions[s].phase == Opening
    case FinishOpen(s) => s in g.sessions && g.sessions[s].phase == Opening
    case BeginClose(s) => s in g.sessions && g.sessions[s].phase == Open
    case EndClose(s) => s in g.sessions && g.sessions[s].phase == Closing
    case Allocate(c, b, _, _, _, _, _) => c in g.contexts && !g.contexts[c].closed && b !in g.buffers
    case ReleaseFile(b) => b in g.buffers && g.buffers[b].byFile
    case RpcAllocate(b, _, _, _, _) => b !in g.buffers
    case RpcRelease(b) => b in g.buffers && g.buffers[b].byRpc
    case Export(c, b, _, _) => c in g.contexts && !g.contexts[c].closed && b in g.buffers && Unexported()(g.buffers[b])
    case TakeBlock(size, _, _) => size > 0
    case GiveBlock(a) => a in g.loans
  }

  /** tee_shm_fd_for_rpc finds on its list exactly the buffers without a context that the secure
      world holds. */
  lemma OnRpcList(g: Graph, b: TeeShm)
    requires Good(g)
    ensures b in g.rpc <==> b in g.buffers && Unexported()(g.buffers[b])
  {
    GoodMeans(g);
    assert b in g.rpc <==> b in Where(g.buffers, Unexported());
  }

  predicate OfSession(m: Move) { m.BeginOpen? || m.FailOpen? || m.FinishOpen? || m.BeginClose? || m.EndClose? }

  predicate OfBuffer(m: Move) { m.Allocate? || m.ReleaseFile? || m.RpcAllocate? || m.RpcRelease? || m.Export? }

  function SessionStep(g: Graph, m: Move): Graph
    requires Pointers(g.contexts, g.sessions, g.buffers) && Allowed(g, m)
    requires OfSession(m)
  {
    match m
    case BeginOpen(s, c) => OpenBegin(g, s, c)
    case FailOpen(s) => OpenFailed(g, s)
    case FinishOpen(s) => OpenDone(g, s)
    case BeginClose(s) => CloseBegin(g, s)
    case EndClose(s) => CloseEnd(g, s)
  }

  function BufferStep(g: Graph, m: Move): Graph
    requires Pointers(g.contexts, g.sessions, g.buffers) && Inv(g.pool) && Allowed(g, m)
    requires OfBuffer(m)
  {
    match m
    case Allocate(c, b, ns, size, memory, descriptors, exported) =>
      AllocIo(g, c, b, ns, size, memory, descriptors, exported).0
    case ReleaseFile(b) => FreeIo(g, b)
    case RpcAllocate(b, ns, size, memory, descriptors) => AllocRpc(g, b, ns, size, memory, descriptors)
    case RpcRelease(b) => FreeRpc(g, b)
    case Export(c, b, want, exported) => ExportRpc(g, c, b, want, exported).0
  }

  function Step(g: Graph, m: Move): Graph
    requires Good(g) && Allowed(g, m)
  {
    if OfSession(m) then SessionStep(g, m)
    else if OfBuffer(m) then BufferStep(g, m)
    else
      match m
      case TakeTee => GetTee(g)
      case DropTee => PutTee(g)
      case CreateContext(c) => AddContext(g, c)
      case DestroyContext(c) => Destroy(g, c)
      case TakeBlock(size, alignment, descriptors) => Borrow(g, size, alignment, descriptors)
      case GiveBlock(a) => Repay(g, a)
  }

  lemma SessionStepKeeps(g: Graph, m: Move)
    requires Good(g) && Allowed(g, m)
    requires OfSession(m)
    ensures Good(SessionStep(g, m)) && SameRegion(g, SessionStep(g, m))
  {
    match m
    case BeginOpen(s, c) => OpenBeginKeeps(g, s, c);
    case FailOpen(s) => OpenFailedKeeps(g, s);
    case FinishOpen(s) => OpenDoneGood(g, s);
    case BeginClose(s) => CloseBeginGood(g, s);
    case EndClose(s) => CloseEndKeeps(g, s);
  }

  lemma BufferStepKeeps(g: Graph, m: Move)
    requires Good(g) && Allowed(g, m)
    requires OfBuffer(m)
    ensures Good(BufferStep(g, m)) && SameRegion(g, BufferStep(g, m))
  {
    match m
    case Allocate(c, b, ns, size, memory, descriptors, exported) =>
      AllocIoKeeps(g, c, b, ns, size, memory, descriptors, exported);
    case ReleaseFile(b) => FreeIoKeeps(g, b);
    case RpcAllocate(b, ns, size, memory, descriptors) => AllocRpcKeeps(g, b, ns, size, memory, descriptors);
    case RpcRelease(b) => FreeRpcKeeps(g, b);
    case Export(c, b, want, exported) => ExportKeeps(g, c, b, want, exported);
  }

  lemma TeeKeeps(g: Graph)
    requires Good(g)
    ensures Good(GetTee(g)) && (g.pending > 0 ==> Good(PutTee(g)))
  {
    GoodMeans(g);
    GoodMeans(GetTee(g));
    if g.pending > 0 { GoodMeans(PutTee(g)); }
  }

  /** Every move of every thread keeps the lists, the counters and the pool in agreement. */
  lemma StepKeepsGood(g: Graph, m: Move)
    requires Good(g) && Allowed(g, m)
    ensures Good(Step(g, m)) && SameRegion(g, Step(g, m))
  {
    if OfSession(m) {
      SessionStepKeeps(g, m);
    } else if OfBuffer(m) {
      BufferStepKeeps(g, m);
    } else if m.CreateContext? {
      AddContextKeeps(g, m.c);
    } else if m.DestroyContext? {
      DestroyKeeps(g, m.c);
    } else if m.TakeBlock? {
      BorrowKeeps(g, m.size, m.alignment, m.descriptors);
    } else if m.GiveBlock? {
      RepayKeeps(g, m.a);
    } else {
      TeeKeeps(g);
    }
  }

  /** The driver after its probe: one reference of its own, an empty pool. */
  function Boot(base: nat, size: nat): Graph
  {
    Graph(1, 0, Stat(0, 0), Stat(0, 0), Stat(0, 0), [], map[], map[], map[], [], Initial(base, size), {})
  }

  lemma BootGood(base: nat, size: nat)
    requires 0 < base && 0 < size && base + size <= HALF_WORD
    ensures Good(Boot(base, size))
  {
    GoodMeans(Boot(base, size));
    InitialInv(base, size);
    var g := Boot(base, size);
    assert Where(g.buffers, Unexported()) == {} && Where(g.buffers, HeldByFile()) == {}
      && Where(g.buffers, OnAList()) == {};
    assert Where(g.sessions, Listed()) == {};
  }

  /** A run all of whose moves are allowed. */
  ghost predicate Legal(g: Graph, ms: seq<Move>)
    requires Good(g)
    decreases |ms|
  {
    ms == [] || (Allowed(g, ms[0]) && (StepKeepsGood(g, ms[0]); Legal(Step(g, ms[0]), ms[1..])))
  }

  function Run(g: Graph, ms: seq<Move>): Graph
    requires Good(g) && Legal(g, ms)
    decreases |ms|
  {
    if ms == [] then g
    else
      StepKeepsGood(g, ms[0]);
      Run(Step(g, ms[0]), ms[1..])
  }

  lemma {:induction false} RunKeepsGood(g: Graph, ms: seq<Move>)
    requires Good(g) && Legal(g, ms)
    ensures Good(Run(g, ms)) && SameRegion(g, Run(g, ms))
    decreases |ms|
  {
    if ms != [] {
      StepKeepsGood(g, ms[0]);
      RunKeepsGood(Step(g, ms[0]), ms[1..]);
    }
  }

  // ---------------------------------------------------------------- conservation

  /** The sum over a list of contexts of the length of one of their lists. */
  function SumOver(contexts: map<TeeContext, Ctx>, cs: seq<TeeContext>, length: Ctx -> nat): nat
  {
    if cs == [] then 0
    else (if cs[0] in contexts then length(contexts[cs[0]]) else 0) + SumOver(contexts, cs[1..], length)
  }

  function PartOf<T>(owner: map<T, TeeContext>, c: TeeContext): set<T> { set t | t in owner && owner[t] == c }

  /** owner without the part of c: the other parts stay, and the sizes add up. */
  lemma PartLeaves<T>(owner: map<T, TeeContext>, c: TeeContext)
    ensures |owner - PartOf(owner, c)| + |PartOf(owner, c)| == |owner|
    ensures forall d :: d != c ==> PartOf(owner - PartOf(owner, c), d) == PartOf(owner, d)
  {
    var rest := owner - PartOf(owner, c);
    assert rest.Keys == owner.Keys - PartOf(owner, c) && PartOf(owner, c) <= owner.Keys;
    assert |rest| == |rest.Keys| && |owner| == |owner.Keys|;
  }

  /** Lists of different contexts have nothing in common, so their lengths add up to the whole. */
  lemma {:induction false} PartsAddUp<T>(contexts: map<TeeContext, Ctx>, cs: seq<TeeContext>, length: Ctx -> nat,
      owner: map<T, TeeContext>)
    requires Distinct(cs)
    requires forall c :: c in cs ==> c in contexts && length(contexts[c]) == |PartOf(owner, c)|
    requires forall t :: t in owner ==> owner[t] in cs
    ensures SumOver(contexts, cs, length) == |owner|
  {
    if cs == [] {
      assert owner == map[];
    } else {
      var c, rest := cs[0], cs[1..];
      var left := owner - PartOf(owner, c);
      assert cs == [c] + rest;
      PartLeaves(owner, c);
      forall d | d in rest ensures d in contexts && length(contexts[d]) == |PartOf(left, d)| {
        assert d in cs && d != c;
      }
      PartsAddUp(contexts, rest, length, left);
    }
  }

  /** g is what some run of the driver leads to, from its probe on. */
  ghost predicate Reached(base: nat, size: nat, ms: seq<Move>, g: Graph)
  {
    && 0 < base && 0 < size && base + size <= HALF_WORD
    && (BootGood(base, size); Legal(Boot(base, size), ms) && g == Run(Boot(base, size), ms))
  }

  lemma ReachedGood(base: nat, size: nat, ms: seq<Move>, g: Graph)
    requires Reached(base, size, ms, g)
    ensures Good(g) && g.pool.base == base && g.pool.size == size
  {
    BootGood(base, size);
    RunKeepsGood(Boot(base, size), ms);
  }

  /** In every state of every run: the tee counts one reference of its own, one for each thread on
      its way to use it, and one for each context, session and file of a buffer; a context counts one
      for its owner until it is destroyed, one for each of its sessions, opening ones included, and
      one for each of its buffers; the statistics count what is on the lists. */
  lemma ReferencesConserved(base: nat, size: nat, ms: seq<Move>, g: Graph)
    requires Reached(base, size, ms, g)
    ensures g.refcount == 1 + g.pending + |g.contexts| + |g.sessions| + SumOver(g.contexts, g.list, BuffersOf)
    ensures forall c :: c in g.contexts ==>
      var x := g.contexts[c];
      x.refcount == (if x.closed then 0 else 1) + |Where(g.sessions, InContext(c))| + |x.buffers|
    ensures g.contextStat.count == |g.list| == |g.contexts|
    ensures g.sessionStat.count == SumOver(g.contexts, g.list, SessionsOf)
    ensures g.shmStat.count == |g.rpc| + SumOver(g.contexts, g.list, BuffersOf)
  {
    ReachedGood(base, size, ms, g);
    forall c | c in g.contexts ensures g.contexts[c].refcount
      == (if g.contexts[c].closed then 0 else 1) + |Where(g.sessions, InContext(c))| + |g.contexts[c].buffers|
    {
      ContextCounts(g, c);
    }
    GoodMeans(g);
    ListsCount(g);
    SessionsAddUp(g);
    BuffersAddUp(g);
  }

  lemma ContextCounts(g: Graph, c: TeeContext)
    requires Good(g) && c in g.contexts
    ensures var x := g.contexts[c];
      x.refcount == (if x.closed then 0 else 1) + |Where(g.sessions, InContext(c))| + |x.buffers|
  {
    GoodMeans(g);
    assert OneContextOk(g.contexts, c, null, g.sessions, g.buffers);
    ListsLength(g.contexts[c].buffers, Where(g.buffers, OwnedBy(c)));
  }

  /** A buffer is on the list of its context or on that of the secure world, not on both. */
  lemma OneList(contexts: map<TeeContext, Ctx>, sessions: map<TeeSession, Sess>, buffers: map<TeeShm, Shm>)
    requires Pointers(contexts, sessions, buffers)
    ensures |Where(buffers, OnAList())| == |Where(buffers, Unexported())| + |Where(buffers, HeldByFile())|
  {
    var filed, rpc := Where(buffers, HeldByFile()), Where(buffers, Unexported());
    assert Where(buffers, OnAList()) == filed + rpc;
    assert filed !! rpc by {
      forall b | b in rpc ensures b !in filed { assert BufferOk(buffers[b], contexts); }
    }
  }

  lemma ListsCount(g: Graph)
    requires Good(g)
    ensures |g.list| == |g.contexts|
    ensures |Where(g.buffers, OnAList())| == |g.rpc| + |Where(g.buffers, HeldByFile())|
  {
    GoodMeans(g);
    ListsLength(g.list, g.contexts.Keys);
    assert |g.contexts| == |g.contexts.Keys|;
    ListsLength(g.rpc, Where(g.buffers, Unexported()));
    OneList(g.contexts, g.sessions, g.buffers);
  }

  function BuffersOf(x: Ctx): nat { |x.buffers| }
  function SessionsOf(x: Ctx): nat { |x.sessions| }

  lemma SessionOwners(sessions: map<TeeSession, Sess>) returns (owner: map<TeeSession, TeeContext>)
    ensures owner.Keys == Where(sessions, Listed()) && |owner| == |Where(sessions, Listed())|
    ensures forall s :: s in owner ==> owner[s] == sessions[s].ctx
    ensures forall c :: PartOf(owner, c) == Where(sessions, ListedIn(c))
  {
    owner := map s | s in Where(sessions, Listed()) :: sessions[s].ctx;
    assert |owner| == |owner.Keys|;
  }

  lemma BufferOwners(contexts: map<TeeContext, Ctx>, sessions: map<TeeSession, Sess>, buffers: map<TeeShm, Shm>)
    returns (owner: map<TeeShm, TeeContext>)
    requires Pointers(contexts, sessions, buffers)
    ensures owner.Keys == Where(buffers, HeldByFile()) && |owner| == |Where(buffers, HeldByFile())|
    ensures forall b :: b in owner ==> owner[b] == buffers[b].ctx && owner[b] in contexts
    ensures forall c :: PartOf(owner, c) == Where(buffers, OwnedBy(c))
  {
    forall b | b in Where(buffers, HeldByFile()) ensures buffers[b].ctx in contexts {
      assert BufferOk(buffers[b], contexts);
    }
    owner := map b | b in Where(buffers, HeldByFile()) :: buffers[b].ctx;
    assert |owner| == |owner.Keys|;
  }

  lemma SessionsAddUp(g: Graph)
    requires Good(g)
    ensures SumOver(g.contexts, g.list, SessionsOf) == |Where(g.sessions, Listed())|
  {
    GoodMeans(g);
    var owner := SessionOwners(g.sessions);
    forall c | c in g.list ensures c in g.contexts && SessionsOf(g.contexts[c]) == |PartOf(owner, c)| {
      assert OneContextOk(g.contexts, c, null, g.sessions, g.buffers);
      ListsLength(g.contexts[c].sessions, Where(g.sessions, ListedIn(c)));
    }
    PartsAddUp(g.contexts, g.list, SessionsOf, owner);
  }

  lemma BuffersAddUp(g: Graph)
    requires Good(g)
    ensures SumOver(g.contexts, g.list, BuffersOf) == |Where(g.buffers, HeldByFile())|
  {
    GoodMeans(g);
    var owner := BufferOwners(g.contexts, g.sessions, g.buffers);
    forall c | c in g.list ensures c in g.contexts && BuffersOf(g.contexts[c]) == |PartOf(owner, c)| {
      assert OneContextOk(g.contexts, c, null, g.sessions, g.buffers);
      ListsLength(g.contexts[c].buffers, Where(g.buffers, OwnedBy(c)));
    }
    PartsAddUp(g.contexts, g.list, BuffersOf, owner);
  }

  // ---------------------------------------------------------------- when things are freed

  /** Dropping a reference on d frees nothing but d, and d only if it was closed. */
  lemma PutFrees(g: Graph, d: TeeContext, c: TeeContext)
    requires Wired(g, d) && c in g.contexts
    ensures var n := PutContext(g, d);
      if c in n.contexts then n.contexts[c].closed == g.contexts[c].closed else c == d && g.contexts[c].closed
  {
    LastReference(g, d);
  }

  lemma SessionStepCloses(g: Graph, m: Move, c: TeeContext)
    requires Good(g) && Allowed(g, m) && c in g.contexts
    requires OfSession(m)
    ensures var n := SessionStep(g, m);
      if c in n.contexts then n.contexts[c].closed == g.contexts[c].closed else g.contexts[c].closed
  {
    GoodMeans(g);
    match m
    case FailOpen(s) =>
      DetachUnlistedKeeps(g, s);
      PutFrees(PutTee(DetachUnlisted(g, s)), g.sessions[s].ctx, c);
    case EndClose(s) =>
      DetachListedKeeps(g, s);
      PutFrees(DetachListed(g, s), g.sessions[s].ctx, c);
    case _ =>
  }

  lemma FreeIoCloses(g: Graph, b: TeeShm, c: TeeContext)
    requires Good(g) && b in g.buffers && g.buffers[b].byFile && c in g.contexts
    ensures var n := FreeIo(g, b);
      if c in n.contexts then n.contexts[c].closed == g.contexts[c].closed else g.contexts[c].closed
  {
    GoodMeans(g);
    var d := DetachBuffer(g, b);
    DetachBufferKeeps(g, b);
    DetachBufferCounts(g, b);
    FreeShmKeeps(d, b, g.buffers[b].ctx);
    FreeShmShape(d, b);
    PutFrees(PutTee(FreeShm(d, b)), g.buffers[b].ctx, c);
  }

  /** No context is freed or closed. */
  predicate SameClosed(g: Graph, n: Graph)
  {
    forall c :: c in g.contexts ==> c in n.contexts && n.contexts[c].closed == g.contexts[c].closed
  }

  lemma AllocIoCloses(g: Graph, c: TeeContext, b: TeeShm, nonsecure: bool, size: nat, memory: bool, descriptors: bool,
      exported: bool)
    requires c in g.contexts && Inv(g.pool)
    ensures SameClosed(g, AllocIo(g, c, b, nonsecure, size, memory, descriptors, exported).0)
  {
  }

  lemma ExportCloses(g: Graph, c: TeeContext, b: TeeShm, wantNonsecure: bool, exported: bool)
    requires c in g.contexts && b in g.buffers
    ensures SameClosed(g, ExportRpc(g, c, b, wantNonsecure, exported).0)
  {
  }

  lemma RpcCloses(g: Graph, m: Move)
    requires Inv(g.pool) && Allowed(g, m) && Pointers(g.contexts, g.sessions, g.buffers)
      && (m.RpcAllocate? || m.RpcRelease?)
    ensures BufferStep(g, m).contexts == g.contexts
  {
    if m.RpcRelease? { FreeShmShape(DetachRpc(g, m.b), m.b); }
  }

  lemma BufferStepCloses(g: Graph, m: Move, c: TeeContext)
    requires Good(g) && Allowed(g, m) && c in g.contexts
    requires OfBuffer(m)
    ensures var n := BufferStep(g, m);
      if c in n.contexts then n.contexts[c].closed == g.contexts[c].closed else g.contexts[c].closed
  {
    GoodPointers(g);
    match m
    case Allocate(d, b, ns, size, memory, descriptors, exported) =>
      AllocIoCloses(g, d, b, ns, size, memory, descriptors, exported);
    case ReleaseFile(b) => FreeIoCloses(g, b, c);
    case Export(d, b, want, exported) => ExportCloses(g, d, b, want, exported);
    case _ => RpcCloses(g, m);
  }

  lemma DestroyCloses(g: Graph, d: TeeContext, c: TeeContext)
    requires Good(g) && d in g.contexts && !g.contexts[d].closed && c in g.contexts
    ensures var n := Destroy(g, d);
      if c in n.contexts then n.contexts[c].closed == (g.contexts[c].closed || c == d)
      else g.contexts[c].closed || c == d
  {
    GoodMeans(g);
    var x := g.contexts[d].(closed := true);
    SameContexts(g.contexts, d, x, g.sessions, g.buffers);
    OwnerGivesHand(g.contexts, g.sessions, g.buffers, d);
    PutFrees(g.(contexts := g.contexts[d := x]), d, c);
  }

  lemma StepCloses(g: Graph, m: Move, c: TeeContext)
    requires Good(g) && Allowed(g, m) && c in g.contexts
    ensures var n, closed := Step(g, m), g.contexts[c].closed || m == DestroyContext(c);
      if c in n.contexts then n.contexts[c].closed == closed else closed
  {
    if OfSession(m) {
      SessionStepCloses(g, m, c);
    } else if OfBuffer(m) {
      BufferStepCloses(g, m, c);
    } else if m.DestroyContext? {
      DestroyCloses(g, m.c, c);
    }
  }

  /** A context is freed by exactly the move after which its owner has destroyed it and no session
      of it, opening ones included, and no file of a buffer of it is left. */
  lemma ContextFreedIff(base: nat, size: nat, ms: seq<Move>, g: Graph, m: Move, c: TeeContext)
    requires Reached(base, size, ms, g) && (ReachedGood(base, size, ms, g); Allowed(g, m)) && c in g.contexts
    ensures var n := (ReachedGood(base, size, ms, g); Step(g, m));
      c !in n.contexts <==>
        && (g.contexts[c].closed || m == DestroyContext(c))
        && Where(n.sessions, InContext(c)) == {}
        && Where(n.buffers, OwnedBy(c)) == {}
  {
    ReachedGood(base, size, ms, g);
    StepKeepsGood(g, m);
    StepCloses(g, m, c);
    var n := Step(g, m);
    GoodMeans(n);
    if c in n.contexts {
      assert OneContextOk(n.contexts, c, null, n.sessions, n.buffers);
    } else {
      GoodPointers(n);
      NothingIn(n.contexts, n.sessions, n.buffers, c);
    }
  }

  /** What one of two owners of the storage leaves behind. */
  lemma FreeShmIff(g: Graph, b: TeeShm)
    requires Inv(g.pool) && b in g.buffers && Stored(Live(g.pool.chunks), g.buffers, g.loans, b)
    ensures var n, x := FreeShm(g, b), g.buffers[b];
      && (b in n.buffers <==> x.byRpc || x.byFile)
      && (b in n.buffers ==>
        n.buffers[b].byRpc == x.byRpc && n.buffers[b].byFile == x.byFile && n.buffers[b].ctx == x.ctx)
      && (forall d :: d in g.buffers && d != b ==> d in n.buffers && n.buffers[d] == g.buffers[d])
  {
    var x := g.buffers[b];
    assert OneKept(Live(g.pool.chunks), g.buffers, b, b);
    FindLive(g.pool, x.paddr);
  }

  lemma FreeIoBuffers(g: Graph, b: TeeShm)
    requires Inv(g.pool) && b in g.buffers && g.buffers[b].ctx in g.contexts
    ensures FreeIo(g, b).buffers == FreeShm(DetachBuffer(g, b), b).buffers
    ensures FreeIo(g, b).pool == FreeShm(DetachBuffer(g, b), b).pool
  {
  }

  lemma ReleasesFile(g: Graph, b: TeeShm)
    requires Pointers(g.contexts, g.sessions, g.buffers) && Inv(g.pool)
    requires Stored(Live(g.pool.chunks), g.buffers, g.loans, null) && b in g.buffers && g.buffers[b].byFile
    ensures Fate(g, FreeIo(g, b), b, g.buffers[b].byRpc, false, g.buffers[b].ctx)
  {
    OwnerLeaves(Live(g.pool.chunks), g.buffers, g.loans, b, g.buffers[b].(byFile := false));
    FreeShmIff(DetachBuffer(g, b), b);
    FreeIoBuffers(g, b);
  }

  /** b is left with the given owners and context, or freed if there are none; no other is touched. */
  predicate Fate(g: Graph, n: Graph, b: TeeShm, rpc: bool, file: bool, ctx: TeeContext?)
  {
    && (b in n.buffers <==> rpc || file)
    && (b in n.buffers ==> n.buffers[b].byRpc == rpc && n.buffers[b].byFile == file && n.buffers[b].ctx == ctx)
    && (forall d :: d in g.buffers && d != b ==> d in n.buffers && n.buffers[d] == g.buffers[d])
  }

  lemma ReleasesRpc(g: Graph, b: TeeShm)
    requires Inv(g.pool) && Stored(Live(g.pool.chunks), g.buffers, g.loans, null) && b in g.buffers
      && g.buffers[b].byRpc
    ensures Fate(g, FreeRpc(g, b), b, false, g.buffers[b].byFile, g.buffers[b].ctx)
  {
    OwnerLeaves(Live(g.pool.chunks), g.buffers, g.loans, b, g.buffers[b].(byRpc := false));
    FreeShmIff(DetachRpc(g, b), b);
  }

  predicate Exports(g: Graph, m: Move, b: TeeShm)
    requires b in g.buffers
  {
    m.Export? && m.b == b && m.exported && m.wantNonsecure == g.buffers[b].nonsecure
  }

  predicate OtherBuffersSame(g: Graph, n: Graph)
  {
    forall d :: d in g.buffers ==> d in n.buffers && n.buffers[d] == g.buffers[d]
  }

  lemma SessionsLeaveBuffers(g: Graph, m: Move)
    requires Pointers(g.contexts, g.sessions, g.buffers) && Allowed(g, m)
    requires OfSession(m)
    ensures SessionStep(g, m).buffers == g.buffers
  {
  }

  lemma AllocationsLeaveOthers(g: Graph, m: Move)
    requires Pointers(g.contexts, g.sessions, g.buffers) && Inv(g.pool) && Allowed(g, m)
      && (m.Allocate? || m.RpcAllocate?)
    ensures OtherBuffersSame(g, BufferStep(g, m))
  {
  }

  lemma ExportFate(g: Graph, c: TeeContext, b: TeeShm, wantNonsecure: bool, exported: bool)
    requires c in g.contexts && b in g.buffers && Unexported()(g.buffers[b])
    ensures var n, x := ExportRpc(g, c, b, wantNonsecure, exported).0, g.buffers[b];
      if exported && wantNonsecure == x.nonsecure then n.buffers == g.buffers[b := Exported(x, c)] else n == g
  {
    assert ClaimRpc(g, c, b).buffers[b := Exported(g.buffers[b], c)] == g.buffers[b := Exported(g.buffers[b], c)];
  }

  /** Whether a buffer is there after a move, and for whom. */
  predicate Follows(g: Graph, m: Move, n: Graph, b: TeeShm)
    requires b in g.buffers
  {
    var x := g.buffers[b];
    var rpc, file := x.byRpc && m != RpcRelease(b), (x.byFile && m != ReleaseFile(b)) || Exports(g, m, b);
    && (b in n.buffers <==> rpc || file)
    && (b in n.buffers ==> n.buffers[b].byRpc == rpc && n.buffers[b].byFile == file)
    && (b in n.buffers ==> n.buffers[b].ctx == if Exports(g, m, b) then m.c else x.ctx)
  }

  lemma FileFollows(g: Graph, d: TeeShm, b: TeeShm)
    requires Pointers(g.contexts, g.sessions, g.buffers) && Inv(g.pool)
      && Stored(Live(g.pool.chunks), g.buffers, g.loans, null)
    requires Allowed(g, ReleaseFile(d)) && b in g.buffers
    ensures Follows(g, ReleaseFile(d), FreeIo(g, d), b)
  {
    assert OneKept(Live(g.pool.chunks), g.buffers, b, null);
    ReleasesFile(g, d);
  }

  lemma RpcFollows(g: Graph, d: TeeShm, b: TeeShm)
    requires Inv(g.pool) && Stored(Live(g.pool.chunks), g.buffers, g.loans, null)
    requires Allowed(g, RpcRelease(d)) && b in g.buffers
    ensures Follows(g, RpcRelease(d), FreeRpc(g, d), b)
  {
    assert OneKept(Live(g.pool.chunks), g.buffers, b, null);
    ReleasesRpc(g, d);
  }

  lemma ExportFollows(g: Graph, m: Move, b: TeeShm)
    requires Stored(Live(g.pool.chunks), g.buffers, g.loans, null) && m.Export? && Allowed(g, m) && b in g.buffers
    ensures Follows(g, m, ExportRpc(g, m.c, m.b, m.wantNonsecure, m.exported).0, b)
  {
    assert OneKept(Live(g.pool.chunks), g.buffers, b, null);
    ExportFate(g, m.c, m.b, m.wantNonsecure, m.exported);
  }

  lemma AllocationFollows(g: Graph, m: Move, n: Graph, b: TeeShm)
    requires Stored(Live(g.pool.chunks), g.buffers, g.loans, null) && b in g.buffers && OtherBuffersSame(g, n)
    requires !(m.ReleaseFile? || m.RpcRelease? || m.Export?)
    ensures Follows(g, m, n, b)
  {
    assert OneKept(Live(g.pool.chunks), g.buffers, b, null);
  }

  lemma BufferStepFate(g: Graph, m: Move, b: TeeShm)
    requires Pointers(g.contexts, g.sessions, g.buffers) && Inv(g.pool)
    requires Stored(Live(g.pool.chunks), g.buffers, g.loans, null) && Allowed(g, m) && b in g.buffers
    requires OfBuffer(m)
    ensures Follows(g, m, BufferStep(g, m), b)
  {
    if m.ReleaseFile? {
      FileFollows(g, m.b, b);
    } else if m.RpcRelease? {
      RpcFollows(g, m.b, b);
    } else if m.Export? {
      ExportFollows(g, m, b);
    } else {
      AllocationsLeaveOthers(g, m);
      AllocationFollows(g, m, BufferStep(g, m), b);
    }
  }

  lemma OthersLeaveBuffers(g: Graph, m: Move)
    requires Good(g) && Allowed(g, m)
    requires !OfBuffer(m)
    ensures Step(g, m).buffers == g.buffers
  {
    GoodPointers(g);
    if OfSession(m) { SessionsLeaveBuffers(g, m); }
  }

  lemma BufferFate(g: Graph, m: Move, b: TeeShm)
    requires Good(g) && Allowed(g, m) && b in g.buffers
    ensures Follows(g, m, Step(g, m), b)
  {
    GoodMeans(g);
    if OfBuffer(m) {
      BufferStepFate(g, m, b);
    } else {
      OthersLeaveBuffers(g, m);
      AllocationFollows(g, m, Step(g, m), b);
    }
  }

  /** The last owner of a static buffer gives its block back to the pool. */
  lemma LastOwnerEmpties(g: Graph, m: Move, b: TeeShm)
    requires Good(g) && Allowed(g, m) && b in g.buffers && !g.buffers[b].nonsecure
    requires (m == ReleaseFile(b) && !g.buffers[b].byRpc) || (m == RpcRelease(b) && !g.buffers[b].byFile)
    ensures g.buffers[b].paddr !in Live(Step(g, m).pool.chunks)
  {
    GoodMeans(g);
    var x := g.buffers[b];
    assert OneKept(Live(g.pool.chunks), g.buffers, b, null);
    GoodPointers(g);
    FreeKeeps(g.pool, x.paddr);
    if m == ReleaseFile(b) {
      FreeIoBuffers(g, b);
    }
  }

  predicate LastRelease(m: Move, b: TeeShm, x: Shm)
  {
    (m == ReleaseFile(b) && !x.byRpc) || (m == RpcRelease(b) && !x.byFile)
  }

  lemma OwnersCounted(g: Graph, b: TeeShm)
    requires Good(g) && b in g.buffers
    ensures var x := g.buffers[b];
      && x.Owners() > 0
      && (x.nonsecure ==> x.ref == x.Owners())
      && (!x.nonsecure ==> x.paddr in Live(g.pool.chunks) && Live(g.pool.chunks)[x.paddr].counter == x.Owners())
  {
    GoodMeans(g);
    assert OneKept(Live(g.pool.chunks), g.buffers, b, null);
  }

  lemma FateOfBuffer(g: Graph, m: Move, n: Graph, b: TeeShm)
    requires b in g.buffers && Allowed(g, m) && g.buffers[b].Owners() > 0 && Follows(g, m, n, b)
    ensures b !in n.buffers <==> LastRelease(m, b, g.buffers[b])
    ensures b in n.buffers && g.buffers[b].ctx != null ==> n.buffers[b].ctx == g.buffers[b].ctx
  {
  }

  /** Dual ownership, in every run and every interleaving: the count of a buffer is the number of
      those who are still to free it; its storage goes with the last of them, whichever of the file
      and the secure world that is, and its place in the pool with it; and once it has been exported
      it is not found for another export as long as it lives. */
  lemma BufferOwnership(base: nat, size: nat, ms: seq<Move>, g: Graph, m: Move, b: TeeShm)
    requires Reached(base, size, ms, g) && (ReachedGood(base, size, ms, g); Allowed(g, m)) && b in g.buffers
    ensures var x := g.buffers[b];
      && x.Owners() > 0
      && (x.nonsecure ==> x.ref == x.Owners())
      && (!x.nonsecure ==> x.paddr in Live(g.pool.chunks) && Live(g.pool.chunks)[x.paddr].counter == x.Owners())
    ensures var n, x := (ReachedGood(base, size, ms, g); Step(g, m)), g.buffers[b];
      && (b !in n.buffers <==> LastRelease(m, b, x))
      && (LastRelease(m, b, x) && !x.nonsecure ==> x.paddr !in Live(n.pool.chunks))
      && (b in n.buffers && x.ctx != null ==> n.buffers[b].ctx == x.ctx && b !in n.rpc)
  {
    ReachedGood(base, size, ms, g);
    OwnersCounted(g, b);
    BufferFate(g, m, b);
    StepKeepsGood(g, m);
    var n := Step(g, m);
    FateOfBuffer(g, m, n, b);
    OnRpcList(n, b);
    if LastRelease(m, b, g.buffers[b]) && !g.buffers[b].nonsecure { LastOwnerEmpties(g, m, b); }
  }

  /** When the last context is gone and the secure world and the other users of the pool have given
      back what they took, only the driver's own reference is left, nothing is counted, and the pool
      is as it was created. */
  lemma DrainedDriver(base: nat, size: nat, ms: seq<Move>, g: Graph)
    requires Reached(base, size, ms, g)
    requires g.pending == 0 && g.contexts == map[] && g.rpc == [] && g.loans == {}
    requires forall b :: b in g.buffers ==> !g.buffers[b].byRpc
    ensures g.refcount == 1 && g.sessions == map[] && g.buffers == map[] && g.list == []
    ensures g.contextStat.count == g.sessionStat.count == g.shmStat.count == 0
    ensures g.pool == Initial(base, size)
  {
    ReachedGood(base, size, ms, g);
    NothingLeft(g);
    InitialInv(base, size);
    Canonical(g.pool, Initial(base, size));
  }

  lemma NothingLeft(g: Graph)
    requires Good(g) && g.contexts == map[] && g.loans == {} && forall b :: b in g.buffers ==> !g.buffers[b].byRpc
    ensures g.sessions == map[] && g.buffers == map[] && g.list == [] && Live(g.pool.chunks) == map[]
    ensures g.refcount == 1 + g.pending && g.contextStat.count == g.sessionStat.count == g.shmStat.count == 0
  {
    GoodMeans(g);
    forall b | b in g.buffers ensures false {
      OwnersCounted(g, b);
    }
    assert g.buffers == map[];
    assert g.sessions == map[];
    assert Where(g.buffers, HeldByFile()) == {} && Where(g.buffers, OnAList()) == {}
      && Where(g.sessions, Listed()) == {};
    forall a | a in Live(g.pool.chunks) ensures HasBuffer(g.buffers, a) { }
    assert Live(g.pool.chunks) == map[];
    ListsLength(g.list, g.contexts.Keys);
  }

  /** The tee is never taken for unused: the warnings of tee_get and tee_put about a count of 1 and
      of 0 are not printed. */
  lemma TeeStaysReferenced(base: nat, size: nat, ms: seq<Move>, g: Graph)
    requires Reached(base, size, ms, g)
    ensures g.refcount >= 1 && GetTee(g).refcount >= 2 && (g.pending > 0 ==> PutTee(g).refcount >= 1)
  {
    ReachedGood(base, size, ms, g);
    GoodMeans(g);
  }

  /** tee_shm_alloc_io reports success exactly when there is a new buffer, or when tee_shm_alloc
      gave NULL, which is no error to it: an unsatisfied nonsecure request, or a static one whose
      size wraps to 0. */
  lemma SuccessWithoutBuffer(g: Graph, c: TeeContext, b: TeeShm, nonsecure: bool, size: nat, memory: bool,
      descriptors: bool, exported: bool)
    requires Inv(g.pool) && c in g.contexts && b !in g.buffers
    ensures var (n, ret) := AllocIo(g, c, b, nonsecure, size, memory, descriptors, exported);
      ret == 0 && b !in n.buffers <==> if nonsecure then size == 0 || !memory else StaticSize(size) == 0
  {
  }
}
