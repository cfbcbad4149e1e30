/** What each move brings in, changes and takes away. */
module ObjectGraphFates {

  import opened Collections
  import opened Alignment
  import opened ShmPoolModel
  import opened ShmPoolOps
  import Laws = ShmPoolLaws
  import opened ObjectGraph
  import opened ObjectGraphProofs
  import opened ObjectGraphLaws

  // ---------------------------------------------------------------- sessions

  /** Which sessions there are after a move, of which context and in which phase. */
  predicate SessionsFollow(g: Graph, m: Move, n: Graph, s: TeeSession)
  {
    if m.BeginOpen? && m.s == s then s in n.sessions && n.sessions[s] == Sess(m.c, Opening)
    else if s !in g.sessions || m == FailOpen(s) || m == EndClose(s) then s !in n.sessions
    else
      && s in n.sessions && n.sessions[s].ctx == g.sessions[s].ctx
      && n.sessions[s].phase ==
         if m == FinishOpen(s) then Open else if m == BeginClose(s) then Closing else g.sessions[s].phase
  }

  lemma PutLeavesSessions(g: Graph, c: TeeContext)
    requires c in g.contexts
    ensures PutContext(g, c).sessions == g.sessions && PutContext(g, c).buffers == g.buffers
    ensures PutContext(g, c).pending == g.pending && PutContext(g, c).loans == g.loans
  {
  }

  lemma SessionMovesFollow(g: Graph, m: Move, s: TeeSession)
    requires Pointers(g.contexts, g.sessions, g.buffers) && Allowed(g, m) && OfSession(m)
    ensures SessionsFollow(g, m, SessionStep(g, m), s)
  {
    match m
    case BeginOpen(_, _) =>
    case FailOpen(d) => PutLeavesSessions(PutTee(DetachUnlisted(g, d)), g.sessions[d].ctx);
    case FinishOpen(_) =>
    case BeginClose(_) =>
    case EndClose(d) => PutLeavesSessions(DetachListed(g, d), g.sessions[d].ctx);
  }

  lemma BuffersLeaveSessions(g: Graph, m: Move)
    requires Pointers(g.contexts, g.sessions, g.buffers) && Inv(g.pool) && Allowed(g, m) && OfBuffer(m)
    ensures BufferStep(g, m).sessions == g.sessions
  {
    match m
    case Allocate(_, _, _, _, _, _, _) =>
    case ReleaseFile(b) =>
      FreeShmShape(DetachBuffer(g, b), b);
      PutLeavesSessions(PutTee(FreeShm(DetachBuffer(g, b), b)), g.buffers[b].ctx);
    case RpcAllocate(_, _, _, _, _) =>
    case RpcRelease(b) => FreeShmShape(DetachRpc(g, b), b);
    case Export(_, _, _, _) =>
  }

  /** A session opens, is open, is closing and is gone by its own moves, and by no others. */
  lemma SessionFate(g: Graph, m: Move, s: TeeSession)
    requires Good(g) && Allowed(g, m)
    ensures SessionsFollow(g, m, Step(g, m), s)
  {
    GoodPointers(g);
    if OfSession(m) {
      SessionMovesFollow(g, m, s);
    } else if OfBuffer(m) {
      BuffersLeaveSessions(g, m);
    } else if m.DestroyContext? {
      PutLeavesSessions(g.(contexts := g.contexts[m.c := g.contexts[m.c].(closed := true)]), m.c);
    }
  }

  // ---------------------------------------------------------------- contexts

  /** No context appears. */
  predicate NoNewContext(g: Graph, n: Graph) { forall c :: c in n.contexts ==> c in g.contexts }

  lemma SessionMovesBringNone(g: Graph, m: Move)
    requires Pointers(g.contexts, g.sessions, g.buffers) && Allowed(g, m) && OfSession(m)
    ensures NoNewContext(g, SessionStep(g, m))
  {
  }

  lemma BufferMovesBringNone(g: Graph, m: Move)
    requires Pointers(g.contexts, g.sessions, g.buffers) && Inv(g.pool) && Allowed(g, m) && OfBuffer(m)
    ensures NoNewContext(g, BufferStep(g, m))
  {
    match m
    case Allocate(_, _, _, _, _, _, _) =>
    case ReleaseFile(b) => FreeShmShape(DetachBuffer(g, b), b);
    case RpcAllocate(_, _, _, _, _) =>
    case RpcRelease(b) => FreeShmShape(DetachRpc(g, b), b);
    case Export(_, _, _, _) =>
  }

  /** A context appears by its creation alone, open, listed, and with its owner's reference only. Which
      contexts go, and which are closed, ContextFreedIff and StepCloses say. */
  lemma NewContext(g: Graph, m: Move, c: TeeContext)
    requires Good(g) && Allowed(g, m) && c !in g.contexts
    ensures c in Step(g, m).contexts <==> m == CreateContext(c)
    ensures m == CreateContext(c) ==>
      Step(g, m).contexts[c] == Ctx(1, [], [], false) && c in Step(g, m).list
  {
    GoodPointers(g);
    if OfSession(m) { SessionMovesBringNone(g, m); }
    else if OfBuffer(m) { BufferMovesBringNone(g, m); }
  }

  // ---------------------------------------------------------------- buffers

  /** The storage that a move asks for. */
  function Asked(g: Graph, m: Move): Storage
    requires m.Allocate? || m.RpcAllocate?
  {
    TakeStorage(g.pool, m.nonsecure, m.size, m.memory, m.descriptors)
  }

  lemma AllocationBrings(g: Graph, m: Move, b: TeeShm)
    requires Pointers(g.contexts, g.sessions, g.buffers) && Inv(g.pool) && b !in g.buffers
    requires Allowed(g, m) && (m.Allocate? || m.RpcAllocate?)
    ensures var n := BufferStep(g, m);
      && (b in n.buffers <==> m.b == b && Asked(g, m).Taken? && (m.Allocate? ==> m.exported))
      && (b in n.buffers ==>
           n.buffers[b] == Shm(m.nonsecure, Asked(g, m).paddr, 1, if m.Allocate? then m.c else null,
                               m.RpcAllocate?, m.Allocate?))
  {
  }

  lemma OthersBringNone(g: Graph, m: Move, b: TeeShm)
    requires Pointers(g.contexts, g.sessions, g.buffers) && Inv(g.pool) && b !in g.buffers
    requires Allowed(g, m) && OfBuffer(m) && !m.Allocate? && !m.RpcAllocate?
    ensures b !in BufferStep(g, m).buffers
  {
    match m
    case ReleaseFile(d) =>
      FreeIoBuffers(g, d);
      FreeShmShape(DetachBuffer(g, d), d);
    case RpcRelease(d) => FreeShmShape(DetachRpc(g, d), d);
    case Export(_, _, _, _) =>
  }

  /** A buffer appears by an allocation that gets its storage, and its file if it needs one: for the
      client with a file and on its context, for the secure world with neither. What becomes of it
      BufferFate says. */
  lemma NewBuffer(g: Graph, m: Move, b: TeeShm)
    requires Good(g) && Allowed(g, m) && b !in g.buffers
    ensures b in Step(g, m).buffers
      <==> (m.Allocate? || m.RpcAllocate?) && m.b == b && Asked(g, m).Taken? && (m.Allocate? ==> m.exported)
    ensures b in Step(g, m).buffers ==>
      var x := Step(g, m).buffers[b];
      && x.nonsecure == m.nonsecure && x.paddr == Asked(g, m).paddr && x.ctx == (if m.Allocate? then m.c else null)
      && x.byFile == m.Allocate? && x.byRpc == m.RpcAllocate?
  {
    GoodPointers(g);
    if m.Allocate? || m.RpcAllocate? { AllocationBrings(g, m, b); }
    else if OfBuffer(m) { OthersBringNone(g, m, b); }
    else { OthersLeaveBuffers(g, m); }
  }

  /** Where the lists of the driver get their new entries: at the end, but for an exported buffer, which
      comes to the front of its context's list. */
  lemma NewEntries(g: Graph, m: Move)
    requires Good(g) && Allowed(g, m)
    ensures m.CreateContext? ==> Step(g, m).list == g.list + [m.c]
    ensures m.FinishOpen? ==>
      var c := g.sessions[m.s].ctx;
      c in g.contexts && c in Step(g, m).contexts
      && Step(g, m).contexts[c].sessions == g.contexts[c].sessions + [m.s]
    ensures m.Allocate? && m.b in Step(g, m).buffers ==>
      m.c in Step(g, m).contexts && Step(g, m).contexts[m.c].buffers == g.contexts[m.c].buffers + [m.b]
    ensures m.Export? && Exports(g, m, m.b) ==>
      m.c in Step(g, m).contexts && Step(g, m).contexts[m.c].buffers == [m.b] + g.contexts[m.c].buffers
    ensures m.RpcAllocate? && m.b in Step(g, m).buffers ==> Step(g, m).rpc == g.rpc + [m.b]
  {
    GoodPointers(g);
  }

  /** What an allocation for a client and an export return: 0, or -12 and no change. An allocation that
      gets NULL for its storage returns 0 as well. */
  lemma ReturnCodes(g: Graph, m: Move)
    requires Good(g) && Allowed(g, m)
    ensures m.Allocate? ==>
      var ret := AllocIo(g, m.c, m.b, m.nonsecure, m.size, m.memory, m.descriptors, m.exported).1;
      ret == if Asked(g, m).Nothing? || (Asked(g, m).Taken? && m.exported) then 0 else -12
    ensures m.Export? ==>
      ExportRpc(g, m.c, m.b, m.wantNonsecure, m.exported).1 == (if Exports(g, m, m.b) then 0 else -12)
      && (!Exports(g, m, m.b) ==> Step(g, m) == g)
  {
    GoodPointers(g);
  }

  // ---------------------------------------------------------------- references on their way, and loans

  /** The references of the tee between a tee_get and its use. */
  function PendingAfter(g: Graph, m: Move): int
  {
    if m.TakeTee? then g.pending + 1
    else if m.DropTee? || m.CreateContext? || m.BeginOpen? then g.pending - 1
    else g.pending
  }

  function LoansAfter(g: Graph, m: Move): set<nat>
  {
    match m
    case TakeBlock(size, alignment, descriptors) =>
      var r := Alloc(g.pool, size, alignment, descriptors).1;
      if r == 0 then g.loans else g.loans + {r}
    case GiveBlock(a) => g.loans - {a}
    case _ => g.loans
  }

  lemma SessionMovesKeepBooks(g: Graph, m: Move)
    requires Pointers(g.contexts, g.sessions, g.buffers) && Allowed(g, m) && OfSession(m)
    ensures SessionStep(g, m).pending == PendingAfter(g, m) && SessionStep(g, m).loans == g.loans
    ensures SessionStep(g, m).pool == g.pool
  {
  }

  lemma BufferMovesKeepBooks(g: Graph, m: Move)
    requires Pointers(g.contexts, g.sessions, g.buffers) && Inv(g.pool) && Allowed(g, m) && OfBuffer(m)
    ensures BufferStep(g, m).pending == g.pending && BufferStep(g, m).loans == g.loans
  {
    match m
    case Allocate(_, _, _, _, _, _, _) =>
    case ReleaseFile(b) => FreeShmShape(DetachBuffer(g, b), b);
    case RpcAllocate(_, _, _, _, _) =>
    case RpcRelease(b) => FreeShmShape(DetachRpc(g, b), b);
    case Export(_, _, _, _) =>
  }

  /** Which references of the tee are on their way and which blocks are lent after a move. */
  lemma BooksFollow(g: Graph, m: Move)
    requires Good(g) && Allowed(g, m)
    ensures Step(g, m).pending == PendingAfter(g, m) && Step(g, m).loans == LoansAfter(g, m)
  {
    GoodPointers(g);
    if OfSession(m) { SessionMovesKeepBooks(g, m); }
    else if OfBuffer(m) { BufferMovesKeepBooks(g, m); }
    else if m.DestroyContext? {
      PutLeavesSessions(g.(contexts := g.contexts[m.c := g.contexts[m.c].(closed := true)]), m.c);
    }
  }

  // ---------------------------------------------------------------- the statistics

  /** The maximum is raised with the count, and by nothing else. */
  predicate Raised(s: Stat, n: Stat) { n.max == if n.count > s.max then n.count else s.max }

  predicate PeaksFollow(g: Graph, n: Graph)
  {
    Raised(g.contextStat, n.contextStat) && Raised(g.sessionStat, n.sessionStat) && Raised(g.shmStat, n.shmStat)
  }

  predicate Peaked(g: Graph)
  {
    g.contextStat.count <= g.contextStat.max && g.sessionStat.count <= g.sessionStat.max
    && g.shmStat.count <= g.shmStat.max
  }

  lemma SessionPeaks(g: Graph, m: Move)
    requires Pointers(g.contexts, g.sessions, g.buffers) && Allowed(g, m) && OfSession(m) && Peaked(g)
    ensures PeaksFollow(g, SessionStep(g, m))
  {
  }

  lemma BufferPeaks(g: Graph, m: Move)
    requires Pointers(g.contexts, g.sessions, g.buffers) && Inv(g.pool) && Allowed(g, m) && OfBuffer(m) && Peaked(g)
    ensures PeaksFollow(g, BufferStep(g, m))
  {
    match m
    case Allocate(_, _, _, _, _, _, _) =>
    case ReleaseFile(b) => FreeShmShape(DetachBuffer(g, b), b);
    case RpcAllocate(_, _, _, _, _) =>
    case RpcRelease(b) => FreeShmShape(DetachRpc(g, b), b);
    case Export(_, _, _, _) =>
  }

  lemma StepPeaks(g: Graph, m: Move)
    requires Good(g) && Allowed(g, m)
    ensures PeaksFollow(g, Step(g, m)) && Peaked(g)
  {
    GoodMeans(g);
    if OfSession(m) { SessionPeaks(g, m); }
    else if OfBuffer(m) { BufferPeaks(g, m); }
  }

  /** One of the three statistics. */
  datatype Which = OfContexts | OfSessions | OfBuffers

  function StatOf(x: Which, g: Graph): Stat
  {
    match x
    case OfContexts => g.contextStat
    case OfSessions => g.sessionStat
    case OfBuffers => g.shmStat
  }

  function Larger(a: int, b: int): int { if a > b then a else b }

  /** The largest of the counts on a run, and of a value before it. */
  function Peak(x: Which, g: Graph, ms: seq<Move>, before: int): int
    requires Good(g) && Legal(g, ms)
    decreases |ms|
  {
    if ms == [] then before
    else
      StepKeepsGood(g, ms[0]);
      Peak(x, Step(g, ms[0]), ms[1..], Larger(before, StatOf(x, Step(g, ms[0])).count))
  }

  lemma MaxFollows(x: Which, g: Graph, m: Move)
    requires Good(g) && Allowed(g, m)
    ensures StatOf(x, Step(g, m)).max == Larger(StatOf(x, g).max, StatOf(x, Step(g, m)).count)
  {
    StepPeaks(g, m);
  }

  lemma {:induction false} RunPeaks(x: Which, g: Graph, ms: seq<Move>)
    requires Good(g) && Legal(g, ms)
    ensures StatOf(x, Run(g, ms)).max == Peak(x, g, ms, StatOf(x, g).max)
    decreases |ms|
  {
    if ms != [] {
      MaxFollows(x, g, ms[0]);
      StepKeepsGood(g, ms[0]);
      RunPeaks(x, Step(g, ms[0]), ms[1..]);
    }
  }

  /** In every run the maxima of the statistics are the largest counts that there have been. */
  lemma MaximaReached(base: nat, size: nat, ms: seq<Move>, g: Graph, x: Which)
    requires Reached(base, size, ms, g)
    ensures Good(Boot(base, size)) && Legal(Boot(base, size), ms)
    ensures StatOf(x, g).max == Peak(x, Boot(base, size), ms, 0)
  {
    BootGood(base, size);
    RunPeaks(x, Boot(base, size), ms);
  }

  // ---------------------------------------------------------------- the pool

  /** What a move does to the pool. */
  predicate PoolFollows(g: Graph, m: Move, n: Graph)
    requires Inv(g.pool) && Allowed(g, m)
  {
    match m
    case Allocate(_, _, _, _, _, _, exported) =>
      n.pool == if Asked(g, m).Taken? && exported then Asked(g, m).pool else g.pool
    case RpcAllocate(_, _, _, _, _) => n.pool == if Asked(g, m).Taken? then Asked(g, m).pool else g.pool
    case ReleaseFile(b) => n.pool == if g.buffers[b].nonsecure then g.pool else Free(g.pool, g.buffers[b].paddr).0
    case RpcRelease(b) => n.pool == if g.buffers[b].nonsecure then g.pool else Free(g.pool, g.buffers[b].paddr).0
    case Export(_, b, _, _) =>
      n.pool == if Exports(g, m, b) && !g.buffers[b].nonsecure then Incref(g.pool, g.buffers[b].paddr).0 else g.pool
    case TakeBlock(size, alignment, descriptors) => n.pool == Alloc(g.pool, size, alignment, descriptors).0
    case GiveBlock(a) => n.pool == Free(g.pool, a).0
    case _ => n.pool == g.pool
  }

  lemma BufferPool(g: Graph, m: Move)
    requires Pointers(g.contexts, g.sessions, g.buffers) && Inv(g.pool) && Allowed(g, m) && OfBuffer(m)
    ensures PoolFollows(g, m, BufferStep(g, m))
  {
    match m
    case Allocate(c, b, ns, size, memory, descriptors, exported) =>
      if !exported { FailedExportUndone(g, c, b, ns, size, memory, descriptors); }
    case ReleaseFile(b) => FreeIoBuffers(g, b);
    case RpcAllocate(_, _, _, _, _) =>
    case RpcRelease(_) =>
    case Export(_, _, _, _) =>
  }

  /** The pool changes by the storage that a move takes, shares and gives back, and by nothing else. */
  lemma PoolFate(g: Graph, m: Move)
    requires Good(g) && Allowed(g, m)
    ensures Inv(g.pool) && PoolFollows(g, m, Step(g, m))
  {
    GoodPointers(g);
    if OfSession(m) { SessionMovesKeepBooks(g, m); }
    else if OfBuffer(m) { BufferPool(g, m); }
    else if m.TakeBlock? { LentOrSame(g, m.size, m.alignment, m.descriptors); }
  }

  lemma LentOrSame(g: Graph, size: nat, alignment: nat, descriptors: bool)
    requires Inv(g.pool)
    ensures Borrow(g, size, alignment, descriptors).pool == Alloc(g.pool, size, alignment, descriptors).0
  {
    Laws.AllocFails(g.pool, size, alignment, descriptors);
  }
}
