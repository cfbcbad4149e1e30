/** Contexts, sessions and shared buffers of the driver, the references between them, and the
    counters that decide when each is freed. A Graph is everything that tee->lock and the atomic
    counters protect; each operation on it is one critical section or one atomic access. */
module ObjectGraph {

  import opened Collections
  import opened ShmPoolModel
  import opened ShmPoolOps
  import opened ShmPoolLaws
  import opened Alignment

  /** struct tee_context, struct tee_session and struct tee_shm: their identity is their address. */
  class TeeContext {
    var refcount: int
    var sessions: seq<TeeSession>
    var buffers: seq<TeeShm>
    constructor ()
      ensures refcount == 1 && sessions == [] && buffers == []
    {
      refcount, sessions, buffers := 1, [], [];
    }
  }

  class TeeSession {
    var ctx: TeeContext
    var sessid: nat
    constructor (ctx: TeeContext) ensures this.ctx == ctx && sessid == 0 { this.ctx, sessid := ctx, 0; }
  }

  class TeeShm {
    var ctx: TeeContext?
    var nonsecure: bool
    var paddr: nat
    var ref: int
    constructor (nonsecure: bool, paddr: nat)
      ensures New(nonsecure, paddr)
    {
      ctx, this.nonsecure, this.paddr, ref := null, nonsecure, paddr, 1;
    }

    predicate New(nonsecure: bool, paddr: nat)
      reads this
    {
      ctx == null && this.nonsecure == nonsecure && this.paddr == paddr && ref == 1
    }
  }

  /** A context, and whether its owner has asked for its destruction. */
  datatype Ctx = Ctx(refcount: int, sessions: seq<TeeSession>, buffers: seq<TeeShm>, closed: bool)

  /** Opening until it is put on its context's list, Closing once its id is cleared. */
  datatype Phase = Opening | Open | Closing

  datatype Sess = Sess(ctx: TeeContext, phase: Phase)

  /** A buffer: byRpc and byFile say who is still to free it. A nonsecure one counts its owners in
      ref, the others in the chunk of the pool at paddr. */
  datatype Shm = Shm(nonsecure: bool, paddr: nat, ref: int, ctx: TeeContext?, byRpc: bool, byFile: bool)
  {
    function Owners(): int { (if byRpc then 1 else 0) + (if byFile then 1 else 0) }
  }

  datatype Stat = Stat(count: int, max: int)

  const ENOMEM: int := 12

  /** pending counts the threads between tee_get and their next step; loans are the addresses of
      the blocks that other users of the pool hold. */
  datatype Graph = Graph(
    refcount: int, pending: nat,
    contextStat: Stat, sessionStat: Stat, shmStat: Stat,
    list: seq<TeeContext>, contexts: map<TeeContext, Ctx>,
    sessions: map<TeeSession, Sess>,
    buffers: map<TeeShm, Shm>, rpc: seq<TeeShm>,
    pool: Pool, loans: set<nat>)

  // ---------------------------------------------------------------- the code, piece by piece

  function IncStats(s: Stat): Stat { Stat(s.count + 1, if s.count + 1 > s.max then s.count + 1 else s.max) }

  function DecStats(s: Stat): Stat { s.(count := s.count - 1) }

  /** tee_context_get. */
  function GetContext(g: Graph, c: TeeContext): Graph
    requires c in g.contexts
  {
    g.(contexts := g.contexts[c := g.contexts[c].(refcount := g.contexts[c].refcount + 1)])
  }

  /** tee_context_put with _tee_context_do_release. */
  function PutContext(g: Graph, c: TeeContext): Graph
    requires c in g.contexts
  {
    var x := g.contexts[c];
    if x.refcount == 1 then
      g.(contexts := g.contexts - {c}, list := Without(g.list, c), contextStat := DecStats(g.contextStat),
        refcount := g.refcount - 1)
    else
      g.(contexts := g.contexts[c := x.(refcount := x.refcount - 1)])
  }

  /** tee_get by a thread that is about to use the reference, and tee_put by one that has given
      up what used it. */
  function GetTee(g: Graph): Graph { g.(refcount := g.refcount + 1, pending := g.pending + 1) }

  function PutTee(g: Graph): Graph
    requires g.pending > 0
  {
    g.(refcount := g.refcount - 1, pending := g.pending - 1)
  }

  /** The rest of tee_context_create. */
  function AddContext(g: Graph, c: TeeContext): Graph
    requires g.pending > 0
  {
    g.(pending := g.pending - 1, contextStat := IncStats(g.contextStat), list := g.list + [c],
       contexts := g.contexts[c := Ctx(1, [], [], false)])
  }

  /** tee_context_destroy. */
  function Destroy(g: Graph, c: TeeContext): Graph
    requires c in g.contexts
  {
    PutContext(g.(contexts := g.contexts[c := g.contexts[c].(closed := true)]), c)
  }

  /** A new session takes over the reference on the context and the pending one on the tee. */
  function AttachSession(g: Graph, s: TeeSession, c: TeeContext): Graph
    requires g.pending > 0
  {
    g.(pending := g.pending - 1, sessions := g.sessions[s := Sess(c, Opening)])
  }

  /** tee_session_create_and_open up to tee_session_open_be. */
  function OpenBegin(g: Graph, s: TeeSession, c: TeeContext): Graph
    requires g.pending > 0 && c in g.contexts
  {
    AttachSession(GetContext(g, c), s, c)
  }

  /** The end of tee_session_create_and_open when the session was opened ... */
  function OpenDone(g: Graph, s: TeeSession): Graph
    requires s in g.sessions && g.sessions[s].ctx in g.contexts
  {
    var c := g.sessions[s].ctx;
    var x := g.contexts[c];
    g.(sessionStat := IncStats(g.sessionStat), sessions := g.sessions[s := Sess(c, Open)],
       contexts := g.contexts[c := x.(sessions := x.sessions + [s])])
  }

  /** ... and when it was not; the session leaves its two references behind. */
  function DetachUnlisted(g: Graph, s: TeeSession): Graph
  {
    g.(sessions := g.sessions - {s}, pending := g.pending + 1)
  }

  function OpenFailed(g: Graph, s: TeeSession): Graph
    requires s in g.sessions && g.sessions[s].ctx in g.contexts
  {
    PutContext(PutTee(DetachUnlisted(g, s)), g.sessions[s].ctx)
  }

  /** tee_session_close_be. */
  function CloseBegin(g: Graph, s: TeeSession): Graph
    requires s in g.sessions
  {
    g.(sessions := g.sessions[s := g.sessions[s].(phase := Closing)])
  }

  function DetachListed(g: Graph, s: TeeSession): Graph
    requires s in g.sessions && g.sessions[s].ctx in g.contexts
  {
    var c := g.sessions[s].ctx;
    var x := g.contexts[c];
    g.(sessionStat := DecStats(g.sessionStat), sessions := g.sessions - {s}, pending := g.pending + 1,
       contexts := g.contexts[c := x.(sessions := Without(x.sessions, s))])
  }

  /** The locked part of tee_session_close_and_destroy. */
  function CloseEnd(g: Graph, s: TeeSession): Graph
    requires s in g.sessions && g.sessions[s].ctx in g.contexts
  {
    var d := DetachListed(g, s);
    var p := PutContext(d, g.sessions[s].ctx);
    PutTee(p)
  }

  // ---------------------------------------------------------------- buffers

  const PAGE: nat := 0x1000

  /** size_aligned of tz_alloc, a size_t. */
  function StaticSize(size: nat): nat { Wrap((size / PAGE + 1) * PAGE) }

  /** What tee_shm_alloc leaves: a buffer, NULL, or an error. */
  datatype Storage = Taken(paddr: nat, pool: Pool) | Nothing | OutOfMemory

  /** tee_shm_alloc; memory says whether kmalloc and alloc_page give what it asks for. */
  function TakeStorage(pool: Pool, nonsecure: bool, size: nat, memory: bool, descriptors: bool): Storage
  {
    if nonsecure then
      if size == 0 || !memory then Nothing else Taken(0, pool)
    else if StaticSize(size) == 0 then Nothing
    else if !memory then OutOfMemory
    else
      var (p, r) := Alloc(pool, StaticSize(size), PAGE, descriptors);
      if r == 0 then OutOfMemory else Taken(r, p)
  }

  /** What is taken leaves the pool well formed. */
  lemma TakenKeepsPool(pool: Pool, nonsecure: bool, size: nat, memory: bool, descriptors: bool)
    requires Inv(pool)
    ensures var r := TakeStorage(pool, nonsecure, size, memory, descriptors); r.Taken? ==> Inv(r.pool)
  {
    if StaticSize(size) > 0 { AllocKeeps(pool, StaticSize(size), PAGE, descriptors); }
  }

  /** tee_shm_free by one of the owners, which its entry no longer names. */
  function FreeShm(g: Graph, b: TeeShm): Graph
    requires Inv(g.pool) && b in g.buffers
  {
    var x := g.buffers[b];
    if x.nonsecure then
      g.(buffers := if x.ref == 1 then g.buffers - {b} else g.buffers[b := x.(ref := x.ref - 1)])
    else
      var (p, o) := Free(g.pool, x.paddr);
      g.(pool := p, buffers := if o.Released? then g.buffers - {b} else g.buffers)
  }

  /** A file takes over a reference on its context and a pending one on the tee. */
  function AttachBuffer(g: Graph, b: TeeShm, x: Shm, listed: seq<TeeShm>): Graph
    requires g.pending > 0 && x.ctx in g.contexts
  {
    g.(pending := g.pending - 1, buffers := g.buffers[b := x],
       contexts := g.contexts[x.ctx := g.contexts[x.ctx].(buffers := listed)])
  }

  /** The references and the list of a new buffer of a context. */
  function AttachIo(g: Graph, c: TeeContext, b: TeeShm, nonsecure: bool, paddr: nat): Graph
    requires c in g.contexts
  {
    var n := GetContext(GetTee(g.(shmStat := IncStats(g.shmStat))), c);
    AttachBuffer(n, b, Shm(nonsecure, paddr, 1, c, false, true), n.contexts[c].buffers + [b])
  }

  /** tee_shm_alloc_io, and tee_shm_alloc_io_perm of a static buffer: the new state and the value
      returned. exported says whether a file could be made; a kernel client needs none. */
  function AllocIo(g: Graph, c: TeeContext, b: TeeShm, nonsecure: bool, size: nat, memory: bool, descriptors: bool,
      exported: bool): (Graph, int)
    requires c in g.contexts && Inv(g.pool)
  {
    TakenKeepsPool(g.pool, nonsecure, size, memory, descriptors);
    match TakeStorage(g.pool, nonsecure, size, memory, descriptors)
    case Nothing => (g, 0)
    case OutOfMemory => (g, -ENOMEM)
    case Taken(paddr, pool) =>
      if !exported then
        (if nonsecure then g else g.(pool := Free(pool, paddr).0), -ENOMEM)
      else
        (AttachIo(g.(pool := pool), c, b, nonsecure, paddr), 0)
  }

  function DetachBuffer(g: Graph, b: TeeShm): Graph
    requires b in g.buffers && g.buffers[b].ctx in g.contexts
  {
    var c := g.buffers[b].ctx;
    var x := g.contexts[c];
    g.(shmStat := DecStats(g.shmStat), pending := g.pending + 1,
       contexts := g.contexts[c := x.(buffers := Without(x.buffers, b))],
       buffers := g.buffers[b := g.buffers[b].(byFile := false)])
  }

  /** tee_shm_free_io, when the file is released. */
  function FreeIo(g: Graph, b: TeeShm): Graph
    requires Inv(g.pool) && b in g.buffers && g.buffers[b].ctx in g.contexts
  {
    PutContext(PutTee(FreeShm(DetachBuffer(g, b), b)), g.buffers[b].ctx)
  }

  /** tee_shm_alloc_from_rpc. */
  function AllocRpc(g: Graph, b: TeeShm, nonsecure: bool, size: nat, memory: bool, descriptors: bool): Graph
  {
    match TakeStorage(g.pool, nonsecure, size, memory, descriptors)
    case Taken(paddr, pool) =>
      g.(pool := pool, shmStat := IncStats(g.shmStat), rpc := g.rpc + [b],
         buffers := g.buffers[b := Shm(nonsecure, paddr, 1, null, true, false)])
    case _ => g
  }

  function DetachRpc(g: Graph, b: TeeShm): Graph
    requires b in g.buffers
  {
    var x := g.buffers[b].(byRpc := false);
    if x.ctx == null then
      g.(shmStat := DecStats(g.shmStat), rpc := Without(g.rpc, b), buffers := g.buffers[b := x])
    else
      g.(buffers := g.buffers[b := x])
  }

  /** tee_shm_free_from_rpc. */
  function FreeRpc(g: Graph, b: TeeShm): Graph
    requires Inv(g.pool) && b in g.buffers
  {
    FreeShm(DetachRpc(g, b), b)
  }

  /** The buffer points to its context and leaves the list of those that do not. */
  function ClaimRpc(g: Graph, c: TeeContext, b: TeeShm): Graph
    requires b in g.buffers
  {
    g.(rpc := Without(g.rpc, b), buffers := g.buffers[b := g.buffers[b].(ctx := c)])
  }

  /** A file comes to own the buffer too; the count of a static one is in the pool. */
  function Shared(x: Shm): Shm
  {
    x.(byFile := true, ref := if x.nonsecure then x.ref + 1 else x.ref)
  }

  function Exported(x: Shm, c: TeeContext): Shm { Shared(x.(ctx := c)) }

  /** The references of a buffer that is exported. */
  function ExportAttach(g: Graph, c: TeeContext, b: TeeShm): Graph
    requires c in g.contexts && b in g.buffers
  {
    var n := GetContext(GetTee(ClaimRpc(g, c, b)), c);
    AttachBuffer(n, b, Exported(g.buffers[b], c), [b] + n.contexts[c].buffers)
  }

  /** tee_shm_fd_for_rpc, having found b on the list. wantNonsecure is what the caller takes the
      buffer for, exported says whether a file could be made. */
  function ExportRpc(g: Graph, c: TeeContext, b: TeeShm, wantNonsecure: bool, exported: bool): (Graph, int)
    requires c in g.contexts && b in g.buffers
  {
    var x := g.buffers[b];
    if wantNonsecure != x.nonsecure || !exported then (g, -ENOMEM)
    else if x.nonsecure then (ExportAttach(g, c, b), 0)
    else (ExportAttach(g, c, b).(pool := Incref(g.pool, x.paddr).0), 0)
  }

  /** Any other block of the pool: an argument structure or a temporary buffer. */
  function Borrow(g: Graph, size: nat, alignment: nat, descriptors: bool): Graph
  {
    var (p, r) := Alloc(g.pool, size, alignment, descriptors);
    if r == 0 then g else g.(pool := p, loans := g.loans + {r})
  }

  function Repay(g: Graph, a: nat): Graph
    requires Inv(g.pool)
  {
    g.(pool := Free(g.pool, a).0, loans := g.loans - {a})
  }

  // ---------------------------------------------------------------- who counts for what

  function InContext(c: TeeContext): Sess -> bool { (s: Sess) => s.ctx == c }
  function ListedIn(c: TeeContext): Sess -> bool { (s: Sess) => s.ctx == c && s.phase != Opening }
  function Listed(): Sess -> bool { (s: Sess) => s.phase != Opening }
  function OwnedBy(c: TeeContext): Shm -> bool { (b: Shm) => b.byFile && b.ctx == c }
  function HeldByFile(): Shm -> bool { (b: Shm) => b.byFile }
  function Unexported(): Shm -> bool { (b: Shm) => b.ctx == null && b.byRpc }
  function OnAList(): Shm -> bool { (b: Shm) => b.byFile || (b.ctx == null && b.byRpc) }

  /** The lists of one context, and its reference count: one for its owner until it is closed, one
      for each of its sessions, opening ones included, and one for each of its buffers. */
  ghost predicate ContextOk(x: Ctx, hand: nat, listed: set<TeeSession>, all: set<TeeSession>, owned: set<TeeShm>)
  {
    && Lists(x.sessions, listed) && Lists(x.buffers, owned)
    && x.refcount == (if x.closed then 0 else 1) + |all| + |owned| + hand
    && x.refcount > 0
  }

  ghost predicate BufferOk(b: Shm, contexts: map<TeeContext, Ctx>)
  {
    b.byFile ==> b.ctx in contexts
  }

  ghost predicate ContextsOk(contexts: map<TeeContext, Ctx>, hand: TeeContext?, sessions: map<TeeSession, Sess>,
      buffers: map<TeeShm, Shm>)
  {
    && (hand != null ==> hand in contexts)
    && forall c {:trigger OneContextOk(contexts, c, hand, sessions, buffers)} ::
         c in contexts ==> OneContextOk(contexts, c, hand, sessions, buffers)
  }

  ghost predicate OneContextOk(contexts: map<TeeContext, Ctx>, c: TeeContext, hand: TeeContext?,
      sessions: map<TeeSession, Sess>, buffers: map<TeeShm, Shm>)
    requires c in contexts
  {
    ContextOk(contexts[c], if c == hand then 1 else 0,
              Where(sessions, ListedIn(c)), Where(sessions, InContext(c)), Where(buffers, OwnedBy(c)))
  }

  ghost predicate Pointers(contexts: map<TeeContext, Ctx>, sessions: map<TeeSession, Sess>, buffers: map<TeeShm, Shm>)
  {
    && (forall s :: s in sessions ==> sessions[s].ctx in contexts)
    && (forall b :: b in buffers ==> BufferOk(buffers[b], contexts))
  }

  /** Lists and pointers agree; hand is a context that the running thread holds one more reference on. */
  ghost predicate Wired(g: Graph, hand: TeeContext?)
  {
    && Lists(g.list, g.contexts.Keys)
    && Lists(g.rpc, Where(g.buffers, Unexported()))
    && Pointers(g.contexts, g.sessions, g.buffers)
    && ContextsOk(g.contexts, hand, g.sessions, g.buffers)
  }

  ghost predicate StatOk(s: Stat, n: nat) { s.count == n <= s.max }

  /** The counters: listed is how many buffers the running thread makes the statistics count. */
  ghost predicate CountedAs(g: Graph, listed: nat)
  {
    && g.refcount == 1 + g.pending + |g.contexts.Keys| + |g.sessions.Keys| + |Where(g.buffers, HeldByFile())|
    && StatOk(g.contextStat, |g.contexts.Keys|)
    && StatOk(g.sessionStat, |Where(g.sessions, Listed())|)
    && StatOk(g.shmStat, listed)
  }

  ghost predicate Counted(g: Graph) { CountedAs(g, |Where(g.buffers, OnAList())|) }
}
