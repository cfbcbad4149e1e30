/** The device of tee_core.c with the contexts, sessions and buffers that hang off it, updated in
    place; every method is tied to the operation of ObjectGraph that it carries out. The objects are
    the driver's structs; what only their users know of them, such as who still owns a buffer, is
    kept beside them in ghost fields, one map for each kind of object. */
module TeeCore {

  import opened Collections
  import opened Alignment
  import opened ShmPoolModel
  import Ops = ShmPoolOps
  import opened ShmPool
  import opened ObjectGraph
  import opened ObjectGraphLaws
  import opened TeeMoves
  import Laws = ShmPoolLaws

  /** Freeing the block a takes the pool q back to p. */
  ghost predicate Undoable(p: Pool, q: Pool, a: nat)
  {
    Inv(q) && a in Live(q.chunks) && Ops.Free(q, a).0 == p
  }

  lemma AllocKeepsPool(p: Pool, size: nat, memory: bool)
    requires Inv(p) && size > 0
    ensures var (q, r) := Ops.Alloc(p, size, PAGE, memory); Inv(q) && if r == 0 then q == p else Undoable(p, q, r)
  {
    Laws.AllocKeeps(p, size, PAGE, memory);
    Laws.AllocFails(p, size, PAGE, memory);
    if Ops.Alloc(p, size, PAGE, memory).1 != 0 {
      Ops.AllocSucceeds(p, size, PAGE);
      Laws.FreeUndoesAlloc(p, size, PAGE);
    }
  }

  /** What tee_shm_alloc took from the pool can be given back. */
  lemma TakenUndoable(p: Pool, size: nat, memory: bool, descriptors: bool)
    requires Inv(p) && TakeStorage(p, false, size, memory, descriptors).Taken?
    ensures var r := TakeStorage(p, false, size, memory, descriptors); Undoable(p, r.pool, r.paddr)
  {
    AllocKeepsPool(p, StaticSize(size), descriptors);
  }

  lemma PageIsPower()
    ensures PowerOfTwo(PAGE)
  {
    Ops.GrainIsPower();
  }

  class Tee {
    var refcount: int
    var contextStat: Stat
    var sessionStat: Stat
    var shmStat: Stat
    var listCtx: seq<TeeContext>
    var listRpcShm: seq<TeeShm>
    var pool: ShmPool
    /** The objects that are there, what they say, and what only their users know of them. */
    ghost var contexts: map<TeeContext, Ctx>
    ghost var sessions: map<TeeSession, Sess>
    ghost var buffers: map<TeeShm, Shm>
    ghost var pending: nat
    ghost var loans: set<nat>

    ghost function View(): Graph
      reads this, pool
    {
      Graph(refcount, pending, contextStat, sessionStat, shmStat, listCtx, contexts, sessions, buffers, listRpcShm,
        pool.View(), loans)
    }

    ghost predicate ContextsLinked()
      reads this`contexts, contexts.Keys
    {
      forall c :: c in contexts ==>
        c.refcount == contexts[c].refcount && c.sessions == contexts[c].sessions && c.buffers == contexts[c].buffers
    }

    ghost predicate SessionsLinked()
      reads this`sessions, sessions.Keys
    {
      forall s :: s in sessions ==>
        && s.ctx == sessions[s].ctx
        && (sessions[s].phase == Open ==> s.sessid != 0)
        && (sessions[s].phase == Closing ==> s.sessid == 0)
    }

    ghost predicate BuffersLinked()
      reads this`buffers, buffers.Keys
    {
      forall b :: b in buffers ==> BufferLinked(b, buffers[b])
    }

    ghost predicate BufferLinked(b: TeeShm, x: Shm)
      reads b
    {
      b.ctx == x.ctx && b.nonsecure == x.nonsecure && b.paddr == x.paddr && b.ref == x.ref
    }

    /** The objects say what the maps say. */
    ghost predicate Linked()
      reads this`contexts, this`sessions, this`buffers, contexts.Keys, sessions.Keys, buffers.Keys
    {
      ContextsLinked() && SessionsLinked() && BuffersLinked()
    }

    ghost predicate PoolReady()
      reads this`pool, pool, pool.mchunks
    {
      pool.Valid() && !pool.locked
    }

    /** The device between calls: lists, pointers, counts and pool agree. */
    ghost predicate Valid()
      reads this, contexts.Keys, sessions.Keys, buffers.Keys, pool, pool.mchunks
    {
      Linked() && PoolReady() && Sound(View())
    }

    /** The device after its probe; the pool is new. */
    constructor (pool: ShmPool, ghost base: nat, ghost size: nat)
      requires pool.Valid() && !pool.locked && pool.View() == Initial(base, size)
      requires 0 < base && 0 < size && base + size <= HALF_WORD
      ensures this.pool == pool && Valid() && View() == Boot(base, size)
    {
      BootSound(base, size);
      refcount := 1;
      contextStat, sessionStat, shmStat := Stat(0, 0), Stat(0, 0), Stat(0, 0);
      listCtx, listRpcShm := [], [];
      this.pool := pool;
      contexts, sessions, buffers, pending, loans := map[], map[], map[], 0, {};
    }

    /** tee_get; the reference is pending until it is put to use. */
    method Get()
      modifies this`refcount, this`pending
      ensures View() == GetTee(old(View()))
    {
      refcount := refcount + 1;
      pending := pending + 1;
    }

    /** tee_put. */
    method Put()
      requires pending > 0
      modifies this`refcount, this`pending
      ensures View() == PutTee(old(View()))
    {
      refcount := refcount - 1;
      pending := pending - 1;
    }

    // ------------------------------------------------------------ single fields of an object

    method SetRefcount(ctx: TeeContext, n: int)
      requires Linked() && ctx in contexts
      modifies this`contexts, ctx`refcount
      ensures Linked() && ctx.refcount == n
      ensures View() == old(View()).(contexts := old(contexts)[ctx := old(contexts)[ctx].(refcount := n)])
    {
      ctx.refcount := n;
      contexts := contexts[ctx := contexts[ctx].(refcount := n)];
    }

    method SetSessions(ctx: TeeContext, l: seq<TeeSession>)
      requires Linked() && ctx in contexts
      modifies this`contexts, ctx`sessions
      ensures Linked() && View() == old(View()).(contexts := old(contexts)[ctx := old(contexts)[ctx].(sessions := l)])
    {
      ctx.sessions := l;
      contexts := contexts[ctx := contexts[ctx].(sessions := l)];
    }

    method SetBuffers(ctx: TeeContext, l: seq<TeeShm>)
      requires Linked() && ctx in contexts
      modifies this`contexts, ctx`buffers
      ensures Linked() && View() == old(View()).(contexts := old(contexts)[ctx := old(contexts)[ctx].(buffers := l)])
    {
      ctx.buffers := l;
      contexts := contexts[ctx := contexts[ctx].(buffers := l)];
    }

    method SetRef(shm: TeeShm, n: int)
      requires Linked() && shm in buffers
      modifies this`buffers, shm`ref
      ensures Linked() && shm.ref == n
      ensures View() == old(View()).(buffers := old(buffers)[shm := old(buffers)[shm].(ref := n)])
    {
      shm.ref := n;
      buffers := buffers[shm := buffers[shm].(ref := n)];
    }

    method SetContext(shm: TeeShm, ctx: TeeContext)
      requires Linked() && shm in buffers
      modifies this`buffers, shm`ctx
      ensures Linked() && View() == old(View()).(buffers := old(buffers)[shm := old(buffers)[shm].(ctx := ctx)])
    {
      shm.ctx := ctx;
      buffers := buffers[shm := buffers[shm].(ctx := ctx)];
    }

    /** The entry of an object comes, changes or goes: nothing of it is stored but what it says. */
    ghost method NoteSession(sess: TeeSession, x: Sess)
      requires Linked() && sess.ctx == x.ctx && (x.phase == Open ==> sess.sessid != 0)
        && (x.phase == Closing ==> sess.sessid == 0)
      modifies this`sessions
      ensures Linked() && View() == old(View()).(sessions := old(sessions)[sess := x])
    {
      sessions := sessions[sess := x];
    }

    ghost method ForgetSession(sess: TeeSession)
      requires Linked()
      modifies this`sessions, this`pending
      ensures Linked() && View() == DetachUnlisted(old(View()), sess)
    {
      sessions, pending := sessions - {sess}, pending + 1;
    }

    ghost method NoteContext(ctx: TeeContext)
      requires Linked() && ctx.refcount == 1 && ctx.sessions == [] && ctx.buffers == []
      modifies this`contexts
      ensures Linked() && View() == old(View()).(contexts := old(contexts)[ctx := Ctx(1, [], [], false)])
    {
      contexts := contexts[ctx := Ctx(1, [], [], false)];
    }

    ghost method ForgetContext(ctx: TeeContext)
      requires Linked()
      modifies this`contexts
      ensures Linked() && View() == old(View()).(contexts := old(contexts) - {ctx})
    {
      contexts := contexts - {ctx};
    }

    ghost method NoteBuffer(shm: TeeShm, x: Shm)
      requires Linked() && BufferLinked(shm, x)
      modifies this`buffers
      ensures Linked() && View() == old(View()).(buffers := old(buffers)[shm := x])
    {
      buffers := buffers[shm := x];
    }

    ghost method ForgetBuffer(shm: TeeShm)
      requires Linked()
      modifies this`buffers
      ensures Linked() && View() == old(View()).(buffers := old(buffers) - {shm})
    {
      buffers := buffers - {shm};
    }

    /** A pending reference is put to use. */
    ghost method UsePending()
      requires pending > 0
      modifies this`pending
      ensures View() == old(View()).(pending := old(pending) - 1)
    {
      pending := pending - 1;
    }

    // ------------------------------------------------------------ contexts

    /** The locked part of tee_context_create. */
    method ContextPublish(ctx: TeeContext)
      requires Linked() && pending > 0 && ctx.refcount == 1 && ctx.sessions == [] && ctx.buffers == []
      modifies this`pending, this`contextStat, this`listCtx, this`contexts
      ensures Linked() && View() == AddContext(old(View()), ctx)
    {
      UsePending();
      contextStat := IncStats(contextStat);
      listCtx := listCtx + [ctx];
      NoteContext(ctx);
    }

    /** tee_context_create; memory says whether the context could be allocated. */
    method ContextCreate(memory: bool) returns (ctx: TeeContext?)
      requires Valid()
      modifies this`refcount, this`pending, this`contextStat, this`listCtx, this`contexts
      ensures Valid() && (ctx != null <==> memory)
      ensures ctx == null ==> View() == old(View())
      ensures ctx != null ==> fresh(ctx)
      ensures ctx != null ==> Leads(old(View()), [TakeTee, CreateContext(ctx)], View())
    {
      if !memory { return null; }
      ctx := new TeeContext();
      CreateLeads(View(), ctx);
      Get();
      ContextPublish(ctx);
    }

    /** tee_context_get. */
    method ContextGet(ctx: TeeContext)
      requires Linked() && ctx in contexts
      modifies this`contexts, ctx`refcount
      ensures Linked() && View() == GetContext(old(View()), ctx)
    {
      SetRefcount(ctx, ctx.refcount + 1);
    }

    /** _tee_context_do_release. */
    method ContextRelease(ctx: TeeContext)
      requires Linked() && ctx in contexts
      modifies this`refcount, this`contextStat, this`listCtx, this`contexts
      ensures Linked()
      ensures View() == old(View()).(contexts := old(contexts) - {ctx}, contextStat := DecStats(old(contextStat)),
                                     list := Without(old(listCtx), ctx), refcount := old(refcount) - 1)
    {
      Unlist(ctx);
      ForgetContext(ctx);
    }

    method Unlist(ctx: TeeContext)
      modifies this`refcount, this`contextStat, this`listCtx
      ensures View() == old(View()).(contextStat := DecStats(old(contextStat)), list := Without(old(listCtx), ctx),
                                     refcount := old(refcount) - 1)
    {
      contextStat := DecStats(contextStat);
      listCtx := Without(listCtx, ctx);
      refcount := refcount - 1;
    }

    /** tee_context_put. */
    method ContextPut(ctx: TeeContext)
      requires Linked() && ctx in contexts
      modifies this`refcount, this`contextStat, this`listCtx, this`contexts, ctx`refcount
      ensures Linked() && View() == PutContext(old(View()), ctx)
    {
      SetRefcount(ctx, ctx.refcount - 1);
      if ctx.refcount == 0 {
        ContextRelease(ctx);
        assert contexts == old(contexts) - {ctx};
      }
    }

    /** tee_context_destroy. */
    method ContextDestroy(ctx: TeeContext)
      requires Valid() && Allowed(View(), DestroyContext(ctx))
      modifies this`refcount, this`contextStat, this`listCtx, this`contexts, ctx`refcount
      ensures Valid() && Leads(old(View()), [DestroyContext(ctx)], View())
    {
      DestroyLeads(View(), ctx);
      contexts := contexts[ctx := contexts[ctx].(closed := true)];
      ContextPut(ctx);
    }

    // ------------------------------------------------------------ sessions

    /** tee_session_create_and_open up to the call into the secure world. */
    method SessionCreate(ctx: TeeContext, memory: bool) returns (sess: TeeSession?)
      requires Valid() && ctx in contexts && !contexts[ctx].closed
      modifies this`refcount, this`pending, this`contexts, this`sessions, ctx`refcount
      ensures Valid() && (sess != null <==> memory)
      ensures sess == null ==> View() == old(View())
      ensures sess != null ==> fresh(sess)
      ensures sess != null ==> Leads(old(View()), [TakeTee, BeginOpen(sess, ctx)], View())
    {
      Get();
      if !memory {
        Put();
        return null;
      }
      sess := SessionNew(ctx);
      BeginLeads(old(View()), sess, ctx);
    }

    method SessionNew(ctx: TeeContext) returns (sess: TeeSession)
      requires Linked() && ctx in contexts && pending > 0
      modifies this`pending, this`contexts, this`sessions, ctx`refcount
      ensures fresh(sess) && sess !in old(sessions) && Linked() && View() == OpenBegin(old(View()), sess, ctx)
    {
      sess := new TeeSession(ctx);
      SessionAttach(sess);
    }

    method SessionAttach(sess: TeeSession)
      requires Linked() && sess.ctx in contexts && sess.sessid == 0 && pending > 0
      modifies this`pending, this`contexts, this`sessions, sess.ctx`refcount
      ensures Linked() && View() == OpenBegin(old(View()), sess, sess.ctx)
    {
      ContextGet(sess.ctx);
      UsePending();
      NoteSession(sess, Sess(sess.ctx, Opening));
    }

    /** Its end; sessid, ret and err are what the secure world answered. */
    method SessionOpened(sess: TeeSession, sessid: nat, ret: int, err: nat) returns (ok: bool)
      requires Valid() && sess in sessions && sessions[sess].phase == Opening
      modifies this`refcount, this`pending, this`contextStat, this`sessionStat, this`listCtx, this`contexts
      modifies this`sessions
      modifies sess`sessid, sess.ctx`refcount, sess.ctx`sessions
      ensures ok <==> ret == 0 && sessid != 0 && err == 0
      ensures Valid() && Leads(old(View()), [if ok then FinishOpen(sess) else FailOpen(sess)], View())
    {
      OpenedLeads(View(), sess);
      ok := EndOpen(sess, sessid, ret, err);
    }

    method EndOpen(sess: TeeSession, sessid: nat, ret: int, err: nat) returns (ok: bool)
      requires Linked() && sess in sessions && sessions[sess].phase == Opening && sess.ctx in contexts
      modifies this`refcount, this`pending, this`contextStat, this`sessionStat, this`listCtx, this`contexts
      modifies this`sessions
      modifies sess`sessid, sess.ctx`refcount, sess.ctx`sessions
      ensures ok <==> ret == 0 && sessid != 0 && err == 0
      ensures Linked() && View() == if ok then OpenDone(old(View()), sess) else OpenFailed(old(View()), sess)
    {
      sess.sessid := sessid;
      if ret != 0 || sess.sessid == 0 || err != 0 {
        SessionDrop(sess);
        return false;
      }
      SessionList(sess);
      return true;
    }

    method SessionDrop(sess: TeeSession)
      requires Linked() && sess in sessions && sess.ctx in contexts
      modifies this`refcount, this`pending, this`contextStat, this`listCtx, this`contexts, this`sessions
      modifies sess.ctx`refcount
      ensures Linked() && View() == OpenFailed(old(View()), sess)
    {
      ForgetSession(sess);
      Leave(sess.ctx);
    }

    method SessionList(sess: TeeSession)
      requires Linked() && sess in sessions && sess.ctx in contexts && sess.sessid != 0
      modifies this`sessionStat, this`contexts, this`sessions, sess.ctx`sessions
      ensures Linked() && View() == OpenDone(old(View()), sess)
    {
      CountSession(IncStats(sessionStat));
      SetSessions(sess.ctx, sess.ctx.sessions + [sess]);
      NoteSession(sess, Sess(sess.ctx, Open));
    }

    method CountSession(x: Stat)
      modifies this`sessionStat
      ensures View() == old(View()).(sessionStat := x)
    {
      sessionStat := x;
    }

    method CountShm(x: Stat)
      modifies this`shmStat
      ensures View() == old(View()).(shmStat := x)
    {
      shmStat := x;
    }

    /** tee_session_close_be. */
    method SessionCloseBe(sess: TeeSession)
      requires Linked() && sess in sessions && sessions[sess].phase == Open
      modifies this`sessions, sess`sessid
      ensures Linked() && View() == CloseBegin(old(View()), sess)
    {
      sess.sessid := 0;
      sessions := sessions[sess := sessions[sess].(phase := Closing)];
    }

    /** The locked part of tee_session_close_and_destroy. */
    method SessionDestroy(sess: TeeSession)
      requires Linked() && sess in sessions && sess.ctx in contexts
      modifies this`refcount, this`pending, this`contextStat, this`sessionStat, this`listCtx, this`contexts
      modifies this`sessions
      modifies sess.ctx`refcount, sess.ctx`sessions
      ensures Linked() && View() == CloseEnd(old(View()), sess)
    {
      SessionDetach(sess);
      ContextPut(sess.ctx);
      Put();
    }

    method SessionDetach(sess: TeeSession)
      requires Linked() && sess in sessions && sess.ctx in contexts
      modifies this`pending, this`sessionStat, this`contexts, this`sessions, sess.ctx`sessions
      ensures Linked() && View() == DetachListed(old(View()), sess)
    {
      CountSession(DecStats(sessionStat));
      SetSessions(sess.ctx, Without(sess.ctx.sessions, sess));
      ForgetSession(sess);
    }

    /** tee_session_close_and_destroy: a session that is not open is left alone. */
    method SessionCloseAndDestroy(sess: TeeSession) returns (done: bool)
      requires Valid() && sess in sessions && sessions[sess].phase != Opening
      modifies this`refcount, this`pending, this`contextStat, this`sessionStat, this`listCtx, this`contexts
      modifies this`sessions
      modifies sess`sessid, sess.ctx`refcount, sess.ctx`sessions
      ensures Valid() && (done <==> old(sessions)[sess].phase == Open)
      ensures !done ==> View() == old(View())
      ensures done ==> Leads(old(View()), [BeginClose(sess), EndClose(sess)], View())
    {
      if sess.sessid == 0 { return false; }
      CloseLeads(View(), sess);
      CloseOpen(sess);
      return true;
    }

    method CloseOpen(sess: TeeSession)
      requires Linked() && sess in sessions && sessions[sess].phase == Open && sess.ctx in contexts
      modifies this`refcount, this`pending, this`contextStat, this`sessionStat, this`listCtx, this`contexts
      modifies this`sessions
      modifies sess`sessid, sess.ctx`refcount, sess.ctx`sessions
      ensures Linked() && View() == CloseEnd(CloseBegin(old(View()), sess), sess)
    {
      SessionCloseBe(sess);
      SessionDestroy(sess);
    }

    // ------------------------------------------------------------ storage

    /** tee_shm_pool_alloc on the pool of the device. */
    method PoolAlloc(size: nat, prevMemory: bool, nextMemory: bool) returns (r: nat)
      requires PoolReady() && size < WORD && size > 0
      modifies pool, pool.mchunks
      ensures PoolReady() && fresh((set o | o in pool.mchunks) - (set o | o in old(pool.mchunks)))
      ensures (pool.View(), r) == Ops.Alloc(old(pool.View()), size, PAGE, prevMemory && nextMemory)
      ensures if r == 0 then pool.View() == old(pool.View()) else Undoable(old(pool.View()), pool.View(), r)
    {
      AllocKeepsPool(pool.View(), size, prevMemory && nextMemory);
      PageIsPower();
      r := pool.Alloc(size, PAGE, prevMemory, nextMemory);
    }

    /** tee_shm_pool_free of a live block: whether the block is gone. */
    method PoolFree(paddr: nat) returns (gone: bool)
      requires PoolReady() && paddr in Live(pool.chunks)
      modifies pool, pool.mchunks
      ensures PoolReady()
      ensures pool.View() == Ops.Free(old(pool.View()), paddr).0
        && gone == Ops.Free(old(pool.View()), paddr).1.Released?
    {
      Laws.FreeKeeps(pool.View(), paddr);
      var ret, n := pool.Free(paddr);
      gone := ret == 0;
    }

    /** tee_shm_alloc; a failure is told by NULL, with ret 0, or by an error. */
    method ShmAlloc(nonsecure: bool, size: nat, memory: bool, prevMemory: bool, nextMemory: bool)
      returns (shm: TeeShm?, ret: int)
      requires PoolReady() && size < WORD
      modifies pool, pool.mchunks
      ensures PoolReady() && fresh((set o | o in pool.mchunks) - (set o | o in old(pool.mchunks)))
      ensures match TakeStorage(old(pool.View()), nonsecure, size, memory, prevMemory && nextMemory)
        case Nothing => shm == null && ret == 0 && pool.View() == old(pool.View())
        case OutOfMemory => shm == null && ret == -ENOMEM && pool.View() == old(pool.View())
        case Taken(paddr, p) => shm != null && ret == 0 && fresh(shm) && shm.New(nonsecure, paddr) && pool.View() == p
    {
      if nonsecure {
        if size == 0 || !memory { return null, 0; }
        shm := new TeeShm(true, 0);
        return shm, 0;
      }
      var sizeAligned := StaticSize(size);
      if sizeAligned == 0 { return null, 0; }
      if !memory { return null, -ENOMEM; }
      var paddr := PoolAlloc(sizeAligned, prevMemory, nextMemory);
      if paddr == 0 { return null, -ENOMEM; }
      shm := new TeeShm(false, paddr);
      return shm, 0;
    }

    /** tee_shm_free by one of the owners: of a static buffer ... */
    method ShmFreeStatic(shm: TeeShm)
      requires Linked() && PoolReady() && shm in buffers && !shm.nonsecure && shm.paddr in Live(pool.chunks)
      modifies this`buffers, pool, pool.mchunks
      ensures Linked() && PoolReady() && View() == FreeShm(old(View()), shm)
    {
      var gone := PoolFree(shm.paddr);
      if gone { ForgetBuffer(shm); }
    }

    /** ... and of a nonsecure one, tee_shm_free_ns. */
    method ShmFreeNs(shm: TeeShm)
      requires Linked() && PoolReady() && shm in buffers && shm.nonsecure
      modifies this`buffers, shm`ref
      ensures Linked() && View() == FreeShm(old(View()), shm)
    {
      SetRef(shm, shm.ref - 1);
      if shm.ref == 0 {
        ForgetBuffer(shm);
        assert buffers == old(buffers) - {shm};
      }
    }

    method ShmFree(shm: TeeShm)
      requires Linked() && PoolReady() && shm in buffers
      requires !shm.nonsecure ==> shm.paddr in Live(pool.chunks)
      modifies this`buffers, shm`ref, pool, pool.mchunks
      ensures Linked() && PoolReady() && View() == FreeShm(old(View()), shm)
    {
      if shm.nonsecure { ShmFreeNs(shm); } else { ShmFreeStatic(shm); }
    }

    /** tee_shm_free of a static buffer that did not get a file: the pool is as it was before. */
    method ShmDiscard(shm: TeeShm, ghost before: Pool, ghost size: nat, ghost memory: bool, ghost descriptors: bool)
      requires PoolReady() && Inv(before)
        && TakeStorage(before, false, size, memory, descriptors) == Taken(shm.paddr, pool.View())
      modifies pool, pool.mchunks
      ensures PoolReady() && pool.View() == before
    {
      TakenUndoable(before, size, memory, descriptors);
      var gone := PoolFree(shm.paddr);
    }

    // ------------------------------------------------------------ buffers

    /** The references of a buffer: tee_get and tee_context_get, put to use at once. */
    method TakeReferences(ctx: TeeContext)
      requires Linked() && ctx in contexts
      modifies this`refcount, this`pending, this`contexts, ctx`refcount
      ensures Linked() && View() == GetContext(GetTee(old(View())), ctx).(pending := old(pending))
    {
      Get();
      ContextGet(ctx);
      UsePending();
    }

    /** tee_shm_alloc_io once there is a file for the buffer. */
    method ShmAttachIo(ctx: TeeContext, shm: TeeShm)
      requires Linked() && ctx in contexts && shm !in buffers && shm.New(shm.nonsecure, shm.paddr)
      modifies this`refcount, this`pending, this`shmStat, this`contexts, this`buffers, shm`ctx, ctx`refcount
      modifies ctx`buffers
      ensures Linked() && View() == AttachIo(old(View()), ctx, shm, shm.nonsecure, shm.paddr)
    {
      shm.ctx := ctx;
      CountShm(IncStats(shmStat));
      TakeReferences(ctx);
      NoteBuffer(shm, Shm(shm.nonsecure, shm.paddr, 1, ctx, false, true));
      SetBuffers(ctx, ctx.buffers + [shm]);
    }

    /** The storage and the file of a buffer: both or neither. */
    method ShmAllocExported(nonsecure: bool, size: nat, memory: bool, prevMemory: bool, nextMemory: bool,
        exported: bool)
      returns (ret: int, shm: TeeShm?)
      requires PoolReady() && size < WORD
      modifies pool, pool.mchunks
      ensures PoolReady()
      ensures var taken := TakeStorage(old(pool.View()), nonsecure, size, memory, prevMemory && nextMemory); (
        && (shm != null <==> taken.Taken? && exported)
        && (shm != null ==> fresh(shm) && shm.New(nonsecure, taken.paddr) && pool.View() == taken.pool)
        && (shm == null ==> pool.View() == old(pool.View()))
        && ret == (if shm != null || taken.Nothing? then 0 else -ENOMEM))
    {
      ghost var before := pool.View();
      shm, ret := ShmAlloc(nonsecure, size, memory, prevMemory, nextMemory);
      if shm != null && !exported {
        if !nonsecure { ShmDiscard(shm, before, size, memory, prevMemory && nextMemory); }
        return -ENOMEM, null;
      }
    }

    /** tee_shm_alloc_io; exported says whether a file could be made, which is not needed for a kernel
        client. */
    method ShmAllocIo(ctx: TeeContext, nonsecure: bool, size: nat, memory: bool, prevMemory: bool, nextMemory: bool,
        exported: bool)
      returns (ret: int, shm: TeeShm?)
      requires Valid() && ctx in contexts && !contexts[ctx].closed && size < WORD
      modifies this`refcount, this`pending, this`shmStat, this`contexts, this`buffers, pool, pool.mchunks, ctx`refcount
      modifies ctx`buffers
      ensures Valid()
      ensures shm != null ==> fresh(shm) && shm !in old(buffers)
      ensures shm != null ==>
        Leads(old(View()), [Allocate(ctx, shm, nonsecure, size, memory, prevMemory && nextMemory, exported)], View())
      ensures shm == null ==> View() == old(View())
      ensures var taken := TakeStorage(old(pool.View()), nonsecure, size, memory, prevMemory && nextMemory); (
        && (shm != null <==> taken.Taken? && exported)
        && ret == (if shm != null || taken.Nothing? then 0 else -ENOMEM))
    {
      ret, shm := AllocBuffer(ctx, nonsecure, size, memory, prevMemory, nextMemory, exported);
      if shm != null {
        AllocateLeads(old(View()), ctx, shm, nonsecure, size, memory, prevMemory && nextMemory, exported);
      }
    }

    /** tee_shm_alloc_io_perm: only static buffers. */
    method ShmAllocIoPerm(ctx: TeeContext, nonsecure: bool, size: nat, memory: bool, prevMemory: bool, nextMemory: bool,
        exported: bool)
      returns (ret: int, shm: TeeShm?)
      requires Valid() && ctx in contexts && !contexts[ctx].closed && size < WORD
      modifies this`refcount, this`pending, this`shmStat, this`contexts, this`buffers, pool, pool.mchunks, ctx`refcount
      modifies ctx`buffers
      ensures Valid()
      ensures nonsecure ==> ret == -EINVAL && shm == null
      ensures shm != null ==> fresh(shm) && shm !in old(buffers)
      ensures shm != null ==>
        Leads(old(View()), [Allocate(ctx, shm, false, size, memory, prevMemory && nextMemory, exported)], View())
      ensures shm == null ==> View() == old(View())
      ensures !nonsecure ==>
        var taken := TakeStorage(old(pool.View()), false, size, memory, prevMemory && nextMemory);
        && (shm != null <==> taken.Taken? && exported)
        && ret == (if shm != null || taken.Nothing? then 0 else -ENOMEM)
    {
      if nonsecure { return -EINVAL, null; }
      ret, shm := ShmAllocIo(ctx, false, size, memory, prevMemory, nextMemory, exported);
    }

    method AllocBuffer(ctx: TeeContext, nonsecure: bool, size: nat, memory: bool, prevMemory: bool, nextMemory: bool,
        exported: bool)
      returns (ret: int, shm: TeeShm?)
      requires Linked() && PoolReady() && ctx in contexts && size < WORD
      modifies this`refcount, this`pending, this`shmStat, this`contexts, this`buffers, pool, pool.mchunks, ctx`refcount
      modifies ctx`buffers
      ensures Linked() && PoolReady()
      ensures shm != null ==> fresh(shm) && shm !in old(buffers)
      ensures shm != null ==>
        View() == AllocIo(old(View()), ctx, shm, nonsecure, size, memory, prevMemory && nextMemory, exported).0
      ensures shm == null ==> View() == old(View())
      ensures var taken := TakeStorage(old(pool.View()), nonsecure, size, memory, prevMemory && nextMemory); (
        && (shm != null <==> taken.Taken? && exported)
        && ret == (if shm != null || taken.Nothing? then 0 else -ENOMEM))
    {
      ret, shm := ShmAllocExported(nonsecure, size, memory, prevMemory, nextMemory, exported);
      if shm != null {
        assert shm !in buffers;
        ShmAttachIo(ctx, shm);
      }
    }

    /** The locked bookkeeping of tee_shm_free_io, before the storage is freed. */
    method ShmDetach(shm: TeeShm)
      requires Linked() && shm in buffers && shm.ctx in contexts
      modifies this`shmStat, this`pending, this`contexts, this`buffers, shm.ctx`buffers
      ensures Linked() && View() == DetachBuffer(old(View()), shm)
    {
      var ctx: TeeContext := shm.ctx;
      CountShm(DecStats(shmStat));
      SetBuffers(ctx, Without(ctx.buffers, shm));
      NoteBuffer(shm, buffers[shm].(byFile := false));
      pending := pending + 1;
    }

    /** tee_shm_free_io. */
    method ShmFreeIo(shm: TeeShm)
      requires Valid() && Allowed(View(), ReleaseFile(shm))
      modifies this`refcount, this`pending, this`contextStat, this`shmStat, this`listCtx, this`contexts, this`buffers
      modifies shm`ref, pool, pool.mchunks, if shm.ctx != null then {shm.ctx} else {}
      ensures Valid() && Leads(old(View()), [ReleaseFile(shm)], View())
    {
      ReleaseLeads(View(), shm);
      ReleaseBuffer(shm);
    }

    method ReleaseBuffer(shm: TeeShm)
      requires Linked() && PoolReady() && shm in buffers && shm.ctx in contexts
      requires !shm.nonsecure ==> shm.paddr in Live(pool.chunks)
      modifies this`refcount, this`pending, this`contextStat, this`shmStat, this`listCtx, this`contexts, this`buffers
      modifies shm`ref, pool, pool.mchunks, shm.ctx`refcount, shm.ctx`buffers
      ensures Linked() && PoolReady() && View() == FreeIo(old(View()), shm)
    {
      var ctx: TeeContext := shm.ctx;
      ShmDetach(shm);
      ShmFree(shm);
      Leave(ctx);
    }

    /** tee_put and tee_context_put. */
    method Leave(ctx: TeeContext)
      requires Linked() && ctx in contexts && pending > 0
      modifies this`refcount, this`pending, this`contextStat, this`listCtx, this`contexts, ctx`refcount
      ensures Linked() && View() == PutContext(PutTee(old(View())), ctx)
    {
      Put();
      ContextPut(ctx);
    }

    /** tee_shm_alloc_from_rpc. */
    method ShmAllocFromRpc(nonsecure: bool, size: nat, memory: bool, prevMemory: bool, nextMemory: bool)
      returns (shm: TeeShm?)
      requires Valid() && size < WORD
      modifies this`shmStat, this`listRpcShm, this`buffers, pool, pool.mchunks
      ensures Valid()
      ensures shm == null ==> View() == old(View())
      ensures shm != null ==> fresh(shm) && shm !in old(buffers)
      ensures shm != null ==>
        Leads(old(View()), [RpcAllocate(shm, nonsecure, size, memory, prevMemory && nextMemory)], View())
      ensures shm != null <==> TakeStorage(old(pool.View()), nonsecure, size, memory, prevMemory && nextMemory).Taken?
    {
      shm := AllocRpcBuffer(nonsecure, size, memory, prevMemory, nextMemory);
      if shm != null {
        RpcAllocateLeads(old(View()), shm, nonsecure, size, memory, prevMemory && nextMemory);
      }
    }

    method AllocRpcBuffer(nonsecure: bool, size: nat, memory: bool, prevMemory: bool, nextMemory: bool)
      returns (shm: TeeShm?)
      requires Linked() && PoolReady() && size < WORD
      modifies this`shmStat, this`listRpcShm, this`buffers, pool, pool.mchunks
      ensures Linked() && PoolReady()
      ensures shm == null ==> View() == old(View())
      ensures shm != null ==> fresh(shm) && shm !in old(buffers)
      ensures shm != null ==> View() == AllocRpc(old(View()), shm, nonsecure, size, memory, prevMemory && nextMemory)
      ensures shm != null <==> TakeStorage(old(pool.View()), nonsecure, size, memory, prevMemory && nextMemory).Taken?
    {
      var ret;
      shm, ret := ShmAlloc(nonsecure, size, memory, prevMemory, nextMemory);
      if shm != null {
        assert shm !in buffers;
        ShmListRpc(shm);
      }
    }

    method ShmListRpc(shm: TeeShm)
      requires Linked() && shm.New(shm.nonsecure, shm.paddr)
      modifies this`shmStat, this`listRpcShm, this`buffers
      ensures Linked()
      ensures View() == old(View()).(
        shmStat := IncStats(old(shmStat)), rpc := old(listRpcShm) + [shm],
        buffers := old(buffers)[shm := Shm(shm.nonsecure, shm.paddr, 1, null, true, false)])
    {
      CountShm(IncStats(shmStat));
      listRpcShm := listRpcShm + [shm];
      NoteBuffer(shm, Shm(shm.nonsecure, shm.paddr, 1, null, true, false));
    }

    /** tee_shm_free_from_rpc. */
    method ShmFreeFromRpc(shm: TeeShm?)
      requires Valid() && (shm != null ==> Allowed(View(), RpcRelease(shm)))
      modifies this`shmStat, this`listRpcShm, this`buffers, if shm != null then {shm} else {}, pool, pool.mchunks
      ensures Valid() && if shm != null then Leads(old(View()), [RpcRelease(shm)], View()) else View() == old(View())
    {
      if shm == null { return; }
      RpcReleaseLeads(View(), shm);
      ShmLeaveRpc(shm);
      ShmFree(shm);
    }

    method ShmLeaveRpc(shm: TeeShm)
      requires Linked() && shm in buffers
      modifies this`shmStat, this`listRpcShm, this`buffers
      ensures Linked() && View() == DetachRpc(old(View()), shm)
    {
      if shm.ctx == null {
        CountShm(DecStats(shmStat));
        listRpcShm := Without(listRpcShm, shm);
      }
      NoteBuffer(shm, buffers[shm].(byRpc := false));
    }

    /** tee_shm_fd_for_rpc once there is a file: the buffer leaves the list of the secure world ... */
    method ShmClaim(ctx: TeeContext, shm: TeeShm)
      requires Linked() && shm in buffers
      modifies this`listRpcShm, this`buffers, shm`ctx
      ensures Linked() && View() == ClaimRpc(old(View()), ctx, shm)
    {
      SetContext(shm, ctx);
      listRpcShm := Without(listRpcShm, shm);
    }

    /** ... and the references are taken: on the buffer itself, for a nonsecure one, ... */
    method ShmShare(shm: TeeShm)
      requires Linked() && shm in buffers
      modifies this`buffers, shm`ref
      ensures Linked() && View() == old(View()).(buffers := old(buffers)[shm := Shared(old(buffers)[shm])])
    {
      if shm.nonsecure { SetRef(shm, shm.ref + 1); }
      NoteBuffer(shm, buffers[shm].(byFile := true));
    }

    /** ... on the tee and on the context. */
    method ShmAttachRpc(ctx: TeeContext, shm: TeeShm)
      requires Linked() && ctx in contexts && shm in buffers
      modifies this`refcount, this`pending, this`listRpcShm, this`contexts, this`buffers, shm`ctx, shm`ref
      modifies ctx`refcount, ctx`buffers
      ensures Linked() && View() == ExportAttach(old(View()), ctx, shm)
    {
      ShmClaim(ctx, shm);
      TakeReferences(ctx);
      ShmShare(shm);
      SetBuffers(ctx, [shm] + ctx.buffers);
    }

    /** tee_shm_pool_incref. */
    method PoolIncref(paddr: nat) returns (ok: bool)
      requires Linked() && PoolReady() && paddr in Live(pool.chunks)
        && Live(pool.chunks)[paddr].counter < COUNTER_WRAP - 1
      modifies pool, pool.mchunks
      ensures Linked() && PoolReady() && ok && View() == old(View()).(pool := Ops.Incref(old(pool.View()), paddr).0)
    {
      Laws.FindLive(pool.View(), paddr);
      Laws.IncrefKeeps(pool.View(), paddr);
      ok := pool.Incref(paddr);
    }

    /** tee_shm_fd_for_rpc for the entry of the list that the address of the caller names, if any. */
    method ShmFdForRpc(ctx: TeeContext, found: TeeShm?, wantNonsecure: bool, exported: bool) returns (ret: int)
      requires Valid() && ctx in contexts && !contexts[ctx].closed && (found != null ==> found in listRpcShm)
      modifies this`refcount, this`pending, this`listRpcShm, this`contexts, this`buffers, ctx`refcount, ctx`buffers
      modifies if found != null then {found} else {}, pool, pool.mchunks
      ensures Valid() && (ret == 0 <==> found != null && wantNonsecure == old(found.nonsecure) && exported)
      ensures ret != 0 ==> ret == -ENOMEM && View() == old(View())
      ensures found != null ==> Leads(old(View()), [Export(ctx, found, wantNonsecure, exported)], View())
    {
      if found != null { ExportLeads(View(), ctx, found, wantNonsecure, exported); }
      ret := ExportBuffer(ctx, found, wantNonsecure, exported);
    }

    method ExportBuffer(ctx: TeeContext, found: TeeShm?, wantNonsecure: bool, exported: bool) returns (ret: int)
      requires Linked() && PoolReady() && ctx in contexts && (found != null ==> found in buffers)
      requires found != null && !found.nonsecure ==>
        found.paddr in Live(pool.chunks) && Live(pool.chunks)[found.paddr].counter < COUNTER_WRAP - 1
      modifies this`refcount, this`pending, this`listRpcShm, this`contexts, this`buffers, ctx`refcount, ctx`buffers
      modifies if found != null then {found} else {}, pool, pool.mchunks
      ensures Linked() && PoolReady()
        && (ret == 0 <==> found != null && wantNonsecure == old(found.nonsecure) && exported)
      ensures ret != 0 ==> ret == -ENOMEM && View() == old(View())
      ensures found != null ==> (View(), ret) == ExportRpc(old(View()), ctx, found, wantNonsecure, exported)
    {
      if found == null || wantNonsecure != found.nonsecure || !exported { return -ENOMEM; }
      if wantNonsecure { ShmAttachRpc(ctx, found); } else { ShmAttachStatic(ctx, found); }
      ret := 0;
    }

    method ShmAttachStatic(ctx: TeeContext, shm: TeeShm)
      requires Linked() && PoolReady() && ctx in contexts && shm in buffers
      requires shm.paddr in Live(pool.chunks) && Live(pool.chunks)[shm.paddr].counter < COUNTER_WRAP - 1
      modifies this`refcount, this`pending, this`listRpcShm, this`contexts, this`buffers, ctx`refcount, ctx`buffers
      modifies shm`ctx, shm`ref, pool, pool.mchunks
      ensures Linked() && PoolReady()
      ensures View() == ExportAttach(old(View()), ctx, shm).(pool := Ops.Incref(old(pool.View()), shm.paddr).0)
    {
      ShmAttachRpc(ctx, shm);
      var ok := PoolIncref(shm.paddr);
    }
  }
}
