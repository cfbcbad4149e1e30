/** Each operation on the graph keeps its lists, its counters and its storage in agreement. The
    proofs follow the references: an operation takes one in hand from whoever held it and gives it to
    whoever holds it next, so that each half is one lemma about lists and counts. Most lemmas speak of
    the parts of a graph that they are about, which keeps them small; those that speak of a whole
    graph only put these together. */
module ObjectGraphProofs {

  import opened Collections
  import opened ShmPoolModel
  import opened ShmPoolOps
  import opened ShmPoolLaws
  import opened Alignment
  import opened ObjectGraph

  // ---------------------------------------------------------------- references to contexts

  lemma GetContextKeeps(g: Graph, c: TeeContext)
    requires Wired(g, null) && c in g.contexts
    ensures Wired(GetContext(g, c), c)
  {
    var n := GetContext(g, c);
    assert n.contexts.Keys == g.contexts.Keys;
    forall d | d in n.contexts ensures OneContextOk(n.contexts, d, c, n.sessions, n.buffers) {
      assert OneContextOk(g.contexts, d, null, g.sessions, g.buffers);
    }
  }

  /** The last reference is the one in hand exactly when the context is closed and has neither
      sessions nor buffers. */
  lemma LastReference(g: Graph, c: TeeContext)
    requires Wired(g, c)
    ensures g.contexts[c].refcount == 1 <==>
      g.contexts[c].closed && Where(g.sessions, InContext(c)) == {} && Where(g.buffers, OwnedBy(c)) == {}
  {
    assert OneContextOk(g.contexts, c, c, g.sessions, g.buffers);
    var all, owned := Where(g.sessions, InContext(c)), Where(g.buffers, OwnedBy(c));
    assert |all| == 0 <==> all == {};
    assert |owned| == 0 <==> owned == {};
  }

  lemma FreedKeepsPointers(contexts: map<TeeContext, Ctx>, sessions: map<TeeSession, Sess>, buffers: map<TeeShm, Shm>,
      c: TeeContext)
    requires Pointers(contexts, sessions, buffers)
    requires Where(sessions, InContext(c)) == {} && Where(buffers, OwnedBy(c)) == {}
    ensures Pointers(contexts - {c}, sessions, buffers)
  {
    forall s | s in sessions ensures sessions[s].ctx in contexts - {c} {
      assert s !in Where(sessions, InContext(c));
    }
    forall b | b in buffers ensures BufferOk(buffers[b], contexts - {c}) {
      assert b !in Where(buffers, OwnedBy(c));
    }
  }

  lemma PutContextKeeps(g: Graph, c: TeeContext)
    requires Wired(g, c)
    ensures Wired(PutContext(g, c), null)
  {
    var n := PutContext(g, c);
    LastReference(g, c);
    if g.contexts[c].refcount == 1 {
      WithoutLists(g.list, g.contexts.Keys, c);
      assert n.contexts.Keys == g.contexts.Keys - {c};
      FreedKeepsPointers(g.contexts, g.sessions, g.buffers, c);
    } else {
      assert n.contexts.Keys == g.contexts.Keys;
    }
    forall d | d in n.contexts ensures OneContextOk(n.contexts, d, null, n.sessions, n.buffers) {
      assert OneContextOk(g.contexts, d, c, g.sessions, g.buffers);
    }
  }

  lemma PutContextCounts(g: Graph, c: TeeContext)
    requires Counted(g) && c in g.contexts
    ensures Counted(PutContext(g, c))
  {
  }

  // ---------------------------------------------------------------- sessions

  /** A session of c comes, goes or changes: nothing changes for another context. */
  lemma OtherSessions(sessions: map<TeeSession, Sess>, s: TeeSession, x: Sess, c: TeeContext)
    requires x.ctx != c && (s in sessions ==> sessions[s].ctx != c)
    ensures Where(sessions[s := x], ListedIn(c)) == Where(sessions - {s}, ListedIn(c)) == Where(sessions, ListedIn(c))
    ensures Where(sessions[s := x], InContext(c)) == Where(sessions - {s}, InContext(c))
      == Where(sessions, InContext(c))
  {
  }

  /** The reference in hand becomes the one of a new, unlisted session. */
  lemma HandToSession(x: Ctx, listed: set<TeeSession>, all: set<TeeSession>, owned: set<TeeShm>, s: TeeSession)
    requires ContextOk(x, 1, listed, all, owned) && s !in all
    ensures ContextOk(x, 0, listed, all + {s}, owned)
  {
  }

  lemma NewSession(sessions: map<TeeSession, Sess>, s: TeeSession, c: TeeContext)
    requires s !in sessions
    ensures Where(sessions[s := Sess(c, Opening)], InContext(c)) == Where(sessions, InContext(c)) + {s}
    ensures Where(sessions[s := Sess(c, Opening)], ListedIn(c)) == Where(sessions, ListedIn(c))
    ensures s !in Where(sessions, InContext(c))
  {
  }

  lemma SessionTakesHand(contexts: map<TeeContext, Ctx>, sessions: map<TeeSession, Sess>, buffers: map<TeeShm, Shm>,
      s: TeeSession, c: TeeContext)
    requires ContextsOk(contexts, c, sessions, buffers) && s !in sessions
    ensures ContextsOk(contexts, null, sessions[s := Sess(c, Opening)], buffers)
  {
    var x := Sess(c, Opening);
    forall d | d in contexts ensures OneContextOk(contexts, d, null, sessions[s := x], buffers) {
      assert OneContextOk(contexts, d, c, sessions, buffers);
      if d == c {
        NewSession(sessions, s, c);
        HandToSession(contexts[c], Where(sessions, ListedIn(c)), Where(sessions, InContext(c)),
          Where(buffers, OwnedBy(c)), s);
      } else {
        OtherSessions(sessions, s, x, d);
      }
    }
  }

  lemma AttachSessionKeeps(g: Graph, s: TeeSession, c: TeeContext)
    requires Wired(g, c) && g.pending > 0 && s !in g.sessions
    ensures Wired(AttachSession(g, s, c), null)
  {
    SessionTakesHand(g.contexts, g.sessions, g.buffers, s, c);
  }

  /** A session leaves: the reference it held is in hand. */
  lemma SessionGivesHand(contexts: map<TeeContext, Ctx>, sessions: map<TeeSession, Sess>, buffers: map<TeeShm, Shm>,
      s: TeeSession, left: seq<TeeSession>)
    requires ContextsOk(contexts, null, sessions, buffers) && s in sessions && sessions[s].ctx in contexts
    requires Lists(left, Where(sessions, ListedIn(sessions[s].ctx)) - {s})
    ensures var c := sessions[s].ctx;
      ContextsOk(contexts[c := contexts[c].(sessions := left)], c, sessions - {s}, buffers)
  {
    var c := sessions[s].ctx;
    var after := contexts[c := contexts[c].(sessions := left)];
    forall d | d in after ensures OneContextOk(after, d, c, sessions - {s}, buffers) {
      assert OneContextOk(contexts, d, null, sessions, buffers);
      if d == c {
        WhereRemoved(sessions, s, InContext(c));
        WhereRemoved(sessions, s, ListedIn(c));
        assert s in Where(sessions, InContext(c));
      } else {
        OtherSessions(sessions, s, sessions[s], d);
      }
    }
  }

  /** An opened session is put on its context's list, or a listed one changes its phase. */
  lemma SessionListed(contexts: map<TeeContext, Ctx>, sessions: map<TeeSession, Sess>, buffers: map<TeeShm, Shm>,
      s: TeeSession, x: Sess, now: seq<TeeSession>)
    requires ContextsOk(contexts, null, sessions, buffers) && s in sessions && x.ctx == sessions[s].ctx
      && x.ctx in contexts
    requires x.phase != Opening && Lists(now, Where(sessions, ListedIn(x.ctx)) + {s})
    ensures ContextsOk(contexts[x.ctx := contexts[x.ctx].(sessions := now)], null, sessions[s := x], buffers)
  {
    var c := x.ctx;
    var after := contexts[c := contexts[c].(sessions := now)];
    forall d | d in after ensures OneContextOk(after, d, null, sessions[s := x], buffers) {
      assert OneContextOk(contexts, d, null, sessions, buffers);
      if d == c {
        WhereSet(sessions, s, x, InContext(c));
        WhereSet(sessions, s, x, ListedIn(c));
        assert Where(sessions, InContext(c)) + {s} == Where(sessions, InContext(c));
      } else {
        OtherSessions(sessions, s, x, d);
      }
    }
  }

  lemma SessionSet(sessions: map<TeeSession, Sess>, s: TeeSession, x: Sess)
    ensures |sessions[s := x]| == |sessions| + if s in sessions then 0 else 1
    ensures |Where(sessions[s := x], Listed())|
            == |Where(sessions, Listed())|
              + (if x.phase != Opening then 1 else 0) - (if s in sessions && sessions[s].phase != Opening then 1 else 0)
  {
    WhereSet(sessions, s, x, Listed());
    assert sessions[s := x].Keys == sessions.Keys + {s};
    assert |sessions| == |sessions.Keys| && |sessions[s := x]| == |sessions[s := x].Keys|;
    assert s in Where(sessions, Listed()) <==> s in sessions && sessions[s].phase != Opening;
  }

  lemma SessionRemoved(sessions: map<TeeSession, Sess>, s: TeeSession)
    requires s in sessions
    ensures |sessions - {s}| == |sessions| - 1
    ensures |Where(sessions - {s}, Listed())|
      == |Where(sessions, Listed())| - if sessions[s].phase != Opening then 1 else 0
  {
    WhereRemoved(sessions, s, Listed());
    assert (sessions - {s}).Keys == sessions.Keys - {s};
    assert |sessions| == |sessions.Keys| && |sessions - {s}| == |(sessions - {s}).Keys|;
    assert s in Where(sessions, Listed()) <==> sessions[s].phase != Opening;
  }

  /** Changing the fields of a context changes neither the list of contexts nor what points to it. */
  lemma SameContexts(contexts: map<TeeContext, Ctx>, c: TeeContext, x: Ctx, sessions: map<TeeSession, Sess>,
      buffers: map<TeeShm, Shm>)
    requires c in contexts
    ensures contexts[c := x].Keys == contexts.Keys && |contexts[c := x]| == |contexts|
    ensures Pointers(contexts, sessions, buffers) ==> Pointers(contexts[c := x], sessions, buffers)
  {
  }

  lemma AttachSessionCounts(g: Graph, s: TeeSession, c: TeeContext)
    requires Counted(g) && g.pending > 0 && s !in g.sessions
    ensures Counted(AttachSession(g, s, c))
  {
    SessionSet(g.sessions, s, Sess(c, Opening));
  }

  /** A session that is already there keeps its context. */
  lemma SamePointers(contexts: map<TeeContext, Ctx>, sessions: map<TeeSession, Sess>, buffers: map<TeeShm, Shm>,
      s: TeeSession, x: Sess)
    requires Pointers(contexts, sessions, buffers) && x.ctx in contexts
    ensures Pointers(contexts, sessions[s := x], buffers)
  {
  }

  lemma OpenDoneKeeps(g: Graph, s: TeeSession)
    requires Wired(g, null) && s in g.sessions && g.sessions[s].phase == Opening
    ensures Wired(OpenDone(g, s), null)
  {
    var c := g.sessions[s].ctx;
    var x := g.contexts[c];
    var now := x.sessions + [s];
    var sessions := g.sessions[s := Sess(c, Open)];
    var contexts := g.contexts[c := x.(sessions := now)];
    assert ContextsOk(contexts, null, sessions, g.buffers) by {
      assert OneContextOk(g.contexts, c, null, g.sessions, g.buffers);
      AppendLists(x.sessions, Where(g.sessions, ListedIn(c)), s);
      SessionListed(g.contexts, g.sessions, g.buffers, s, Sess(c, Open), now);
    }
    assert contexts.Keys == g.contexts.Keys && Pointers(contexts, sessions, g.buffers) by {
      SamePointers(g.contexts, g.sessions, g.buffers, s, Sess(c, Open));
      SameContexts(g.contexts, c, x.(sessions := now), sessions, g.buffers);
    }
  }

  lemma OpenDoneCounts(g: Graph, s: TeeSession)
    requires Counted(g) && s in g.sessions && g.sessions[s].ctx in g.contexts && g.sessions[s].phase == Opening
    ensures Counted(OpenDone(g, s))
  {
    var c := g.sessions[s].ctx;
    SessionSet(g.sessions, s, Sess(c, Open));
    SameContexts(g.contexts, c, OpenDone(g, s).contexts[c], g.sessions, g.buffers);
  }

  lemma DetachUnlistedKeeps(g: Graph, s: TeeSession)
    requires Wired(g, null) && s in g.sessions && g.sessions[s].phase == Opening
    ensures Wired(DetachUnlisted(g, s), g.sessions[s].ctx)
  {
    var c := g.sessions[s].ctx;
    assert ContextsOk(g.contexts, c, g.sessions - {s}, g.buffers) by {
      assert OneContextOk(g.contexts, c, null, g.sessions, g.buffers);
      assert Where(g.sessions, ListedIn(c)) - {s} == Where(g.sessions, ListedIn(c));
      SessionGivesHand(g.contexts, g.sessions, g.buffers, s, g.contexts[c].sessions);
      assert g.contexts[c := g.contexts[c].(sessions := g.contexts[c].sessions)] == g.contexts;
    }
    assert Pointers(g.contexts, g.sessions - {s}, g.buffers);
  }

  lemma DetachUnlistedCounts(g: Graph, s: TeeSession)
    requires Counted(g) && s in g.sessions && g.sessions[s].phase == Opening
    ensures Counted(DetachUnlisted(g, s))
  {
    SessionRemoved(g.sessions, s);
  }

  lemma CloseBeginKeeps(g: Graph, s: TeeSession)
    requires Wired(g, null) && s in g.sessions && g.sessions[s].phase == Open
    ensures Wired(CloseBegin(g, s), null)
  {
    var c := g.sessions[s].ctx;
    var x := Sess(c, Closing);
    assert ContextsOk(g.contexts, null, g.sessions[s := x], g.buffers) by {
      assert OneContextOk(g.contexts, c, null, g.sessions, g.buffers);
      assert Where(g.sessions, ListedIn(c)) + {s} == Where(g.sessions, ListedIn(c));
      SessionListed(g.contexts, g.sessions, g.buffers, s, x, g.contexts[c].sessions);
      assert g.contexts[c := g.contexts[c].(sessions := g.contexts[c].sessions)] == g.contexts;
    }
    SamePointers(g.contexts, g.sessions, g.buffers, s, x);
  }

  lemma CloseBeginCounts(g: Graph, s: TeeSession)
    requires Counted(g) && s in g.sessions && g.sessions[s].phase == Open
    ensures Counted(CloseBegin(g, s))
  {
    SessionSet(g.sessions, s, g.sessions[s].(phase := Closing));
  }

  lemma DetachListedKeeps(g: Graph, s: TeeSession)
    requires Wired(g, null) && s in g.sessions && g.sessions[s].phase != Opening
    ensures Wired(DetachListed(g, s), g.sessions[s].ctx)
  {
    var c := g.sessions[s].ctx;
    var x := g.contexts[c];
    var left := Without(x.sessions, s);
    var contexts := g.contexts[c := x.(sessions := left)];
    assert ContextsOk(contexts, c, g.sessions - {s}, g.buffers) by {
      assert OneContextOk(g.contexts, c, null, g.sessions, g.buffers);
      WithoutLists(x.sessions, Where(g.sessions, ListedIn(c)), s);
      SessionGivesHand(g.contexts, g.sessions, g.buffers, s, left);
    }
    assert contexts.Keys == g.contexts.Keys && Pointers(contexts, g.sessions - {s}, g.buffers) by {
      assert Pointers(g.contexts, g.sessions - {s}, g.buffers);
      SameContexts(g.contexts, c, x.(sessions := left), g.sessions - {s}, g.buffers);
    }
  }

  lemma DetachListedCounts(g: Graph, s: TeeSession)
    requires Counted(g) && s in g.sessions && g.sessions[s].ctx in g.contexts && g.sessions[s].phase != Opening
    ensures Counted(DetachListed(g, s))
  {
    var c := g.sessions[s].ctx;
    SessionRemoved(g.sessions, s);
    SameContexts(g.contexts, c, DetachListed(g, s).contexts[c], g.sessions, g.buffers);
  }

  // ---------------------------------------------------------------- buffers and their contexts

  /** A buffer of c comes, goes or changes: nothing changes for another context. */
  lemma OtherBuffers(buffers: map<TeeShm, Shm>, b: TeeShm, x: Shm, c: TeeContext)
    requires !OwnedBy(c)(x) && (b in buffers ==> !OwnedBy(c)(buffers[b]))
    ensures Where(buffers[b := x], OwnedBy(c)) == Where(buffers - {b}, OwnedBy(c)) == Where(buffers, OwnedBy(c))
  {
  }

  /** The reference in hand becomes the one of a buffer newly held by a file. */
  lemma BufferTakesHand(contexts: map<TeeContext, Ctx>, sessions: map<TeeSession, Sess>, buffers: map<TeeShm, Shm>,
      b: TeeShm, x: Shm, listed: seq<TeeShm>)
    requires x.byFile && x.ctx in contexts && (b in buffers ==> !buffers[b].byFile)
    requires ContextsOk(contexts, x.ctx, sessions, buffers) && Lists(listed, Where(buffers, OwnedBy(x.ctx)) + {b})
    ensures ContextsOk(contexts[x.ctx := contexts[x.ctx].(buffers := listed)], null, sessions, buffers[b := x])
  {
    var c: TeeContext := x.ctx;
    var after := contexts[c := contexts[c].(buffers := listed)];
    forall d | d in after ensures OneContextOk(after, d, null, sessions, buffers[b := x]) {
      assert OneContextOk(contexts, d, c, sessions, buffers);
      if d == c {
        WhereSet(buffers, b, x, OwnedBy(c));
        assert b !in Where(buffers, OwnedBy(c));
      } else {
        OtherBuffers(buffers, b, x, d);
      }
    }
  }

  /** A file gives up its buffer: the reference it held is in hand. */
  lemma BufferGivesHand(contexts: map<TeeContext, Ctx>, sessions: map<TeeSession, Sess>, buffers: map<TeeShm, Shm>,
      b: TeeShm, left: seq<TeeShm>)
    requires b in buffers && buffers[b].byFile && buffers[b].ctx in contexts
    requires ContextsOk(contexts, null, sessions, buffers) && Lists(left, Where(buffers, OwnedBy(buffers[b].ctx)) - {b})
    ensures var c := buffers[b].ctx;
      ContextsOk(contexts[c := contexts[c].(buffers := left)], c, sessions, buffers[b := buffers[b].(byFile := false)])
  {
    var c: TeeContext := buffers[b].ctx;
    var x := buffers[b].(byFile := false);
    var after := contexts[c := contexts[c].(buffers := left)];
    forall d | d in after ensures OneContextOk(after, d, c, sessions, buffers[b := x]) {
      assert OneContextOk(contexts, d, null, sessions, buffers);
      if d == c {
        WhereSet(buffers, b, x, OwnedBy(c));
        assert b in Where(buffers, OwnedBy(c));
      } else {
        OtherBuffers(buffers, b, x, d);
      }
    }
  }

  /** A buffer that no file holds may change or go without any context noticing. */
  lemma BufferAside(contexts: map<TeeContext, Ctx>, hand: TeeContext?, sessions: map<TeeSession, Sess>,
      buffers: map<TeeShm, Shm>, b: TeeShm, x: Shm)
    requires ContextsOk(contexts, hand, sessions, buffers) && (b in buffers ==> !buffers[b].byFile) && !x.byFile
    ensures ContextsOk(contexts, hand, sessions, buffers[b := x])
    ensures ContextsOk(contexts, hand, sessions, buffers - {b})
  {
    forall d | d in contexts
      ensures OneContextOk(contexts, d, hand, sessions, buffers[b := x])
        && OneContextOk(contexts, d, hand, sessions, buffers - {b})
    {
      assert OneContextOk(contexts, d, hand, sessions, buffers);
      OtherBuffers(buffers, b, x, d);
    }
  }

  lemma BufferPointers(contexts: map<TeeContext, Ctx>, sessions: map<TeeSession, Sess>, buffers: map<TeeShm, Shm>,
      b: TeeShm, x: Shm)
    requires Pointers(contexts, sessions, buffers) && BufferOk(x, contexts)
    ensures Pointers(contexts, sessions, buffers[b := x]) && Pointers(contexts, sessions, buffers - {b})
  {
  }

  function One(b: bool): int { if b then 1 else 0 }

  lemma BufferSet(buffers: map<TeeShm, Shm>, b: TeeShm, x: Shm)
    ensures |Where(buffers[b := x], HeldByFile())|
            == |Where(buffers, HeldByFile())| + One(x.byFile) - One(b in buffers && buffers[b].byFile)
    ensures |Where(buffers[b := x], OnAList())|
            == |Where(buffers, OnAList())| + One(OnAList()(x)) - One(b in buffers && OnAList()(buffers[b]))
  {
    WhereSet(buffers, b, x, HeldByFile());
    WhereSet(buffers, b, x, OnAList());
    assert b in Where(buffers, HeldByFile()) <==> b in buffers && buffers[b].byFile;
    assert b in Where(buffers, OnAList()) <==> b in buffers && OnAList()(buffers[b]);
  }

  lemma BufferRemoved(buffers: map<TeeShm, Shm>, b: TeeShm)
    requires b in buffers && !OnAList()(buffers[b])
    ensures Where(buffers - {b}, HeldByFile()) == Where(buffers, HeldByFile())
    ensures Where(buffers - {b}, OnAList()) == Where(buffers, OnAList())
    ensures Where(buffers - {b}, Unexported()) == Where(buffers, Unexported())
  {
  }

  lemma AttachBufferKeeps(g: Graph, b: TeeShm, x: Shm, listed: seq<TeeShm>)
    requires Wired(g, x.ctx) && g.pending > 0 && x.byFile && x.ctx != null
    requires b in g.buffers ==> !OnAList()(g.buffers[b]) 
    requires Lists(listed, Where(g.buffers, OwnedBy(x.ctx)) + {b})
    ensures Wired(AttachBuffer(g, b, x, listed), null)
  {
    var c: TeeContext := x.ctx;
    var y := g.contexts[c].(buffers := listed);
    var buffers := g.buffers[b := x];
    BufferTakesHand(g.contexts, g.sessions, g.buffers, b, x, listed);
    assert Where(buffers, Unexported()) == Where(g.buffers, Unexported()) by {
      WhereSet(g.buffers, b, x, Unexported());
    }
    assert g.contexts[c := y].Keys == g.contexts.Keys && Pointers(g.contexts[c := y], g.sessions, buffers) by {
      BufferPointers(g.contexts, g.sessions, g.buffers, b, x);
      SameContexts(g.contexts, c, y, g.sessions, buffers);
    }
  }

  lemma AttachBufferCounts(g: Graph, b: TeeShm, x: Shm, listed: seq<TeeShm>)
    requires g.pending > 0 && x.byFile && x.ctx in g.contexts
    requires b in g.buffers ==> !OnAList()(g.buffers[b])
    requires CountedAs(g, |Where(g.buffers, OnAList())| + 1)
    ensures Counted(AttachBuffer(g, b, x, listed))
  {
    BufferSet(g.buffers, b, x);
    SameContexts(g.contexts, x.ctx, AttachBuffer(g, b, x, listed).contexts[x.ctx], g.sessions, g.buffers);
  }

  lemma GetContextCounts(g: Graph, c: TeeContext, listed: nat)
    requires CountedAs(g, listed) && c in g.contexts
    ensures CountedAs(GetContext(g, c), listed)
  {
    SameContexts(g.contexts, c, GetContext(g, c).contexts[c], g.sessions, g.buffers);
  }

  lemma DetachBufferKeeps(g: Graph, b: TeeShm)
    requires Wired(g, null) && b in g.buffers && g.buffers[b].byFile
    ensures Wired(DetachBuffer(g, b), g.buffers[b].ctx)
  {
    var c: TeeContext := g.buffers[b].ctx;
    var x := g.contexts[c];
    var left := Without(x.buffers, b);
    var y := x.(buffers := left);
    var z := g.buffers[b].(byFile := false);
    var buffers := g.buffers[b := z];
    assert ContextsOk(g.contexts[c := y], c, g.sessions, buffers) by {
      assert OneContextOk(g.contexts, c, null, g.sessions, g.buffers);
      assert b in Where(g.buffers, OwnedBy(c));
      WithoutLists(x.buffers, Where(g.buffers, OwnedBy(c)), b);
      BufferGivesHand(g.contexts, g.sessions, g.buffers, b, left);
    }
    assert Where(buffers, Unexported()) == Where(g.buffers, Unexported()) by {
      WhereSet(g.buffers, b, z, Unexported());
    }
    assert g.contexts[c := y].Keys == g.contexts.Keys && Pointers(g.contexts[c := y], g.sessions, buffers) by {
      BufferPointers(g.contexts, g.sessions, g.buffers, b, z);
      SameContexts(g.contexts, c, y, g.sessions, buffers);
    }
  }

  lemma DetachBufferCounts(g: Graph, b: TeeShm)
    requires Counted(g) && b in g.buffers && g.buffers[b].byFile && g.buffers[b].ctx in g.contexts
      && g.buffers[b].ctx != null
    ensures Counted(DetachBuffer(g, b))
  {
    BufferSet(g.buffers, b, g.buffers[b].(byFile := false));
    SameContexts(g.contexts, g.buffers[b].ctx, DetachBuffer(g, b).contexts[g.buffers[b].ctx], g.sessions, g.buffers);
  }

  lemma ClaimRpcKeeps(g: Graph, c: TeeContext, b: TeeShm)
    requires Wired(g, null) && b in g.buffers && Unexported()(g.buffers[b]) && c in g.contexts
    ensures Wired(ClaimRpc(g, c, b), null)
  {
    var x := g.buffers[b].(ctx := c);
    WhereSet(g.buffers, b, x, Unexported());
    WithoutLists(g.rpc, Where(g.buffers, Unexported()), b);
    BufferAside(g.contexts, null, g.sessions, g.buffers, b, x);
    BufferPointers(g.contexts, g.sessions, g.buffers, b, x);
  }

  lemma ClaimRpcCounts(g: Graph, c: TeeContext, b: TeeShm)
    requires Counted(g) && b in g.buffers && Unexported()(g.buffers[b]) && !g.buffers[b].byFile
    ensures CountedAs(ClaimRpc(g, c, b), |Where(ClaimRpc(g, c, b).buffers, OnAList())| + 1)
  {
    BufferSet(g.buffers, b, g.buffers[b].(ctx := c));
  }

  lemma DetachRpcKeeps(g: Graph, b: TeeShm)
    requires Wired(g, null) && b in g.buffers && g.buffers[b].byRpc
    ensures Wired(DetachRpc(g, b), null)
  {
    var y := g.buffers[b];
    var x := y.(byRpc := false);
    WhereSet(g.buffers, b, x, Unexported());
    if y.ctx == null { WithoutLists(g.rpc, Where(g.buffers, Unexported()), b); }
    BufferPointers(g.contexts, g.sessions, g.buffers, b, x);
    if y.byFile { BufferRelabelled(g.contexts, g.sessions, g.buffers, b, x); }
    else { BufferAside(g.contexts, null, g.sessions, g.buffers, b, x); }
  }

  /** The storage of a buffer may change hands without its context noticing. */
  lemma BufferRelabelled(contexts: map<TeeContext, Ctx>, sessions: map<TeeSession, Sess>, buffers: map<TeeShm, Shm>,
      b: TeeShm, x: Shm)
    requires ContextsOk(contexts, null, sessions, buffers) && b in buffers
    requires x.byFile == buffers[b].byFile && x.ctx == buffers[b].ctx
    ensures ContextsOk(contexts, null, sessions, buffers[b := x])
  {
    forall d | d in contexts ensures OneContextOk(contexts, d, null, sessions, buffers[b := x]) {
      assert OneContextOk(contexts, d, null, sessions, buffers);
      WhereSet(buffers, b, x, OwnedBy(d));
      assert Where(buffers[b := x], OwnedBy(d)) == Where(buffers, OwnedBy(d));
    }
  }

  lemma DetachRpcCounts(g: Graph, b: TeeShm)
    requires Counted(g) && b in g.buffers && g.buffers[b].byRpc && (g.buffers[b].ctx == null ==> !g.buffers[b].byFile)
    ensures Counted(DetachRpc(g, b))
  {
    BufferSet(g.buffers, b, g.buffers[b].(byRpc := false));
  }

  /** What the lists and counters can tell of two versions of the buffers is the same. */
  ghost predicate Alike(contexts: map<TeeContext, Ctx>, hand: TeeContext?, sessions: map<TeeSession, Sess>,
      buffers: map<TeeShm, Shm>, now: map<TeeShm, Shm>)
  {
    && Where(now, Unexported()) == Where(buffers, Unexported())
    && Where(now, HeldByFile()) == Where(buffers, HeldByFile())
    && Where(now, OnAList()) == Where(buffers, OnAList())
    && Pointers(contexts, sessions, now)
    && ContextsOk(contexts, hand, sessions, now)
  }

  lemma OffLists(contexts: map<TeeContext, Ctx>, hand: TeeContext?, sessions: map<TeeSession, Sess>,
      buffers: map<TeeShm, Shm>, b: TeeShm, x: Shm)
    requires ContextsOk(contexts, hand, sessions, buffers) && Pointers(contexts, sessions, buffers)
    requires b in buffers && !OnAList()(buffers[b]) && !OnAList()(x)
    ensures Alike(contexts, hand, sessions, buffers, buffers[b := x])
    ensures Alike(contexts, hand, sessions, buffers, buffers - {b})
  {
    BufferAside(contexts, hand, sessions, buffers, b, x);
    BufferPointers(contexts, sessions, buffers, b, x);
    BufferRemoved(buffers, b);
    WhereSet(buffers, b, x, Unexported());
    WhereSet(buffers, b, x, HeldByFile());
    WhereSet(buffers, b, x, OnAList());
  }

  lemma AlikeKeeps(g: Graph, n: Graph, hand: TeeContext?)
    requires Wired(g, hand) && Counted(g) && Alike(g.contexts, hand, g.sessions, g.buffers, n.buffers)
    requires n == g.(buffers := n.buffers, pool := n.pool)
    ensures Wired(n, hand) && Counted(n)
  {
  }

  /** Freeing the storage of a buffer changes the pool and the buffers alone. */
  predicate BuffersOnly(g: Graph, n: Graph) { n == g.(buffers := n.buffers, pool := n.pool) }

  lemma FreeShmShape(g: Graph, b: TeeShm)
    requires Inv(g.pool) && b in g.buffers
    ensures var n, x := FreeShm(g, b), g.buffers[b];
      && BuffersOnly(g, n)
      && (n.buffers == g.buffers[b := x.(ref := x.ref - 1)] || n.buffers == g.buffers - {b}
        || n.buffers == g.buffers[b := x])
  {
    assert g.buffers[b := g.buffers[b]] == g.buffers;
  }

  lemma AlikeFreed(contexts: map<TeeContext, Ctx>, hand: TeeContext?, sessions: map<TeeSession, Sess>,
      buffers: map<TeeShm, Shm>, b: TeeShm, now: map<TeeShm, Shm>)
    requires ContextsOk(contexts, hand, sessions, buffers) && Pointers(contexts, sessions, buffers)
    requires b in buffers && !OnAList()(buffers[b])
    requires var x := buffers[b];
      now == buffers[b := x.(ref := x.ref - 1)] || now == buffers - {b} || now == buffers[b := x]
    ensures Alike(contexts, hand, sessions, buffers, now)
  {
    var x := buffers[b];
    OffLists(contexts, hand, sessions, buffers, b, x.(ref := x.ref - 1));
    OffLists(contexts, hand, sessions, buffers, b, x);
  }

  /** Freeing the storage of a buffer that is on no list. */
  lemma FreeShmKeeps(g: Graph, b: TeeShm, hand: TeeContext?)
    requires Wired(g, hand) && Counted(g) && Inv(g.pool) && b in g.buffers && !OnAList()(g.buffers[b])
    ensures Wired(FreeShm(g, b), hand) && Counted(FreeShm(g, b))
  {
    var n := FreeShm(g, b);
    FreeShmShape(g, b);
    AlikeFreed(g.contexts, hand, g.sessions, g.buffers, b, n.buffers);
    AlikeKeeps(g, n, hand);
  }

  lemma AddRpcKeeps(g: Graph, b: TeeShm, x: Shm, pool: Pool)
    requires Wired(g, null) && Counted(g) && b !in g.buffers && x.ctx == null && x.byRpc && !x.byFile
    ensures var n := g.(pool := pool, shmStat := IncStats(g.shmStat), rpc := g.rpc + [b], buffers := g.buffers[b := x]);
      Wired(n, null) && Counted(n)
  {
    WhereSet(g.buffers, b, x, Unexported());
    AppendLists(g.rpc, Where(g.buffers, Unexported()), b);
    BufferAside(g.contexts, null, g.sessions, g.buffers, b, x);
    BufferPointers(g.contexts, g.sessions, g.buffers, b, x);
    BufferSet(g.buffers, b, x);
  }

  // ---------------------------------------------------------------- buffers and their storage

  /** A buffer's storage is there, and counts its owners; extra is 1 for the one that is being freed. */
  ghost predicate Kept(x: Shm, extra: nat, live: map<nat, Block>)
  {
    var owners := x.Owners() + extra;
    && owners > 0
    && if x.nonsecure then x.ref == owners else x.paddr in live && live[x.paddr].counter == owners
  }

  /** The live blocks of the pool are those of the buffers and the loans, each of one of them. */
  ghost predicate Housed(live: map<nat, Block>, buffers: map<TeeShm, Shm>, loans: set<nat>)
  {
    && (forall a :: a in loans ==> a in live && live[a].counter == 1)
    && (forall b :: b in buffers && !buffers[b].nonsecure ==> buffers[b].paddr !in loans)
    && (forall b, d :: b in buffers && d in buffers && b != d && !buffers[b].nonsecure && !buffers[d].nonsecure
          ==> buffers[b].paddr != buffers[d].paddr)
    && (forall a {:trigger HasBuffer(buffers, a)} :: a in live ==> a in loans || HasBuffer(buffers, a))
  }

  ghost predicate HasBuffer(buffers: map<TeeShm, Shm>, a: nat)
  {
    exists b :: b in buffers && !buffers[b].nonsecure && buffers[b].paddr == a
  }

  ghost predicate Stored(live: map<nat, Block>, buffers: map<TeeShm, Shm>, loans: set<nat>, hand: TeeShm?)
  {
    && Housed(live, buffers, loans)
    && forall b :: b in buffers ==> OneKept(live, buffers, b, hand)
  }

  ghost predicate OneKept(live: map<nat, Block>, buffers: map<TeeShm, Shm>, b: TeeShm, hand: TeeShm?)
    requires b in buffers
  {
    Kept(buffers[b], if b == hand then 1 else 0, live)
  }

  /** One owner gives up the buffer b: in the pool ... */
  lemma FreeStatic(live: map<nat, Block>, buffers: map<TeeShm, Shm>, loans: set<nat>, b: TeeShm)
    requires Stored(live, buffers, loans, b) && b in buffers && !buffers[b].nonsecure
    ensures var a := buffers[b].paddr; (
      && a in live
      && Stored(LiveAfterFree(live, a), if live[a].counter == 1 then buffers - {b} else buffers, loans, null))
  {
    var now := if live[buffers[b].paddr].counter == 1 then buffers - {b} else buffers;
    forall a | a in LiveAfterFree(live, buffers[b].paddr) && a !in loans ensures HasBuffer(now, a) {
      assert HasBuffer(buffers, a);
      var d :| d in buffers && !buffers[d].nonsecure && buffers[d].paddr == a;
      assert d in now && now[d] == buffers[d];
    }
  }

  /** ... or among the pages. */
  lemma FreeNonsecure(live: map<nat, Block>, buffers: map<TeeShm, Shm>, loans: set<nat>, b: TeeShm)
    requires Stored(live, buffers, loans, b) && b in buffers && buffers[b].nonsecure
    ensures var x := buffers[b];
      Stored(live, if x.ref == 1 then buffers - {b} else buffers[b := x.(ref := x.ref - 1)], loans, null)
  {
    var x := buffers[b];
    var now := if x.ref == 1 then buffers - {b} else buffers[b := x.(ref := x.ref - 1)];
    forall a | a in live && a !in loans ensures HasBuffer(now, a) {
      assert HasBuffer(buffers, a);
      var d :| d in buffers && !buffers[d].nonsecure && buffers[d].paddr == a;
      assert d in now && now[d] == buffers[d];
    }
  }

  lemma FreeShmStores(g: Graph, b: TeeShm)
    requires Inv(g.pool) && Stored(Live(g.pool.chunks), g.buffers, g.loans, b) && b in g.buffers
    ensures var n := FreeShm(g, b);
      Inv(n.pool) && SameRegion(g, n) && n.loans == g.loans
      && Stored(Live(n.pool.chunks), n.buffers, g.loans, null)
  {
    var x := g.buffers[b];
    if x.nonsecure {
      FreeNonsecure(Live(g.pool.chunks), g.buffers, g.loans, b);
    } else {
      FreeStatic(Live(g.pool.chunks), g.buffers, g.loans, b);
      FreeKeeps(g.pool, x.paddr);
      FindLive(g.pool, x.paddr);
    }
  }

  lemma Relabelled(live: map<nat, Block>, buffers: map<TeeShm, Shm>, loans: set<nat>, b: TeeShm, x: Shm)
    requires Housed(live, buffers, loans) && b in buffers
    requires x.nonsecure == buffers[b].nonsecure && x.paddr == buffers[b].paddr
    ensures Housed(live, buffers[b := x], loans)
  {
    forall a | a in live && a !in loans ensures HasBuffer(buffers[b := x], a) {
      assert HasBuffer(buffers, a);
      var d :| d in buffers && !buffers[d].nonsecure && buffers[d].paddr == a;
      assert d in buffers[b := x];
    }
  }

  /** An owner is about to free its part. */
  lemma OwnerLeaves(live: map<nat, Block>, buffers: map<TeeShm, Shm>, loans: set<nat>, b: TeeShm, x: Shm)
    requires Stored(live, buffers, loans, null) && b in buffers
    requires x.nonsecure == buffers[b].nonsecure && x.paddr == buffers[b].paddr && x.ref == buffers[b].ref
    requires x.Owners() + 1 == buffers[b].Owners()
    ensures Stored(live, buffers[b := x], loans, b)
  {
    Relabelled(live, buffers, loans, b, x);
  }

  /** An owner comes to a buffer. */
  lemma OwnerJoins(live: map<nat, Block>, buffers: map<TeeShm, Shm>, loans: set<nat>, b: TeeShm, x: Shm)
    requires Stored(live, buffers, loans, null) && b in buffers
    requires x.nonsecure == buffers[b].nonsecure && x.paddr == buffers[b].paddr
    requires x.Owners() == buffers[b].Owners() + 1
    requires x.ref == buffers[b].ref + if x.nonsecure then 1 else 0
    ensures !x.nonsecure ==> x.paddr in live
    ensures x.nonsecure ==> Stored(live, buffers[b := x], loans, null)
    ensures !x.nonsecure ==>
      Stored(live[x.paddr := live[x.paddr].(counter := live[x.paddr].counter + 1)], buffers[b := x], loans, null)
  {
    assert !x.nonsecure ==> x.paddr in live;
    var live' := if x.nonsecure then live else live[x.paddr := live[x.paddr].(counter := live[x.paddr].counter + 1)];
    Relabelled(live, buffers, loans, b, x);
    assert Housed(live', buffers[b := x], loans) by {
      assert live'.Keys == live.Keys;
      assert forall a :: a in loans && !x.nonsecure ==> a != x.paddr;
    }
    var now := buffers[b := x];
    forall d | d in now ensures OneKept(live', now, d, null) {
      assert d in buffers ==> OneKept(live, buffers, d, null);
    }
  }

  lemma BufferComes(live: map<nat, Block>, buffers: map<TeeShm, Shm>, loans: set<nat>, b: TeeShm, x: Shm, block: Block)
    requires Stored(live, buffers, loans, null) && b !in buffers && x.Owners() == 1
    requires if x.nonsecure then x.ref == 1 else x.paddr !in live && block.counter == 1
    ensures Stored(if x.nonsecure then live else live[x.paddr := block], buffers[b := x], loans, null)
  {
    var live' := if x.nonsecure then live else live[x.paddr := block];
    forall a | a in live' && a !in loans ensures HasBuffer(buffers[b := x], a) {
      if a in live {
        assert HasBuffer(buffers, a);
        var d :| d in buffers && !buffers[d].nonsecure && buffers[d].paddr == a;
        assert d in buffers[b := x] && buffers[b := x][d] == buffers[d];
      } else {
        assert buffers[b := x][b].paddr == a;
      }
    }
    var now := buffers[b := x];
    forall d | d in now ensures OneKept(live', now, d, null) {
      assert d in buffers ==> OneKept(live, buffers, d, null);
    }
  }

  lemma LoanComes(live: map<nat, Block>, buffers: map<TeeShm, Shm>, loans: set<nat>, a: nat, block: Block)
    requires Stored(live, buffers, loans, null) && a !in live && block.counter == 1
    ensures Stored(live[a := block], buffers, loans + {a}, null)
  {
    forall b | b in buffers ensures OneKept(live[a := block], buffers, b, null) {
      assert OneKept(live, buffers, b, null);
    }
    assert forall b :: b in buffers && !buffers[b].nonsecure ==> buffers[b].paddr in live;
  }

  lemma LoanGoes(live: map<nat, Block>, buffers: map<TeeShm, Shm>, loans: set<nat>, a: nat)
    requires Stored(live, buffers, loans, null) && a in loans
    ensures Stored(LiveAfterFree(live, a), buffers, loans - {a}, null)
  {
    forall b | b in buffers ensures OneKept(live - {a}, buffers, b, null) { assert OneKept(live, buffers, b, null); }
  }

  // ---------------------------------------------------------------- every operation keeps everything

  /** The sides of a graph that agree between operations. */
  datatype Side = Wiring | Counters | Storage

  ghost predicate Holds(g: Graph, side: Side)
  {
    match side
    case Wiring => Wired(g, null)
    case Counters => Counted(g)
    case Storage => Stored(Live(g.pool.chunks), g.buffers, g.loans, null)
  }

  /** All is in agreement; the trigger has the verifier look into a side only where a proof asks
      for it. */
  ghost predicate Good(g: Graph)
  {
    && Pointers(g.contexts, g.sessions, g.buffers)
    && Inv(g.pool)
    && forall side: Side {:trigger Holds(g, side)} :: Holds(g, side)
  }

  lemma GoodMeans(g: Graph)
    ensures Good(g)
      <==> Wired(g, null) && Counted(g) && Inv(g.pool) && Stored(Live(g.pool.chunks), g.buffers, g.loans, null)
  {
    assert Good(g) ==> Holds(g, Wiring) && Holds(g, Counters) && Holds(g, Storage);
  }

  /** The owner of a context gives its reference up. */
  lemma OwnerGivesHand(contexts: map<TeeContext, Ctx>, sessions: map<TeeSession, Sess>, buffers: map<TeeShm, Shm>,
      c: TeeContext)
    requires ContextsOk(contexts, null, sessions, buffers) && c in contexts && !contexts[c].closed
    ensures ContextsOk(contexts[c := contexts[c].(closed := true)], c, sessions, buffers)
  {
    var after := contexts[c := contexts[c].(closed := true)];
    forall d | d in after ensures OneContextOk(after, d, c, sessions, buffers) {
      assert OneContextOk(contexts, d, null, sessions, buffers);
    }
  }

  /** The pool still manages the memory it was created for. */
  predicate SameRegion(g: Graph, n: Graph) { n.pool.base == g.pool.base && n.pool.size == g.pool.size }

  lemma DestroyKeeps(g: Graph, c: TeeContext)
    requires Good(g) && c in g.contexts && !g.contexts[c].closed
    ensures Good(Destroy(g, c))
  {
    GoodMeans(g);
    GoodMeans(Destroy(g, c));
    var x := g.contexts[c].(closed := true);
    var m := g.(contexts := g.contexts[c := x]);
    SameContexts(g.contexts, c, x, g.sessions, g.buffers);
    OwnerGivesHand(g.contexts, g.sessions, g.buffers, c);
    assert Wired(m, c) && Counted(m);
    PutContextKeeps(m, c);
    PutContextCounts(m, c);
  }

  /** Nothing points to a context that is not there. */
  lemma NothingIn(contexts: map<TeeContext, Ctx>, sessions: map<TeeSession, Sess>, buffers: map<TeeShm, Shm>,
      c: TeeContext)
    requires Pointers(contexts, sessions, buffers) && c !in contexts
    ensures Where(sessions, ListedIn(c)) == {} && Where(sessions, InContext(c)) == {}
      && Where(buffers, OwnedBy(c)) == {}
  {
  }

  lemma ContextIsCounted(contexts: map<TeeContext, Ctx>, sessions: map<TeeSession, Sess>, buffers: map<TeeShm, Shm>,
      c: TeeContext, x: Ctx)
    requires Pointers(contexts, sessions, buffers) && c !in contexts
    ensures contexts[c := x].Keys == contexts.Keys + {c} && |contexts[c := x]| == |contexts| + 1
    ensures Pointers(contexts[c := x], sessions, buffers)
  {
    var after := contexts[c := x];
    assert after.Keys == contexts.Keys + {c};
    assert |after| == |after.Keys| && |contexts| == |contexts.Keys|;
  }

  lemma ContextComes(contexts: map<TeeContext, Ctx>, sessions: map<TeeSession, Sess>, buffers: map<TeeShm, Shm>,
      c: TeeContext)
    requires ContextsOk(contexts, null, sessions, buffers) && Pointers(contexts, sessions, buffers) && c !in contexts
    ensures ContextsOk(contexts[c := Ctx(1, [], [], false)], null, sessions, buffers)
  {
    var after := contexts[c := Ctx(1, [], [], false)];
    forall d | d in after ensures OneContextOk(after, d, null, sessions, buffers) {
      if d == c {
        NothingIn(contexts, sessions, buffers, c);
      } else {
        assert OneContextOk(contexts, d, null, sessions, buffers);
      }
    }
  }

  lemma AddContextKeeps(g: Graph, c: TeeContext)
    requires Good(g) && g.pending > 0 && c !in g.contexts
    ensures Good(AddContext(g, c))
  {
    GoodMeans(g);
    GoodMeans(AddContext(g, c));
    ContextComes(g.contexts, g.sessions, g.buffers, c);
    ContextIsCounted(g.contexts, g.sessions, g.buffers, c, Ctx(1, [], [], false));
    AppendLists(g.list, g.contexts.Keys, c);
  }

  lemma OpenBeginKeeps(g: Graph, s: TeeSession, c: TeeContext)
    requires Good(g) && g.pending > 0 && c in g.contexts && s !in g.sessions
    ensures Good(OpenBegin(g, s, c))
  {
    GoodMeans(g);
    GoodMeans(OpenBegin(g, s, c));
    var m := GetContext(g, c);
    GetContextKeeps(g, c);
    GetContextCounts(g, c, |Where(g.buffers, OnAList())|);
    AttachSessionKeeps(m, s, c);
    AttachSessionCounts(m, s, c);
  }

  lemma OpenFailedKeeps(g: Graph, s: TeeSession)
    requires Good(g) && s in g.sessions && g.sessions[s].phase == Opening
    ensures Good(OpenFailed(g, s))
  {
    GoodMeans(g);
    GoodMeans(OpenFailed(g, s));
    var d := DetachUnlisted(g, s);
    DetachUnlistedKeeps(g, s);
    DetachUnlistedCounts(g, s);
    PutContextKeeps(PutTee(d), g.sessions[s].ctx);
    PutContextCounts(PutTee(d), g.sessions[s].ctx);
  }

  lemma CloseEndKeeps(g: Graph, s: TeeSession)
    requires Good(g) && s in g.sessions && g.sessions[s].phase == Closing
    ensures Good(CloseEnd(g, s))
  {
    GoodMeans(g);
    GoodMeans(CloseEnd(g, s));
    var d := DetachListed(g, s);
    DetachListedKeeps(g, s);
    DetachListedCounts(g, s);
    PutContextKeeps(d, g.sessions[s].ctx);
    PutContextCounts(d, g.sessions[s].ctx);
  }

  /** What a successful tee_shm_alloc took. */
  lemma TakenIsNew(pool: Pool, nonsecure: bool, size: nat, memory: bool, descriptors: bool)
    requires Inv(pool) && TakeStorage(pool, nonsecure, size, memory, descriptors).Taken?
    ensures var r := TakeStorage(pool, nonsecure, size, memory, descriptors);
      && Inv(r.pool)
      && r.pool.base == pool.base && r.pool.size == pool.size
      && (nonsecure ==> r.pool == pool)
      && (!nonsecure ==>
        r.paddr !in Live(pool.chunks)
          && exists n: nat :: Live(r.pool.chunks) == Live(pool.chunks)[r.paddr := Block(n, 1)])
  {
    TakenKeepsPool(pool, nonsecure, size, memory, descriptors);
    if !nonsecure { AllocSucceeds(pool, StaticSize(size), PAGE); }
  }

  lemma StaticSizeIs(size: nat)
    requires size < 0x1_0000_0000_0000_0000
    ensures size >= 0x1_0000_0000_0000_0000 - 0x1000 ==> StaticSize(size) == 0
    ensures size < 0x1_0000_0000_0000_0000 - 0x1000 ==>
      StaticSize(size) == (size / 0x1000 + 1) * 0x1000 && StaticSize(size) % 0x1000 == 0
    ensures size < 0x1_0000_0000_0000_0000 - 0x1000 ==> size < StaticSize(size) <= size + 0x1000
  {
    Euclid((size / 0x1000 + 1) * 0x1000, 0x1000, size / 0x1000 + 1, 0);
    if size >= 0x1_0000_0000_0000_0000 - 0x1000 {
      assert size / 0x1000 == 0xF_FFFF_FFFF_FFFF;
    }
  }

  /** The block of a static buffer starts a page, is of whole pages, has room for what was asked for,
      and is at most a page longer. */
  lemma StaticBlockHasRoom(pool: Pool, size: nat, memory: bool, descriptors: bool)
    requires Inv(pool) && size < 0x1_0000_0000_0000_0000
    requires TakeStorage(pool, false, size, memory, descriptors).Taken?
    ensures var r := TakeStorage(pool, false, size, memory, descriptors);
      && r.paddr % 0x1000 == 0 && r.paddr in Live(r.pool.chunks)
      && size < Live(r.pool.chunks)[r.paddr].size <= size + 0x1000
      && Live(r.pool.chunks)[r.paddr].size % 0x1000 == 0
  {
    StaticSizeIs(size);
    var n := StaticSize(size);
    var i := AllocPlaces(pool, n, PAGE, descriptors);
    AllocSucceeds(pool, n, PAGE);
    PagesAreGrains(n);
  }

  /** Whole pages need no rounding. */
  lemma PagesAreGrains(n: nat)
    requires n % 0x1000 == 0
    ensures RoundUp(n, GRAIN) == n && EffectiveAlignment(PAGE) == 0x1000
  {
    DividesTrans(GRAIN, 0x1000, n);
    RoundUpFixed(n, GRAIN);
    RoundUpFixed(PAGE, GRAIN);
  }

  /** When tee_shm_alloc gives nothing, an error, or storage: a request of pages without size or
      memory, or one that wraps, gives NULL; one of the pool is an error exactly when memory fails or
      no window of whole pages is left that starts a page. */
  lemma StorageIff(pool: Pool, nonsecure: bool, size: nat, memory: bool, descriptors: bool)
    requires Inv(pool) && size < 0x1_0000_0000_0000_0000
    ensures var r := TakeStorage(pool, nonsecure, size, memory, descriptors);
      && (r.Nothing? <==> if nonsecure then size == 0 || !memory else size >= 0x1_0000_0000_0000_0000 - 0x1000)
      && (r.OutOfMemory? <==>
           !nonsecure && size < 0x1_0000_0000_0000_0000 - 0x1000 && (!memory || !descriptors || !PagesLeft(pool, size)))
  {
    StaticSizeIs(size);
    if !nonsecure && size < 0x1_0000_0000_0000_0000 - 0x1000 {
      var n := StaticSize(size);
      PagesAreGrains(n);
      AllocComplete(pool, n, PAGE);
      if Alloc(pool, n, PAGE, descriptors).1 != 0 { var i := AllocPlaces(pool, n, PAGE, descriptors); }
    }
  }

  /** There is a window of whole pages with room for more than size bytes that starts a page. */
  ghost predicate PagesLeft(pool: Pool, size: nat)
  {
    exists w: nat :: w % 0x1000 == 0 && Window(pool, w, (size / 0x1000 + 1) * 0x1000)
  }

  lemma TakenIsStored(g: Graph, b: TeeShm, x: Shm, nonsecure: bool, size: nat, memory: bool, descriptors: bool)
    requires Good(g) && b !in g.buffers && TakeStorage(g.pool, nonsecure, size, memory, descriptors).Taken?
    requires var r := TakeStorage(g.pool, nonsecure, size, memory, descriptors);
      x.nonsecure == nonsecure && x.paddr == r.paddr && x.ref == 1 && x.Owners() == 1
    ensures var r := TakeStorage(g.pool, nonsecure, size, memory, descriptors);
      Stored(Live(r.pool.chunks), g.buffers[b := x], g.loans, null)
  {
    GoodMeans(g);
    TakenIsNew(g.pool, nonsecure, size, memory, descriptors);
    var r := TakeStorage(g.pool, nonsecure, size, memory, descriptors);
    var n: nat :| nonsecure || Live(r.pool.chunks) == Live(g.pool.chunks)[r.paddr := Block(n, 1)];
    BufferComes(Live(g.pool.chunks), g.buffers, g.loans, b, x, Block(n, 1));
  }

  lemma AllocRpcKeeps(g: Graph, b: TeeShm, nonsecure: bool, size: nat, memory: bool, descriptors: bool)
    requires Good(g) && b !in g.buffers
    ensures var n := AllocRpc(g, b, nonsecure, size, memory, descriptors); Good(n) && SameRegion(g, n)
  {
    GoodMeans(g);
    GoodMeans(AllocRpc(g, b, nonsecure, size, memory, descriptors));
    var r := TakeStorage(g.pool, nonsecure, size, memory, descriptors);
    if r.Taken? {
      TakenIsNew(g.pool, nonsecure, size, memory, descriptors);
      var x := Shm(nonsecure, r.paddr, 1, null, true, false);
      TakenIsStored(g, b, x, nonsecure, size, memory, descriptors);
      AddRpcKeeps(g, b, x, r.pool);
    }
  }

  /** An allocation whose file cannot be made leaves the graph as it was, the pool included. */
  lemma FailedExportUndone(g: Graph, c: TeeContext, b: TeeShm, nonsecure: bool, size: nat, memory: bool,
      descriptors: bool)
    requires Inv(g.pool) && c in g.contexts
    ensures AllocIo(g, c, b, nonsecure, size, memory, descriptors, false).0 == g
  {
    var r := TakeStorage(g.pool, nonsecure, size, memory, descriptors);
    if r.Taken? && !nonsecure { FreeUndoesAlloc(g.pool, StaticSize(size), PAGE); }
  }

  lemma AllocIoKeeps(g: Graph, c: TeeContext, b: TeeShm, nonsecure: bool, size: nat, memory: bool, descriptors: bool,
      exported: bool)
    requires Good(g) && c in g.contexts && b !in g.buffers
    ensures var n := AllocIo(g, c, b, nonsecure, size, memory, descriptors, exported).0; Good(n) && SameRegion(g, n)
  {
    GoodMeans(g);
    GoodMeans(AllocIo(g, c, b, nonsecure, size, memory, descriptors, exported).0);
    var r := TakeStorage(g.pool, nonsecure, size, memory, descriptors);
    if r.Taken? {
      TakenIsNew(g.pool, nonsecure, size, memory, descriptors);
      if exported {
        TakenIsStored(g, b, Shm(nonsecure, r.paddr, 1, c, false, true), nonsecure, size, memory, descriptors);
        AllocIoAttaches(g.(pool := r.pool), c, b, nonsecure, r.paddr);
      } else {
        FailedExportUndone(g, c, b, nonsecure, size, memory, descriptors);
      }
    }
  }

  /** The counting half of a successful tee_shm_alloc_io. */
  lemma AllocIoAttaches(g: Graph, c: TeeContext, b: TeeShm, nonsecure: bool, paddr: nat)
    requires Wired(g, null) && Counted(g) && c in g.contexts && b !in g.buffers
    ensures Wired(AttachIo(g, c, b, nonsecure, paddr), null) && Counted(AttachIo(g, c, b, nonsecure, paddr))
  {
    var m := GetTee(g.(shmStat := IncStats(g.shmStat)));
    var n := GetContext(m, c);
    var x := Shm(nonsecure, paddr, 1, c, false, true);
    GetContextKeeps(m, c);
    GetContextCounts(m, c, |Where(g.buffers, OnAList())| + 1);
    assert OneContextOk(n.contexts, c, c, n.sessions, n.buffers);
    AppendLists(n.contexts[c].buffers, Where(g.buffers, OwnedBy(c)), b);
    AttachBufferKeeps(n, b, x, n.contexts[c].buffers + [b]);
    AttachBufferCounts(n, b, x, n.contexts[c].buffers + [b]);
  }

  lemma FreeIoWired(g: Graph, b: TeeShm)
    requires Wired(g, null) && Counted(g) && Inv(g.pool) && b in g.buffers && g.buffers[b].byFile
    ensures Wired(FreeIo(g, b), null) && Counted(FreeIo(g, b))
  {
    var c: TeeContext := g.buffers[b].ctx;
    var d := DetachBuffer(g, b);
    DetachBufferKeeps(g, b);
    DetachBufferCounts(g, b);
    FreeShmKeeps(d, b, c);
    var f := FreeShm(d, b);
    FreeShmShape(d, b);
    PutContextKeeps(PutTee(f), c);
    PutContextCounts(PutTee(f), c);
  }

  lemma FreeIoStored(g: Graph, b: TeeShm)
    requires Good(g) && b in g.buffers && g.buffers[b].byFile
    ensures var n := FreeIo(g, b);
      Inv(n.pool) && SameRegion(g, n)
      && Stored(Live(n.pool.chunks), n.buffers, n.loans, null)
  {
    GoodMeans(g);
    OwnerLeaves(Live(g.pool.chunks), g.buffers, g.loans, b, g.buffers[b].(byFile := false));
    FreeShmStores(DetachBuffer(g, b), b);
  }

  lemma RelabelledAlike(contexts: map<TeeContext, Ctx>, sessions: map<TeeSession, Sess>, buffers: map<TeeShm, Shm>,
      b: TeeShm, x: Shm)
    requires ContextsOk(contexts, null, sessions, buffers) && Pointers(contexts, sessions, buffers) && b in buffers
    requires x.byFile == buffers[b].byFile && x.byRpc == buffers[b].byRpc && x.ctx == buffers[b].ctx
    ensures Alike(contexts, null, sessions, buffers, buffers[b := x])
  {
    BufferRelabelled(contexts, sessions, buffers, b, x);
    BufferPointers(contexts, sessions, buffers, b, x);
    WhereSet(buffers, b, x, Unexported());
    WhereSet(buffers, b, x, HeldByFile());
    WhereSet(buffers, b, x, OnAList());
  }

  /** The storage of a buffer that a file still holds stays. */
  lemma SharedStays(g: Graph, b: TeeShm)
    requires Inv(g.pool) && b in g.buffers && g.buffers[b].byFile && Stored(Live(g.pool.chunks), g.buffers, g.loans, b)
    ensures var n, x := FreeShm(g, b), g.buffers[b];
      BuffersOnly(g, n) && exists r: int :: n.buffers == g.buffers[b := x.(ref := r)]
  {
    var x := g.buffers[b];
    assert g.buffers[b := x.(ref := x.ref)] == g.buffers;
    if !x.nonsecure { FindLive(g.pool, x.paddr); }
  }

  lemma FreeSharedKeeps(g: Graph, b: TeeShm)
    requires Wired(g, null) && Counted(g) && Inv(g.pool) && b in g.buffers && g.buffers[b].byFile
    requires Stored(Live(g.pool.chunks), g.buffers, g.loans, b)
    ensures Wired(FreeShm(g, b), null) && Counted(FreeShm(g, b))
  {
    SharedStays(g, b);
    var n, x := FreeShm(g, b), g.buffers[b];
    var r: int :| n.buffers == g.buffers[b := x.(ref := r)];
    RelabelledAlike(g.contexts, g.sessions, g.buffers, b, x.(ref := r));
    AlikeKeeps(g, n, null);
  }

  lemma FreeRpcWired(g: Graph, b: TeeShm)
    requires Good(g) && b in g.buffers && g.buffers[b].byRpc
    ensures Wired(FreeRpc(g, b), null) && Counted(FreeRpc(g, b))
  {
    GoodMeans(g);
    var d := DetachRpc(g, b);
    DetachRpcKeeps(g, b);
    DetachRpcCounts(g, b);
    if g.buffers[b].byFile {
      OwnerLeaves(Live(g.pool.chunks), g.buffers, g.loans, b, g.buffers[b].(byRpc := false));
      FreeSharedKeeps(d, b);
    } else {
      FreeShmKeeps(d, b, null);
    }
  }

  lemma FreeRpcStored(g: Graph, b: TeeShm)
    requires Good(g) && b in g.buffers && g.buffers[b].byRpc
    ensures var n := FreeRpc(g, b);
      Inv(n.pool) && SameRegion(g, n)
      && Stored(Live(n.pool.chunks), n.buffers, n.loans, null)
  {
    GoodMeans(g);
    OwnerLeaves(Live(g.pool.chunks), g.buffers, g.loans, b, g.buffers[b].(byRpc := false));
    FreeShmStores(DetachRpc(g, b), b);
  }

  lemma ExportWired(g: Graph, c: TeeContext, b: TeeShm)
    requires Wired(g, null) && Counted(g) && c in g.contexts && b in g.buffers && Unexported()(g.buffers[b])
    ensures Wired(ExportAttach(g, c, b), null) && Counted(ExportAttach(g, c, b))
  {
    var k := ClaimRpc(g, c, b);
    ClaimRpcKeeps(g, c, b);
    ClaimRpcCounts(g, c, b);
    ClaimedAttaches(k, c, b, Exported(g.buffers[b], c));
  }

  lemma ClaimedAttaches(k: Graph, c: TeeContext, b: TeeShm, y: Shm)
    requires Wired(k, null) && CountedAs(k, |Where(k.buffers, OnAList())| + 1)
    requires c in k.contexts && b in k.buffers && !OnAList()(k.buffers[b]) && y.byFile && y.ctx == c
    ensures var n := GetContext(GetTee(k), c);
      var r := AttachBuffer(n, b, y, [b] + n.contexts[c].buffers);
      Wired(r, null) && Counted(r)
  {
    var m := GetTee(k);
    var n := GetContext(m, c);
    GetContextKeeps(m, c);
    GetContextCounts(m, c, |Where(k.buffers, OnAList())| + 1);
    assert OneContextOk(n.contexts, c, c, n.sessions, n.buffers);
    assert b !in Where(n.buffers, OwnedBy(c));
    AppendLists(n.contexts[c].buffers, Where(n.buffers, OwnedBy(c)), b);
    AttachBufferKeeps(n, b, y, [b] + n.contexts[c].buffers);
    AttachBufferCounts(n, b, y, [b] + n.contexts[c].buffers);
  }

  /** The reference of a new owner, in the pool for a static buffer. */
  lemma JoinsInPool(pool: Pool, buffers: map<TeeShm, Shm>, loans: set<nat>, b: TeeShm, c: TeeContext)
    requires Inv(pool) && Stored(Live(pool.chunks), buffers, loans, null) && b in buffers && !buffers[b].byFile
      && !buffers[b].nonsecure
    ensures var n := Incref(pool, buffers[b].paddr).0;
      Inv(n) && n.base == pool.base && n.size == pool.size
        && Stored(Live(n.chunks), buffers[b := Exported(buffers[b], c)], loans, null)
  {
    var x := buffers[b];
    assert OneKept(Live(pool.chunks), buffers, b, null);
    OwnerJoins(Live(pool.chunks), buffers, loans, b, Exported(x, c));
    FindLive(pool, x.paddr);
    IncrefKeeps(pool, x.paddr);
  }

  lemma ExportStored(g: Graph, c: TeeContext, b: TeeShm, wantNonsecure: bool, exported: bool)
    requires Good(g) && c in g.contexts && b in g.buffers && Unexported()(g.buffers[b])
    ensures var n := ExportRpc(g, c, b, wantNonsecure, exported).0;
      Inv(n.pool) && SameRegion(g, n)
      && Stored(Live(n.pool.chunks), n.buffers, n.loans, null)
  {
    GoodMeans(g);
    var x := g.buffers[b];
    assert ExportAttach(g, c, b).buffers == g.buffers[b := Exported(x, c)];
    if x.nonsecure {
      OwnerJoins(Live(g.pool.chunks), g.buffers, g.loans, b, Exported(x, c));
    } else {
      JoinsInPool(g.pool, g.buffers, g.loans, b, c);
    }
  }

  lemma ExportKeeps(g: Graph, c: TeeContext, b: TeeShm, wantNonsecure: bool, exported: bool)
    requires Good(g) && c in g.contexts && b in g.buffers && Unexported()(g.buffers[b])
    ensures var n := ExportRpc(g, c, b, wantNonsecure, exported).0; Good(n) && SameRegion(g, n)
  {
    GoodMeans(g);
    GoodMeans(ExportRpc(g, c, b, wantNonsecure, exported).0);
    ExportWired(g, c, b);
    ExportStored(g, c, b, wantNonsecure, exported);
  }

  lemma BorrowKeeps(g: Graph, size: nat, alignment: nat, descriptors: bool)
    requires Good(g) && size > 0
    ensures var n := Borrow(g, size, alignment, descriptors); Good(n) && SameRegion(g, n)
  {
    GoodMeans(g);
    GoodMeans(Borrow(g, size, alignment, descriptors));
    var (p, r) := Alloc(g.pool, size, alignment, descriptors);
    if r != 0 {
      AllocSucceeds(g.pool, size, alignment);
      LoanComes(Live(g.pool.chunks), g.buffers, g.loans, r, Block(RoundUp(size, GRAIN), 1));
    }
  }

  lemma RepayKeeps(g: Graph, a: nat)
    requires Good(g) && a in g.loans
    ensures var n := Repay(g, a); Good(n) && SameRegion(g, n)
  {
    GoodMeans(g);
    GoodMeans(Repay(g, a));
    FreeKeeps(g.pool, a);
    LoanGoes(Live(g.pool.chunks), g.buffers, g.loans, a);
  }

  lemma OpenDoneGood(g: Graph, s: TeeSession)
    requires Good(g) && s in g.sessions && g.sessions[s].phase == Opening
    ensures Good(OpenDone(g, s)) && SameRegion(g, OpenDone(g, s))
  {
    GoodMeans(g);
    GoodMeans(OpenDone(g, s));
    OpenDoneKeeps(g, s);
    OpenDoneCounts(g, s);
  }

  lemma CloseBeginGood(g: Graph, s: TeeSession)
    requires Good(g) && s in g.sessions && g.sessions[s].phase == Open
    ensures Good(CloseBegin(g, s)) && SameRegion(g, CloseBegin(g, s))
  {
    GoodMeans(g);
    GoodMeans(CloseBegin(g, s));
    CloseBeginKeeps(g, s);
    CloseBeginCounts(g, s);
  }

  lemma FreeIoKeeps(g: Graph, b: TeeShm)
    requires Good(g) && b in g.buffers && g.buffers[b].byFile
    ensures Good(FreeIo(g, b)) && SameRegion(g, FreeIo(g, b))
  {
    GoodMeans(g);
    GoodMeans(FreeIo(g, b));
    FreeIoWired(g, b);
    FreeIoStored(g, b);
  }

  lemma FreeRpcKeeps(g: Graph, b: TeeShm)
    requires Good(g) && b in g.buffers && g.buffers[b].byRpc
    ensures Good(FreeRpc(g, b)) && SameRegion(g, FreeRpc(g, b))
  {
    GoodMeans(g);
    GoodMeans(FreeRpc(g, b));
    FreeRpcWired(g, b);
    FreeRpcStored(g, b);
  }

  lemma GoodPointers(g: Graph)
    requires Good(g)
    ensures Pointers(g.contexts, g.sessions, g.buffers) && Inv(g.pool)
  {
    GoodMeans(g);
  }
}
