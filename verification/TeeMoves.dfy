/** The operations of the device as moves of ObjectGraphLaws, one or two, and what a state in
    agreement gives to each of them. */
module TeeMoves {

  import opened Alignment
  import opened ShmPoolModel
  import opened ShmPoolOps
  import opened ObjectGraph
  import opened ObjectGraphProofs
  import opened ObjectGraphLaws

  /** Everything is in agreement. As in Good, the trigger keeps the verifier from looking inside
      where a proof does not ask for it. */
  ghost predicate Sound(g: Graph) { forall ask: bool {:trigger SoundInside(g, ask)} :: SoundInside(g, ask) }

  ghost predicate SoundInside(g: Graph, ask: bool) { Good(g) }

  lemma SoundMeans(g: Graph)
    ensures Sound(g) <==> Good(g)
  {
    assert SoundInside(g, true) <==> Good(g);
  }

  /** From g the moves are all allowed, one after the other, and they lead to n. */
  ghost predicate Leads(g: Graph, ms: seq<Move>, n: Graph)
  {
    forall ask: bool {:trigger LeadsInside(g, ms, n, ask)} :: LeadsInside(g, ms, n, ask)
  }

  ghost predicate LeadsInside(g: Graph, ms: seq<Move>, n: Graph, ask: bool)
  {
    Good(g) && Legal(g, ms) && n == Run(g, ms)
  }

  lemma LeadsMeans(g: Graph, ms: seq<Move>, n: Graph)
    ensures Leads(g, ms, n) <==> Good(g) && Legal(g, ms) && n == Run(g, ms)
    ensures Leads(g, ms, n) ==> Sound(n)
  {
    assert LeadsInside(g, ms, n, true) <==> Good(g) && Legal(g, ms) && n == Run(g, ms);
    if Leads(g, ms, n) {
      RunKeepsGood(g, ms);
      SoundMeans(n);
    }
  }

  lemma {:induction false} RunOn(g: Graph, ms: seq<Move>, more: seq<Move>)
    requires Good(g) && Legal(g, ms) && (RunKeepsGood(g, ms); Legal(Run(g, ms), more))
    ensures Legal(g, ms + more) && Run(g, ms + more) == (RunKeepsGood(g, ms); Run(Run(g, ms), more))
    decreases |ms|
  {
    RunKeepsGood(g, ms);
    if ms == [] {
      assert ms + more == more;
    } else {
      StepKeepsGood(g, ms[0]);
      assert (ms + more)[0] == ms[0] && (ms + more)[1..] == ms[1..] + more;
      RunOn(Step(g, ms[0]), ms[1..], more);
    }
  }

  /** Calls one after the other make one run ... */
  lemma LeadsOn(g: Graph, ms: seq<Move>, h: Graph, more: seq<Move>, n: Graph)
    requires Leads(g, ms, h) && Leads(h, more, n)
    ensures Leads(g, ms + more, n)
  {
    LeadsMeans(g, ms, h);
    LeadsMeans(h, more, n);
    LeadsMeans(g, ms + more, n);
    RunOn(g, ms, more);
  }

  /** ... and from the probe of the device on they reach what ObjectGraphLaws speaks of. */
  lemma LeadsReaches(base: nat, size: nat, ms: seq<Move>, n: Graph)
    requires 0 < base && 0 < size && base + size <= HALF_WORD
    ensures Leads(Boot(base, size), ms, n) <==> Reached(base, size, ms, n)
  {
    BootGood(base, size);
    LeadsMeans(Boot(base, size), ms, n);
  }

  lemma OneMove(g: Graph, m: Move)
    requires Good(g) && Allowed(g, m)
    ensures Leads(g, [m], Step(g, m)) && Sound(Step(g, m))
  {
    StepKeepsGood(g, m);
    assert [m][1..] == [];
    assert Legal(Step(g, m), []);
    LeadsMeans(g, [m], Step(g, m));
  }

  lemma TwoMoves(g: Graph, m: Move, h: Graph, n: Move)
    requires Good(g) && Allowed(g, m) && h == Step(g, m) && Good(h) && Allowed(h, n)
    ensures Leads(g, [m, n], Step(h, n)) && Sound(Step(h, n))
  {
    StepKeepsGood(h, n);
    assert [m, n][1..] == [n] && [n][1..] == [];
    assert Legal(Step(h, n), []);
    assert Legal(h, [n]) && Run(h, [n]) == Step(h, n);
    LeadsMeans(g, [m, n], Step(h, n));
  }

  // ---------------------------------------------------------------- contexts and sessions

  lemma CreateLeads(g: Graph, c: TeeContext)
    requires Sound(g) && c !in g.contexts
    ensures var n := AddContext(GetTee(g), c); Leads(g, [TakeTee, CreateContext(c)], n) && Sound(n)
  {
    SoundMeans(g);
    StepKeepsGood(g, TakeTee);
    TwoMoves(g, TakeTee, GetTee(g), CreateContext(c));
  }

  lemma DestroyLeads(g: Graph, c: TeeContext)
    requires Sound(g) && Allowed(g, DestroyContext(c))
    ensures Leads(g, [DestroyContext(c)], Destroy(g, c)) && Sound(Destroy(g, c))
  {
    SoundMeans(g);
    OneMove(g, DestroyContext(c));
  }

  lemma BeginLeads(g: Graph, s: TeeSession, c: TeeContext)
    requires Sound(g) && c in g.contexts && !g.contexts[c].closed && s !in g.sessions
    ensures var n := OpenBegin(GetTee(g), s, c); Leads(g, [TakeTee, BeginOpen(s, c)], n) && Sound(n)
  {
    SoundMeans(g);
    StepKeepsGood(g, TakeTee);
    TwoMoves(g, TakeTee, GetTee(g), BeginOpen(s, c));
  }

  lemma OpenedLeads(g: Graph, s: TeeSession)
    requires Sound(g) && s in g.sessions && g.sessions[s].phase == Opening
    ensures g.sessions[s].ctx in g.contexts
    ensures Leads(g, [FinishOpen(s)], OpenDone(g, s)) && Sound(OpenDone(g, s))
    ensures Leads(g, [FailOpen(s)], OpenFailed(g, s)) && Sound(OpenFailed(g, s))
  {
    SoundMeans(g);
    OneMove(g, FinishOpen(s));
    OneMove(g, FailOpen(s));
  }

  lemma CloseLeads(g: Graph, s: TeeSession)
    requires Sound(g) && Allowed(g, BeginClose(s))
    ensures g.sessions[s].ctx in g.contexts
    ensures var n := CloseEnd(CloseBegin(g, s), s); Leads(g, [BeginClose(s), EndClose(s)], n) && Sound(n)
  {
    SoundMeans(g);
    StepKeepsGood(g, BeginClose(s));
    TwoMoves(g, BeginClose(s), CloseBegin(g, s), EndClose(s));
  }

  // ---------------------------------------------------------------- buffers

  lemma AllocateLeads(g: Graph, c: TeeContext, b: TeeShm, nonsecure: bool, size: nat, memory: bool, descriptors: bool,
      exported: bool)
    requires Sound(g) && c in g.contexts && !g.contexts[c].closed && b !in g.buffers
    ensures Inv(g.pool)
    ensures var n := AllocIo(g, c, b, nonsecure, size, memory, descriptors, exported).0;
      Leads(g, [Allocate(c, b, nonsecure, size, memory, descriptors, exported)], n) && Sound(n)
  {
    SoundMeans(g);
    OneMove(g, Allocate(c, b, nonsecure, size, memory, descriptors, exported));
  }

  lemma ReleaseLeads(g: Graph, b: TeeShm)
    requires Sound(g) && Allowed(g, ReleaseFile(b))
    ensures Inv(g.pool) && g.buffers[b].ctx in g.contexts
    ensures !g.buffers[b].nonsecure ==> g.buffers[b].paddr in Live(g.pool.chunks)
    ensures Leads(g, [ReleaseFile(b)], FreeIo(g, b)) && Sound(FreeIo(g, b))
  {
    SoundMeans(g);
    OwnersCounted(g, b);
    OneMove(g, ReleaseFile(b));
  }

  lemma RpcAllocateLeads(g: Graph, b: TeeShm, nonsecure: bool, size: nat, memory: bool, descriptors: bool)
    requires Sound(g) && b !in g.buffers
    ensures var n := AllocRpc(g, b, nonsecure, size, memory, descriptors);
      Leads(g, [RpcAllocate(b, nonsecure, size, memory, descriptors)], n) && Sound(n)
  {
    SoundMeans(g);
    OneMove(g, RpcAllocate(b, nonsecure, size, memory, descriptors));
  }

  lemma RpcReleaseLeads(g: Graph, b: TeeShm)
    requires Sound(g) && Allowed(g, RpcRelease(b))
    ensures Inv(g.pool) && (!g.buffers[b].nonsecure ==> g.buffers[b].paddr in Live(g.pool.chunks))
    ensures Leads(g, [RpcRelease(b)], FreeRpc(g, b)) && Sound(FreeRpc(g, b))
  {
    SoundMeans(g);
    OwnersCounted(g, b);
    OneMove(g, RpcRelease(b));
  }

  /** What is found on the list of the secure world can be exported, and its count cannot wrap. */
  lemma ExportLeads(g: Graph, c: TeeContext, b: TeeShm, wantNonsecure: bool, exported: bool)
    requires Sound(g) && c in g.contexts && !g.contexts[c].closed && b in g.rpc
    ensures b in g.buffers
    ensures !g.buffers[b].nonsecure ==>
      g.buffers[b].paddr in Live(g.pool.chunks) && Live(g.pool.chunks)[g.buffers[b].paddr].counter < COUNTER_WRAP - 1
    ensures var n := ExportRpc(g, c, b, wantNonsecure, exported).0;
      Leads(g, [Export(c, b, wantNonsecure, exported)], n) && Sound(n)
  {
    SoundMeans(g);
    OnRpcList(g, b);
    OwnersCounted(g, b);
    OneMove(g, Export(c, b, wantNonsecure, exported));
  }

  lemma BootSound(base: nat, size: nat)
    requires 0 < base && 0 < size && base + size <= HALF_WORD
    ensures Sound(Boot(base, size))
  {
    BootGood(base, size);
    SoundMeans(Boot(base, size));
  }
}
