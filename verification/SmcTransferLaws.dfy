/** What every run of the calls into the secure world keeps, and what follows: the lock, the count
    and the parked callers. */
module SmcTransferLaws {

  import opened Totals
  import opened Atomics
  import opened SmcTransfer

  // ---------------------------------------------------------------- what every step keeps

  /** Entered and not finished. */
  function Bound(c: Thread): nat
  {
    match c
    case Locking(_) | Calling(_) | Preempting(_) | Alarmed(_) | Yielding(_) | Relocking(_) | Leaving(_, _) => 1
    case _ => 0
  }

  function Holding(c: Thread): nat
  {
    match c
    case Calling(_) | Preempting(_) | Alarmed(_) | Yielding(_) | Leaving(_, _) | Unlocking(_, _) => 1
    case _ => 0
  }

  function Contending(c: Thread): nat { if c.Locking? || c.Relocking? then 1 else 0 }

  function Finished(c: Thread): nat { if c.Unlocking? then 1 else 0 }

  function IsParked(c: Thread): nat { if c.Parked? then 1 else 0 }

  function IsPosting(c: Thread): nat { if c.Posting? then 1 else 0 }

  function IsYielding(c: Thread): nat { if c.Yielding? then 1 else 0 }

  function IsAlarmed(c: Thread): nat { if c.Alarmed? then 1 else 0 }

  /** On its way from a final answer to xfer_dequeue_waiters. */
  function Completing(c: Thread): nat
  {
    match c
    case Leaving(p, a) => if !p && a == Complete then 1 else 0
    case Unlocking(p, a) => if !p && a == Complete then 1 else 0
    case Dequeuing => 1
    case _ => 0
  }

  ghost predicate OneHolder(s: State)
  {
    match s.owner
    case None => Total(Holding, s.threads) == 0
    case Some(t) => t < |s.threads| && Holding(s.threads[t]) == 1 && Total(Holding, s.threads) == 1
  }

  ghost predicate Counted(s: State) { s.unbound == Total(Bound, s.threads) && |s.threads| <= INT_MAX }

  /** Parked callers, each either registered, or with a permit, or with an up on the way. */
  ghost predicate Conserved(s: State)
  {
    && s.waiting >= 0 && s.permits >= 0
    && Total(IsParked, s.threads) == s.waiting + s.permits + Total(IsPosting, s.threads)
  }

  ghost predicate Balanced(s: State)
  {
    var g := s.ledger;
    && g.registered == g.released + Total(IsParked, s.threads)
    && g.completed == g.released + g.unneeded + s.permits + Total(IsPosting, s.threads) + Total(Completing, s.threads)
  }

  /** One that yields has somebody to yield to, and nobody reads a zero count. */
  ghost predicate WellYielded(s: State)
  {
    && (Total(IsYielding, s.threads) > 0 ==> Total(Contending, s.threads) > 0)
    && Total(IsAlarmed, s.threads) == 0
  }

  ghost predicate Inv(s: State)
  {
    OneHolder(s) && Counted(s) && Conserved(s) && Balanced(s) && WellYielded(s)
  }

  /** A thread moves: every count moves with it. */
  lemma Moved(s: State, n: State, t: nat)
    requires t < |s.threads| == |n.threads| && n.threads == s.threads[t := n.threads[t]]
    ensures Total(Bound, n.threads) + Bound(s.threads[t]) == Total(Bound, s.threads) + Bound(n.threads[t])
    ensures Total(Holding, n.threads) + Holding(s.threads[t]) == Total(Holding, s.threads) + Holding(n.threads[t])
    ensures Total(IsParked, n.threads) + IsParked(s.threads[t]) == Total(IsParked, s.threads) + IsParked(n.threads[t])
    ensures Total(IsPosting, n.threads) + IsPosting(s.threads[t])
      == Total(IsPosting, s.threads) + IsPosting(n.threads[t])
    ensures Total(Completing, n.threads) + Completing(s.threads[t])
      == Total(Completing, s.threads) + Completing(n.threads[t])
  {
    var c := n.threads[t];
    TotalUpdate(Bound, s.threads, t, c);
    TotalUpdate(Holding, s.threads, t, c);
    TotalUpdate(IsParked, s.threads, t, c);
    TotalUpdate(IsPosting, s.threads, t, c);
    TotalUpdate(Completing, s.threads, t, c);
  }

  lemma Bounded(s: State)
    ensures Total(Bound, s.threads) <= |s.threads|
    ensures Total(IsParked, s.threads) <= |s.threads|
  {
    TotalBounded(Bound, s.threads, 1);
    TotalBounded(IsParked, s.threads, 1);
  }

  lemma HolderIsOwner(s: State, t: nat)
    requires OneHolder(s) && t < |s.threads| && Holding(s.threads[t]) == 1
    ensures s.owner == Some(t)
  {
    TotalAtLeast(Holding, s.threads, t);
    if s.owner.Some? && s.owner.value < t { TotalAtLeastTwo(Holding, s.threads, s.owner.value, t); }
    if s.owner.Some? && t < s.owner.value { TotalAtLeastTwo(Holding, s.threads, t, s.owner.value); }
  }

  /** How the lock changes hands when thread t moves from s to n. */
  predicate LockFlow(s: State, n: State, t: nat)
    requires t < |s.threads| == |n.threads|
  {
    var before, after := Holding(s.threads[t]), Holding(n.threads[t]);
    || (n.owner == s.owner && after == before)
    || (s.owner == None && n.owner == Some(t) && before == 0 && after == 1)
    || (n.owner == None && before == 1 && after == 0)
  }

  /** How waiters, permits and ups under way turn into each other. */
  predicate WaiterFlow(s: State, n: State, t: nat)
    requires t < |s.threads| == |n.threads|
  {
    var c, d := s.threads[t], n.threads[t];
    && IsParked(d) - IsParked(c) == n.waiting - s.waiting + n.permits - s.permits + IsPosting(d) - IsPosting(c)
    && (s.waiting >= 0 && s.permits >= 0 ==> n.waiting >= 0 && n.permits >= 0)
  }

  /** How the ledger follows. */
  predicate LedgerFlow(s: State, n: State, t: nat)
    requires t < |s.threads| == |n.threads|
  {
    var c, d, g, h := s.threads[t], n.threads[t], s.ledger, n.ledger;
    && h.registered - g.registered == h.released - g.released + IsParked(d) - IsParked(c)
    && h.completed - g.completed == h.released - g.released + h.unneeded - g.unneeded + n.permits - s.permits
         + IsPosting(d) - IsPosting(c) + Completing(d) - Completing(c)
  }

  predicate Local(s: State, n: State, t: nat)
  {
    && t < |s.threads| == |n.threads|
    && n.threads == s.threads[t := n.threads[t]]
    && LockFlow(s, n, t) && LedgerFlow(s, n, t)
  }

  lemma ThreadIsLocal(s: State, t: nat)
    requires t < |s.threads| && ThreadStep(s, t).Some?
    ensures Local(s, ThreadStep(s, t).value, t)
  {
  }

  lemma ThreadMovesWaiters(s: State, t: nat)
    requires t < |s.threads| && ThreadStep(s, t).Some? && (s.threads[t].Registering? ==> s.waiting < INT_MAX)
    ensures WaiterFlow(s, ThreadStep(s, t).value, t)
  {
  }

  lemma LocalKeeps(s: State, n: State, t: nat)
    requires Local(s, n, t) && OneHolder(s) && Balanced(s)
    ensures OneHolder(n) && Balanced(n)
  {
    Moved(s, n, t);
    if Holding(s.threads[t]) == 1 { HolderIsOwner(s, t); }
  }

  lemma WaitersKept(s: State, n: State, t: nat)
    requires Local(s, n, t) && WaiterFlow(s, n, t) && Conserved(s)
    ensures Conserved(n)
  {
    Moved(s, n, t);
  }

  lemma ThreadKeepsCount(s: State, t: nat)
    requires Counted(s) && t < |s.threads| && ThreadStep(s, t).Some?
    ensures Counted(ThreadStep(s, t).value)
  {
    var n := ThreadStep(s, t).value;
    Moved(s, n, t);
    Bounded(n);
  }

  /** Whoever is counted holds the lock or waits for it. */
  lemma BoundSplits(s: State)
    ensures Total(Bound, s.threads) + Total(Finished, s.threads)
      == Total(Contending, s.threads) + Total(Holding, s.threads)
  {
    TotalSplit(Bound, Finished, Contending, Holding, s.threads);
  }

  /** Only a holder yields. */
  lemma YieldersHold(s: State)
    ensures Total(IsYielding, s.threads) <= Total(Holding, s.threads)
  {
    TotalMonotone(IsYielding, Holding, s.threads);
  }

  /** The count that the holder reads is one more than the threads that contend for the lock. */
  lemma HolderReads(s: State, t: nat)
    requires Inv(s) && t < |s.threads| && s.threads[t].Preempting?
    ensures s.unbound == 1 + Total(Contending, s.threads)
  {
    HolderIsOwner(s, t);
    BoundSplits(s);
    TotalMonotone(Finished, Holding, s.threads);
    if Total(Finished, s.threads) > 0 {
      var u := TotalPositive(Finished, s.threads);
      HolderIsOwner(s, u);
    }
  }

  lemma NobodyLocksUnderAYielder(s: State, t: nat)
    requires Inv(s) && s.owner == None && t < |s.threads| && Holding(s.threads[t]) == 0
    ensures forall p :: Total(IsYielding, At(s, t, Calling(p)).threads) == 0
  {
    YieldersHold(s);
    forall p ensures Total(IsYielding, At(s, t, Calling(p)).threads) == 0 {
      TotalUpdate(IsYielding, s.threads, t, Calling(p));
    }
  }

  lemma ThreadYieldsWell(s: State, t: nat)
    requires Inv(s) && t < |s.threads| && ThreadStep(s, t).Some?
    ensures WellYielded(ThreadStep(s, t).value)
  {
    var n := ThreadStep(s, t).value;
    var c := n.threads[t];
    assert n.threads == s.threads[t := c];
    TotalUpdate(IsYielding, s.threads, t, c);
    TotalUpdate(IsAlarmed, s.threads, t, c);
    TotalUpdate(Contending, s.threads, t, c);
    if s.threads[t].Preempting? { HolderReads(s, t); }
    if Contending(s.threads[t]) == 1 { NobodyLocksUnderAYielder(s, t); }
  }

  lemma ThreadKeepsInv(s: State, t: nat)
    requires Inv(s) && t < |s.threads| && ThreadStep(s, t).Some?
    ensures Inv(ThreadStep(s, t).value)
  {
    var n := ThreadStep(s, t).value;
    if s.threads[t].Registering? {
      TotalUpdate(IsParked, s.threads, t, Parked);
      Bounded(At(s, t, Parked));
    }
    ThreadIsLocal(s, t);
    ThreadMovesWaiters(s, t);
    LocalKeeps(s, n, t);
    WaitersKept(s, n, t);
    ThreadKeepsCount(s, t);
    ThreadYieldsWell(s, t);
  }

  /** A thread that begins, or gets its answer. */
  predicate Aside(s: State, n: State, t: nat)
  {
    && Local(s, n, t) && WaiterFlow(s, n, t) && n.unbound == s.unbound
    && var c, d := s.threads[t], n.threads[t];
    && Bound(c) == Bound(d) && Contending(c) == Contending(d) && !d.Yielding? && !d.Alarmed?
  }

  lemma AsideKeepsInv(s: State, n: State, t: nat)
    requires Inv(s) && Aside(s, n, t)
    ensures Inv(n)
  {
    LocalKeeps(s, n, t);
    WaitersKept(s, n, t);
    TotalUpdate(IsYielding, s.threads, t, n.threads[t]);
    TotalUpdate(IsAlarmed, s.threads, t, n.threads[t]);
    TotalUpdate(Contending, s.threads, t, n.threads[t]);
    TotalUpdate(Bound, s.threads, t, n.threads[t]);
  }

  lemma ReplyIsAside(s: State, t: nat, a: Answer)
    requires t < |s.threads| && Replied(s, t, a).Some?
    ensures Aside(s, Replied(s, t, a).value, t)
  {
  }

  lemma StepKeepsInv(s: State, m: Move)
    requires Inv(s) && Next(s, m).Some?
    ensures Inv(Next(s, m).value)
  {
    var n := Next(s, m).value;
    match m
    case Begin(t, p) => assert n == At(s, t, Entering(p)) && n.threads[t] == Entering(p); AsideKeepsInv(s, n, t);
    case Step(t) => ThreadKeepsInv(s, t);
    case Reply(t, a) => ReplyIsAside(s, t, a); AsideKeepsInv(s, n, t);
    case Interrupt(t) =>
  }

  lemma StartInv(n: nat)
    requires n <= INT_MAX
    ensures Inv(Start(n))
  {
    var ts := Start(n).threads;
    TotalZero(Bound, ts);
    TotalZero(Holding, ts);
    TotalZero(IsParked, ts);
    TotalZero(IsPosting, ts);
    TotalZero(IsYielding, ts);
    TotalZero(IsAlarmed, ts);
    TotalZero(Completing, ts);
  }

  lemma {:induction false} RunKeepsInv(s: State, ms: seq<Move>)
    requires Inv(s) && Run(s, ms).Some?
    ensures Inv(Run(s, ms).value)
    decreases |ms|
  {
    if ms != [] {
      StepKeepsInv(s, ms[0]);
      RunKeepsInv(Next(s, ms[0]).value, ms[1..]);
    }
  }

  lemma ReachableInv(s: State)
    requires Reachable(s)
    ensures Inv(s)
  {
    var n: nat, ms :| n <= INT_MAX && Run(Start(n), ms) == Some(s);
    StartInv(n);
    RunKeepsInv(Start(n), ms);
  }

  // ---------------------------------------------------------------- what follows for every run

  /** At most one thread is inside the secure world. */
  lemma OneThreadInside(s: State, t: nat, u: nat)
    requires Reachable(s) && t < |s.threads| && u < |s.threads| && s.threads[t].Calling? && s.threads[u].Calling?
    ensures t == u && s.owner == Some(t)
  {
    ReachableInv(s);
    HolderIsOwner(s, t);
    HolderIsOwner(s, u);
  }

  /** xfer_preempt in every interleaving: the count it reads is never 0, and it gives up the lock
      exactly when another thread is after it, which is still so when it does. */
  lemma PreemptsForSomebody(s: State, t: nat)
    requires Reachable(s) && t < |s.threads|
    ensures !s.threads[t].Alarmed?
    ensures s.threads[t].Preempting? ==>
      && s.unbound == 1 + Total(Contending, s.threads)
      && (Next(s, Step(t)).value.threads[t].Yielding?
        <==> exists u :: 0 <= u < |s.threads| && Contending(s.threads[u]) == 1)
    ensures s.threads[t].Yielding? ==> exists u :: 0 <= u < |s.threads| && u != t && Contending(s.threads[u]) == 1
  {
    ReachableInv(s);
    TotalAtLeast(IsAlarmed, s.threads, t);
    TotalAtLeast(IsYielding, s.threads, t);
    if s.threads[t].Preempting? {
      HolderReads(s, t);
      ContendersSeen(s);
    }
    if s.threads[t].Yielding? { ContendersSeen(s); }
  }

  lemma ContendersSeen(s: State)
    ensures Total(Contending, s.threads) > 0 <==> exists u :: 0 <= u < |s.threads| && Contending(s.threads[u]) == 1
  {
    if Total(Contending, s.threads) > 0 { var u := TotalPositive(Contending, s.threads); }
    if u :| 0 <= u < |s.threads| && Contending(s.threads[u]) == 1 { TotalAtLeast(Contending, s.threads, u); }
  }

  /** Threads entered and not finished are counted exactly. */
  lemma UnboundCounts(s: State)
    requires Reachable(s)
    ensures s.unbound == Total(Bound, s.threads)
  {
    ReachableInv(s);
  }

  /** Parked callers are conserved, so permits never exceed them and each up releases one. */
  lemma WaitersConserved(s: State)
    requires Reachable(s)
    ensures Total(IsParked, s.threads) == s.waiting + s.permits + Total(IsPosting, s.threads)
    ensures 0 <= s.waiting && 0 <= s.permits <= Total(IsParked, s.threads)
    ensures s.ledger.released <= s.ledger.completed && s.ledger.released <= s.ledger.registered
  {
    ReachableInv(s);
  }

  /** Every thread is outside or parked, and no permit is left. */
  predicate Quiet(s: State)
  {
    s.permits == 0 && forall t :: 0 <= t < |s.threads| ==> s.threads[t].Away? || s.threads[t].Parked?
  }

  /** Nothing but a new call or a signal is possible. */
  ghost predicate Stuck(s: State)
  {
    forall m: Move :: m.Step? || m.Reply? ==> Next(s, m).None?
  }

  /** The only states in which nothing moves are the quiet ones: the lock never deadlocks. */
  lemma StuckIffQuiet(s: State)
    requires Reachable(s)
    ensures Stuck(s) <==> Quiet(s)
  {
    ReachableInv(s);
    if !Quiet(s) { var m := SomebodyMoves(s); }
  }

  lemma SomebodyMoves(s: State) returns (m: Move)
    requires Inv(s) && !Quiet(s)
    ensures (m.Step? || m.Reply?) && Next(s, m).Some?
  {
    if s.owner.Some? {
      var t := s.owner.value;
      m := if s.threads[t].Calling? then Reply(t, Complete) else Step(t);
    } else if t :| 0 <= t < |s.threads| && !s.threads[t].Away? && !s.threads[t].Parked? {
      if s.threads[t].Calling? { HolderIsOwner(s, t); }
      m := Step(t);
    } else {
      var t := TotalPositive(IsParked, s.threads);
      m := Step(t);
    }
  }

  /** What is left parked when all is quiet: those registered beyond the completions that found
      somebody registered. */
  lemma LeftParked(s: State)
    requires Reachable(s) && Quiet(s)
    ensures Total(IsParked, s.threads) == s.waiting == s.ledger.registered - (s.ledger.completed - s.ledger.unneeded)
  {
    ReachableInv(s);
    TotalZero(IsPosting, s.threads);
    TotalZero(Completing, s.threads);
  }

  // ---------------------------------------------------------------- who stays parked

  function Max(a: int, b: int): int { if a > b then a else b }

  /** A caller registers, or a completion looks for one that has. */
  function Delta(s: State, m: Move): int
  {
    if !m.Step? || m.t >= |s.threads| then 0
    else if s.threads[m.t].Registering? then 1
    else if s.threads[m.t].Dequeuing? then -1
    else 0
  }

  /** The registrations of a run less its completions. */
  function Net(s: State, ms: seq<Move>): int
    requires Run(s, ms).Some?
    decreases |ms|
  {
    if ms == [] then 0 else Delta(s, ms[0]) + Net(Next(s, ms[0]).value, ms[1..])
  }

  /** The same from the k-th move on. */
  function TailNet(s: State, ms: seq<Move>, k: nat): int
    requires Run(s, ms).Some? && k <= |ms|
    decreases |ms|
  {
    if k == 0 then Net(s, ms) else TailNet(Next(s, ms[0]).value, ms[1..], k - 1)
  }

  /** The largest surplus of registrations that a tail of the run has; the empty tail has none. */
  function Excess(s: State, ms: seq<Move>): (e: int)
    requires Run(s, ms).Some?
    ensures e >= 0
    decreases |ms|
  {
    if ms == [] then 0 else Max(Net(s, ms), Excess(Next(s, ms[0]).value, ms[1..]))
  }

  lemma {:induction false} ExcessBounds(s: State, ms: seq<Move>, k: nat)
    requires Run(s, ms).Some? && k <= |ms|
    ensures TailNet(s, ms, k) <= Excess(s, ms)
    decreases |ms|
  {
    if k > 0 { ExcessBounds(Next(s, ms[0]).value, ms[1..], k - 1); }
  }

  lemma {:induction false} ExcessIsReached(s: State, ms: seq<Move>) returns (k: nat)
    requires Run(s, ms).Some?
    ensures k <= |ms| && TailNet(s, ms, k) == Excess(s, ms)
    decreases |ms|
  {
    k := 0;
    if ms != [] && Net(s, ms) < Excess(s, ms) {
      k := ExcessIsReached(Next(s, ms[0]).value, ms[1..]);
      k := k + 1;
    }
  }

  /** A completion that finds nobody registered is lost: the waiters do not go below 0. */
  lemma WaitingStep(s: State, m: Move)
    requires Inv(s) && Next(s, m).Some?
    ensures Next(s, m).value.waiting == Max(0, s.waiting + Delta(s, m))
  {
    if Delta(s, m) == 1 {
      TotalUpdate(IsParked, s.threads, m.t, Parked);
      Bounded(At(s, m.t, Parked));
    }
  }

  /** Every step of the run moves the waiters so. */
  ghost predicate WaitersFollow(s: State, ms: seq<Move>)
    requires Run(s, ms).Some?
    decreases |ms|
  {
    && s.waiting >= 0
    && (ms == [] ||
        (var n := Next(s, ms[0]).value; n.waiting == Max(0, s.waiting + Delta(s, ms[0])) && WaitersFollow(n, ms[1..])))
  }

  lemma {:induction false} RunFollows(s: State, ms: seq<Move>)
    requires Inv(s) && Run(s, ms).Some?
    ensures WaitersFollow(s, ms)
    decreases |ms|
  {
    if ms != [] {
      WaitingStep(s, ms[0]);
      StepKeepsInv(s, ms[0]);
      RunFollows(Next(s, ms[0]).value, ms[1..]);
    }
  }

  lemma {:induction false} WaitingIsExcess(s: State, ms: seq<Move>)
    requires Run(s, ms).Some? && WaitersFollow(s, ms)
    ensures Run(s, ms).value.waiting == Max(Excess(s, ms), s.waiting + Net(s, ms))
    decreases |ms|
  {
    if ms != [] {
      WaitingIsExcess(Next(s, ms[0]).value, ms[1..]);
      SurplusUnfolds(s, ms);
    }
  }

  lemma {:induction false} SurplusUnfolds(s: State, ms: seq<Move>)
    requires Run(s, ms).Some? && ms != []
    ensures var n := Next(s, ms[0]).value;
      && Net(s, ms) == Delta(s, ms[0]) + Net(n, ms[1..])
      && Excess(s, ms) == Max(Net(s, ms), Excess(n, ms[1..])) && Net(n, ms[1..]) <= Excess(n, ms[1..])
  {
    ExcessBounds(Next(s, ms[0]).value, ms[1..], 0);
  }

  /** In every state of every run: those parked without a permit on its way are as many as the
      largest surplus of registrations over completions that a tail of the run has. */
  lemma {:induction false} ParkedIsExcess(n: nat, ms: seq<Move>, s: State)
    requires n <= INT_MAX && Run(Start(n), ms) == Some(s)
    ensures Total(IsParked, s.threads) == Excess(Start(n), ms) + s.permits + Total(IsPosting, s.threads)
    ensures Quiet(s) ==> Total(IsParked, s.threads) == Excess(Start(n), ms)
  {
    StartInv(n);
    RunKeepsInv(Start(n), ms);
    RunFollows(Start(n), ms);
    WaitingIsExcess(Start(n), ms);
    ExcessBounds(Start(n), ms, 0);
    if Quiet(s) { LeftParked(s); }
  }

  /** When all is quiet nobody is left parked if and only if every tail of the run completes at least
      as often as it registers: no registration comes after the completions that should meet it. */
  lemma {:induction false} EverybodyReleasedIff(n: nat, ms: seq<Move>, s: State)
    requires n <= INT_MAX && Run(Start(n), ms) == Some(s) && Quiet(s)
    ensures (forall t :: 0 <= t < |s.threads| ==> s.threads[t].Away?)
       <==> forall k: nat :: k <= |ms| ==> TailNet(Start(n), ms, k) <= 0
  {
    ParkedIsExcess(n, ms, s);
    NobodyParked(s);
    NoSurplus(Start(n), ms);
  }

  lemma {:induction false} NobodyParked(s: State)
    requires Quiet(s)
    ensures Total(IsParked, s.threads) == 0 <==> forall t :: 0 <= t < |s.threads| ==> s.threads[t].Away?
  {
    if Total(IsParked, s.threads) > 0 {
      var t := TotalPositive(IsParked, s.threads);
      assert s.threads[t].Parked?;
    } else {
      forall t | 0 <= t < |s.threads| ensures s.threads[t].Away? { TotalAtLeast(IsParked, s.threads, t); }
    }
  }

  lemma {:induction false} NoSurplus(s: State, ms: seq<Move>)
    requires Run(s, ms).Some?
    ensures Excess(s, ms) == 0 <==> forall k: nat :: k <= |ms| ==> TailNet(s, ms, k) <= 0
  {
    forall k: nat | k <= |ms| ensures TailNet(s, ms, k) <= Excess(s, ms) { ExcessBounds(s, ms, k); }
    var k := ExcessIsReached(s, ms);
  }

  // ---------------------------------------------------------------- a completion that comes too early

  lemma {:induction false} RunAppends(s: State, ms: seq<Move>, more: seq<Move>)
    requires Run(s, ms).Some?
    ensures Run(s, ms + more) == Run(Run(s, ms).value, more)
    decreases |ms|
  {
    if ms == [] {
      assert ms + more == more;
    } else {
      assert (ms + more)[0] == ms[0] && (ms + more)[1..] == ms[1..] + more;
      RunAppends(Next(s, ms[0]).value, ms[1..], more);
    }
  }

  lemma RunOne(s: State, m: Move)
    ensures Run(s, [m]) == Next(s, m)
  {
  }

  /** A call that has the secure world to itself. */
  function Visit(t: nat, a: Answer): seq<Move>
  {
    [Begin(t, false), Step(t), Step(t)] + [Reply(t, a), Step(t), Step(t)]
  }

  function Visited(s: State, t: nat, a: Answer): State
    requires t < |s.threads|
  {
    At(s, t, Returned(false, a)).(ledger :=
      if a == Complete then s.ledger.(completed := s.ledger.completed + 1) else s.ledger)
  }

  lemma VisitRuns(s: State, t: nat, a: Answer)
    requires t < |s.threads| && s.threads[t].Away? && s.owner == None && 0 <= s.unbound < INT_MAX
    requires !a.Nonpreempt? && !a.Irq?
    ensures Run(s, Visit(t, a)) == Some(Visited(s, t, a))
  {
    var inside := At(s, t, Calling(false)).(unbound := s.unbound + 1, owner := Some(t));
    GoesIn(s, t);
    GoesOut(inside, t, a);
    RunAppends(s, [Begin(t, false), Step(t), Step(t)], [Reply(t, a), Step(t), Step(t)]);
    assert Visited(inside, t, a).(unbound := s.unbound, owner := None) == Visited(s, t, a);
  }

  lemma GoesIn(s: State, t: nat)
    requires t < |s.threads| && s.threads[t].Away? && s.owner == None && 0 <= s.unbound < INT_MAX
    ensures Run(s, [Begin(t, false), Step(t), Step(t)])
            == Some(At(s, t, Calling(false)).(unbound := s.unbound + 1, owner := Some(t)))
  {
    var s1 := At(s, t, Entering(false));
    var s2 := At(s1, t, Locking(false)).(unbound := s.unbound + 1);
    assert Next(s, Begin(t, false)) == Some(s1) && Next(s1, Step(t)) == Some(s2);
    assert [Begin(t, false), Step(t), Step(t)][1..] == [Step(t), Step(t)] && [Step(t), Step(t)][1..] == [Step(t)];
    RunOne(s2, Step(t));
    assert s2.threads[t := Calling(false)] == s.threads[t := Calling(false)];
  }

  lemma GoesOut(s: State, t: nat, a: Answer)
    requires t < |s.threads| && s.threads[t] == Calling(false) && s.owner == Some(t) && 0 < s.unbound <= INT_MAX
    requires !a.Nonpreempt? && !a.Irq?
    ensures Run(s, [Reply(t, a), Step(t), Step(t)])
            == Some(Visited(s, t, a).(unbound := s.unbound - 1, owner := None))
  {
    var s1 := Replied(s, t, a).value;
    var s2 := At(s1, t, Unlocking(false, a)).(unbound := s.unbound - 1);
    assert s1.threads == s.threads[t := Leaving(false, a)] && Next(s1, Step(t)) == Some(s2);
    assert [Reply(t, a), Step(t), Step(t)][1..] == [Step(t), Step(t)] && [Step(t), Step(t)][1..] == [Step(t)];
    RunOne(s2, Step(t));
    assert s2.threads[t := Returned(false, a)] == s.threads[t := Returned(false, a)];
  }

  lemma ReachableOn(s: State, ms: seq<Move>, n: State)
    requires Reachable(s) && Run(s, ms) == Some(n)
    ensures Reachable(n)
  {
    var k: nat, before :| k <= INT_MAX && Run(Start(k), before) == Some(s);
    RunAppends(Start(k), before, ms);
  }

  lemma VisitReaches(s: State, t: nat, a: Answer, n: State)
    requires Reachable(s) && t < |s.threads| && s.threads[t].Away? && s.owner == None && s.unbound == 0
    requires a == Request || a == Limit || a == Complete
    requires n == Visited(s, t, a)
    ensures Reachable(n)
  {
    VisitRuns(s, t, a);
    ReachableOn(s, Visit(t, a), n);
  }

  lemma StepReaches(s: State, m: Move, n: State)
    requires Reachable(s) && Next(s, m) == Some(n)
    ensures Reachable(n)
  {
    RunOne(s, m);
    ReachableOn(s, [m], n);
  }

  /** Two callers, nothing held and nothing parked. */
  function Two(first: Thread, second: Thread, completed: nat, unneeded: nat): State
  {
    State(0, None, 0, 0, [first, second], Ledger(0, completed, unneeded, 0))
  }

  lemma StartOfTwo()
    ensures Reachable(Two(Away, Away, 0, 0))
  {
    assert Start(2).threads == [Away, Away];
    assert Run(Start(2), []) == Some(Two(Away, Away, 0, 0));
  }

  lemma FirstCompletes()
    ensures Reachable(Two(Dequeuing, Registering, 1, 0))
  {
    StartOfTwo();
    assert [Away, Away][0 := Away] == [Away, Away] && [Away, Away][1 := Registering] == [Away, Registering];
    VisitReaches(Two(Away, Away, 0, 0), 0, Request, Two(Away, Away, 0, 0));
    VisitReaches(Two(Away, Away, 0, 0), 1, Limit, Two(Away, Registering, 0, 0));
    assert [Away, Registering][0 := Dequeuing] == [Dequeuing, Registering];
    VisitReaches(Two(Away, Registering, 0, 0), 0, Complete, Two(Dequeuing, Registering, 1, 0));
  }

  /** The second caller is told that the threads are all taken; before it registers, the first one
      completes and finds nobody to release. Then the second one stays parked with all others gone. */
  lemma CompletionBeforeRegistration() returns (s: State)
    ensures Reachable(s) && Quiet(s) && s.threads == [Away, Parked]
  {
    FirstCompletes();
    assert [Dequeuing, Registering][0 := Away] == [Away, Registering]
      && [Away, Registering][1 := Parked] == [Away, Parked];
    StepReaches(Two(Dequeuing, Registering, 1, 0), Step(0), Two(Away, Registering, 1, 1));
    s := State(0, None, 1, 0, [Away, Parked], Ledger(1, 1, 1, 0));
    StepReaches(Two(Away, Registering, 1, 1), Step(1), s);
  }
}
