/** What every run of the suspend protocol keeps, and what follows: exclusion, no lost wakeup, and
    an end for everybody. */
module SuspendLaws {

  import opened Totals
  import opened Atomics
  import opened SuspendProtocol

  // ---------------------------------------------------------------- what every step keeps

  /** 1 for a thread between tee_keep_awake and tee_cancel_awake. */
  function KeepsAwake(c: Caller): nat { if c.Awake? then 1 else 0 }

  predicate Down(p: Suspender) { p.Suspended? || p.PostSet? }

  /** The counter is -1 and nobody is awake while the system is down, and otherwise it is the
      number of threads that keep it awake. */
  ghost predicate Counted(s: State)
  {
    && |s.callers| <= INT_MAX
    && s.sus != Unexpected
    && (s.sus.PostSet? ==> s.sus.v == -1)
    && (if Down(s.sus) then s.cnt == -1 && Total(KeepsAwake, s.callers) == 0
        else s.cnt == Total(KeepsAwake, s.callers))
  }

  /** Whoever sleeps is waited for by somebody who is still to act. */
  ghost predicate NoLostWakeup(s: State)
  {
    && (s.sus.WAsleep? ==> s.cnt > 0 || WakePending in s.callers)
    && (Asleep in s.callers ==> s.cnt < 0 || s.sus.PostWake?)
  }

  ghost predicate Inv(s: State) { Counted(s) && NoLostWakeup(s) }

  lemma {:induction false} RousedKeepsTotal(cs: seq<Caller>)
    ensures Total(KeepsAwake, RousedAll(cs)) == Total(KeepsAwake, cs)
  {
    if cs != [] { RousedKeepsTotal(cs[1..]); }
  }

  lemma StaysIn(cs: seq<Caller>, t: nat, c: Caller, x: Caller)
    requires t < |cs| && cs[t] != x && x in cs
    ensures x in cs[t := c]
  {
    var u :| 0 <= u < |cs| && cs[u] == x;
    assert cs[t := c][u] == x;
  }

  /** A caller that is not about to wake the suspender moves without changing the counter. */
  lemma CallerMoves(s: State, t: nat, c: Caller)
    requires NoLostWakeup(s) && t < |s.callers| && s.callers[t] != WakePending && c != Asleep
    ensures NoLostWakeup(At(s, t, c))
  {
    if WakePending in s.callers { StaysIn(s.callers, t, c, WakePending); }
  }

  lemma CountBounded(cs: seq<Caller>)
    ensures Total(KeepsAwake, cs) <= |cs|
  {
    TotalBounded(KeepsAwake, cs, 1);
  }

  lemma CallerKeepsCount(s: State, t: nat)
    requires Counted(s) && t < |s.callers| && CallerStep(s, t).Some?
    ensures Counted(CallerStep(s, t).value)
  {
    var n := CallerStep(s, t).value;
    TotalUpdate(KeepsAwake, s.callers, t, n.callers[t]);
    TotalAtLeast(KeepsAwake, s.callers, t);
    CountBounded(n.callers);
  }

  lemma CallerKeepsWakeups(s: State, t: nat)
    requires Inv(s) && t < |s.callers| && CallerStep(s, t).Some?
    ensures NoLostWakeup(CallerStep(s, t).value)
  {
    match s.callers[t]
    case Try => CallerKeepsCount(s, t); CallerMoves(s, t, Check); CallerMoves(s, t, Awake);
    case Check => CallerMoves(s, t, Try); CallerMoves(s, t, Enqueue);
    case Enqueue => CallerMoves(s, t, Queued);
    case Queued =>
      CallerMoves(s, t, Try);
      if WakePending in s.callers { StaysIn(s.callers, t, Asleep, WakePending); }
    case Awake =>
      TotalAtLeast(KeepsAwake, s.callers, t);
      CallerMoves(s, t, Idle);
      assert At(s, t, WakePending).callers[t] == WakePending;
    case WakePending =>
      assert Asleep in At(s, t, Idle).callers ==> Asleep in s.callers;
  }

  /** A caller that is not counted moves to another place where it is not counted. */
  lemma UncountedMoves(s: State, t: nat, c: Caller)
    requires Inv(s) && t < |s.callers| && s.callers[t] !in {Awake, WakePending} && c !in {Awake, Asleep}
    ensures Inv(At(s, t, c))
  {
    TotalUpdate(KeepsAwake, s.callers, t, c);
    CallerMoves(s, t, c);
  }

  lemma NobodySleepsOn(s: State)
    requires Inv(s) && s.sus.PostWake?
    ensures Inv(s.(callers := RousedAll(s.callers), sus := Resumed))
  {
    RousedKeepsTotal(s.callers);
    assert Asleep !in RousedAll(s.callers);
  }

  lemma SuspenderKeepsInv(s: State)
    requires Inv(s) && SuspenderStep(s).Some?
    ensures Inv(SuspenderStep(s).value)
  {
    if s.sus.PostWake? { NobodySleepsOn(s); }
  }

  lemma StepKeepsInv(s: State, m: Move)
    requires Inv(s) && Next(s, m).Some?
    ensures Inv(Next(s, m).value)
  {
    match m
    case Step(t) => CallerKeepsCount(s, t); CallerKeepsWakeups(s, t);
    case Begin(t) => UncountedMoves(s, t, Try);
    case Interrupt(t) => UncountedMoves(s, t, Try);
    case Prepare =>
    case Post =>
    case Suspend => SuspenderKeepsInv(s);
  }

  lemma StartInv(n: nat)
    requires n <= INT_MAX
    ensures Inv(Start(n))
  {
    TotalZero(KeepsAwake, Start(n).callers);
  }

  lemma {:induction false} RunKeepsInv(s: State, ms: seq<Move>)
    requires Inv(s) && Run(s, ms).Some?
    ensures Inv(Run(s, ms).value)
    decreases |ms|
  {
    if ms != [] {
      StepKeepsInv(s, ms[0]);
      RunKeepsInv(Next(s, ms[0]).value, ms[1..]);
    }
  }

  lemma ReachableInv(s: State)
    requires Reachable(s)
    ensures Inv(s)
  {
    var n: nat, ms :| n <= INT_MAX && Run(Start(n), ms) == Some(s);
    StartInv(n);
    RunKeepsInv(Start(n), ms);
  }

  /** The purpose of the protocol, in every interleaving: nobody is between tee_keep_awake and
      tee_cancel_awake while the system is down; the counter is the number of those threads
      otherwise; the read and the write of tee_post_suspend, although not atomic together, leave
      0; and the warning about an unexpected value is never printed. */
  lemma SuspendExcludesCallers(s: State)
    requires Reachable(s)
    ensures Down(s.sus) ==> s.cnt == -1 && Awake !in s.callers
    ensures !Down(s.sus) ==> s.cnt == Total(KeepsAwake, s.callers)
    ensures s.sus.PostSet? ==> SuspenderStep(s).value.cnt == 0
    ensures s.sus != Unexpected
  {
    ReachableInv(s);
    forall t | 0 <= t < |s.callers| ensures Down(s.sus) ==> s.callers[t] != Awake {
      TotalAtLeast(KeepsAwake, s.callers, t);
    }
  }

  // ---------------------------------------------------------------- everybody gets through

  /** A move of a participant that is under way; the post event of a suspended system is one. */
  predicate Finishing(m: Move) { m.Step? || m.Suspend? || m.Post? }

  predicate AtRest(s: State) { s.sus.Resumed? && forall t :: 0 <= t < |s.callers| ==> s.callers[t].Idle? }

  /** What a caller has left to do, at most, until the counter changes its sign. */
  function LeftWhenDown(c: Caller): nat
  {
    match c
    case Try => 4
    case Check => 3
    case Enqueue => 2
    case Queued => 1
    case WakePending => 1
    case _ => 0
  }

  function LeftWhenUp(c: Caller): nat
  {
    match c
    case Enqueue => 6
    case Queued => 5
    case Check => 5
    case Try => 4
    case Awake => 3
    case WakePending => 1
    case _ => 0
  }

  function CallersLeft(s: State): nat
  {
    if s.cnt < 0 then Total(LeftWhenDown, s.callers) else Total(LeftWhenUp, s.callers)
  }

  /** What the suspender has left: the phases of a suspend cycle ... */
  function PhasesLeft(p: Suspender): nat
  {
    match p
    case Resumed => 0
    case PostWake => 1
    case PostSet(_) => 2
    case Suspended => 3
    case _ => 4
  }

  /** ... and the steps inside the first one while no caller moves. */
  function StepsLeft(p: Suspender, cnt: int): nat
  {
    match p
    case Read => if cnt == 0 then 3 else 5
    case Exchange => if cnt == 0 then 2 else 4
    case WCheck => if cnt == 0 then 4 else 3
    case WEnqueue => if cnt == 0 then 5 else 2
    case WQueued => if cnt == 0 then 4 else 1
    case _ => 0
  }

  function Effort(s: State): nat
  {
    6 * ((6 * |s.callers| + 1) * PhasesLeft(s.sus) + CallersLeft(s)) + StepsLeft(s.sus, s.cnt)
  }

  lemma CallersLeftBounded(s: State)
    ensures CallersLeft(s) <= 6 * |s.callers|
  {
    TotalBounded(LeftWhenUp, s.callers, 6);
    TotalBounded(LeftWhenDown, s.callers, 6);
  }

  lemma EffortBounded(s: State)
    ensures Effort(s) <= 180 * |s.callers| + 29
  {
    CallersLeftBounded(s);
    assert (6 * |s.callers| + 1) * PhasesLeft(s.sus) <= (6 * |s.callers| + 1) * 4;
  }

  /** A caller does not turn the system down or up. */
  lemma CallerKeepsSign(s: State, t: nat)
    requires Inv(s) && t < |s.callers| && CallerStep(s, t).Some?
    ensures CallerStep(s, t).value.cnt < 0 <==> s.cnt < 0
    ensures s.cnt < 0 ==> !s.callers[t].Awake?
  {
    CallerKeepsCount(s, t);
    TotalAtLeast(KeepsAwake, s.callers, t);
  }

  lemma CallerWorks(s: State, t: nat)
    requires Inv(s) && t < |s.callers| && CallerStep(s, t).Some?
    ensures var n := CallerStep(s, t).value; CallersLeft(n) < CallersLeft(s) && PhasesLeft(n.sus) == PhasesLeft(s.sus)
  {
    var n := CallerStep(s, t).value;
    CallerKeepsSign(s, t);
    assert n.callers == s.callers[t := n.callers[t]];
    if s.cnt < 0 {
      TotalUpdate(LeftWhenDown, s.callers, t, n.callers[t]);
    } else {
      TotalUpdate(LeftWhenUp, s.callers, t, n.callers[t]);
    }
  }

  lemma PhaseEnds(n: nat, p: nat, q: nat)
    requires p < q
    ensures (6 * n + 1) * p + 6 * n + 1 <= (6 * n + 1) * q
  {
    assert (6 * n + 1) * (q - p - 1) >= 0;
  }

  /** Every move of a participant that is under way leaves strictly less to do. */
  lemma EffortDrops(s: State, m: Move)
    requires Inv(s) && Finishing(m) && Next(s, m).Some?
    ensures Effort(Next(s, m).value) < Effort(s)
  {
    var n := Next(s, m).value;
    if m.Step? {
      CallerWorks(s, m.t);
    } else if PhasesLeft(n.sus) < PhasesLeft(s.sus) {
      PhaseEnds(|s.callers|, PhasesLeft(n.sus), PhasesLeft(s.sus));
      CallersLeftBounded(n);
    }
  }

  /** As long as somebody is under way, somebody can move: no reachable state has every
      participant blocked. */
  lemma NobodyStuck(s: State) returns (m: Move)
    requires Reachable(s) && !AtRest(s)
    ensures Finishing(m) && Next(s, m).Some?
  {
    ReachableInv(s);
    if s.sus.WAsleep? {
      if WakePending in s.callers {
        var t :| 0 <= t < |s.callers| && s.callers[t] == WakePending;
        m := Step(t);
      } else {
        var t := TotalPositive(KeepsAwake, s.callers);
        m := Step(t);
      }
    } else if s.sus.Suspended? {
      m := Post;
    } else if s.sus.Resumed? {
      var t :| 0 <= t < |s.callers| && !s.callers[t].Idle?;
      m := Step(t);
    } else {
      m := Suspend;
    }
  }

  lemma {:induction false} RunAppends(s: State, ms: seq<Move>, more: seq<Move>)
    requires Run(s, ms).Some?
    ensures Run(s, ms + more) == Run(Run(s, ms).value, more)
    decreases |ms|
  {
    if ms == [] {
      assert ms + more == more;
    } else {
      assert (ms + more)[0] == ms[0] && (ms + more)[1..] == ms[1..] + more;
      RunAppends(Next(s, ms[0]).value, ms[1..], more);
    }
  }

  lemma ReachableOn(s: State, ms: seq<Move>)
    requires Reachable(s) && Run(s, ms).Some?
    ensures Reachable(Run(s, ms).value)
  {
    var n: nat, before :| n <= INT_MAX && Run(Start(n), before) == Some(s);
    RunAppends(Start(n), before, ms);
  }

  lemma {:induction false} RunShortens(s: State, ms: seq<Move>)
    requires Inv(s) && Run(s, ms).Some? && forall m <- ms :: Finishing(m)
    ensures |ms| + Effort(Run(s, ms).value) <= Effort(s)
    decreases |ms|
  {
    if ms != [] {
      StepKeepsInv(s, ms[0]);
      EffortDrops(s, ms[0]);
      RunShortens(Next(s, ms[0]).value, ms[1..]);
    }
  }

  /** Liveness with no fairness assumed. From any reachable state, once no new call, suspend or
      signal comes in, every schedule of the others is over after a bounded number of steps, and
      one that cannot be continued has brought everybody through. */
  lemma EverybodyGetsThrough(s: State, ms: seq<Move>)
    requires Reachable(s) && Run(s, ms).Some? && forall m <- ms :: Finishing(m)
    ensures |ms| <= 180 * |s.callers| + 29
    ensures (forall m | Finishing(m) :: Next(Run(s, ms).value, m).None?) <==> AtRest(Run(s, ms).value)
  {
    ReachableInv(s);
    RunShortens(s, ms);
    EffortBounded(s);
    ReachableOn(s, ms);
    var n := Run(s, ms).value;
    if !AtRest(n) {
      var m := NobodyStuck(n);
      assert Finishing(m);
    }
  }

  // ---------------------------------------------------------------- and has done what it came for

  /** The moves of a run that are m. */
  function Count(ms: seq<Move>, m: Move): nat
  {
    if ms == [] then 0 else (if ms[0] == m then 1 else 0) + Count(ms[1..], m)
  }

  /** The thread is in its callback after the move, and was not before. */
  predicate Enters(s: State, n: State, t: nat)
  {
    t < |s.callers| && t < |n.callers| && s.callers[t] != Awake && n.callers[t] == Awake
  }

  /** How often a thread enters its callback on a run. */
  function Callbacks(s: State, ms: seq<Move>, t: nat): nat
    requires Run(s, ms).Some?
    decreases |ms|
  {
    if ms == [] then 0
    else
      var n := Next(s, ms[0]).value;
      (if Enters(s, n, t) then 1 else 0) + Callbacks(n, ms[1..], t)
  }

  /** 1 for a thread that has called and has not been in its callback yet. */
  function Waits(c: Caller): nat { if c == Idle || c == Awake || c == WakePending then 0 else 1 }

  lemma {:induction false} CallbackStep(s: State, m: Move, t: nat)
    requires t < |s.callers| && Next(s, m).Some?
    ensures var n := Next(s, m).value;
      && |n.callers| == |s.callers|
      && Waits(n.callers[t]) + (if Enters(s, n, t) then 1 else 0)
        == Waits(s.callers[t]) + (if m == Begin(t) then 1 else 0)
  {
  }

  lemma {:induction false} CallbacksCount(s: State, ms: seq<Move>, t: nat)
    requires t < |s.callers| && Run(s, ms).Some?
    ensures var n := Run(s, ms).value;
      && |n.callers| == |s.callers|
      && Callbacks(s, ms, t) + Waits(n.callers[t]) == Waits(s.callers[t]) + Count(ms, Begin(t))
    decreases |ms|
  {
    if ms != [] {
      CallbackStep(s, ms[0], t);
      CallbacksCount(Next(s, ms[0]).value, ms[1..], t);
    }
  }

  /** In every run a thread has been in its callback once for each call, but for a call that is still
      on its way there: no call returns, by a signal or otherwise, without its callback, and none
      runs it twice. */
  lemma CallbackPerCall(n: nat, ms: seq<Move>, s: State, t: nat)
    requires Run(Start(n), ms) == Some(s) && t < |s.callers|
    ensures s.callers[t] in {Idle, Awake, WakePending} ==> Callbacks(Start(n), ms, t) == Count(ms, Begin(t))
    ensures s.callers[t] !in {Idle, Awake, WakePending} ==> Callbacks(Start(n), ms, t) + 1 == Count(ms, Begin(t))
  {
    RunKeepsThreads(Start(n), ms);
    CallbacksCount(Start(n), ms, t);
  }

  lemma {:induction false} RunKeepsThreads(s: State, ms: seq<Move>)
    requires Run(s, ms).Some?
    ensures |Run(s, ms).value.callers| == |s.callers|
    decreases |ms|
  {
    if ms != [] { RunKeepsThreads(Next(s, ms[0]).value, ms[1..]); }
  }

  /** A thread enters its callback by a step of its own, which counts it. */
  lemma EnteringCounts(s: State, m: Move, t: nat)
    requires Reachable(s) && Next(s, m).Some? && Enters(s, Next(s, m).value, t)
    ensures m == Step(t) && s.cnt >= 0 && Next(s, m).value.cnt == s.cnt + 1
  {
    ReachableInv(s);
    EntersByTry(s, m, t);
    CallerKeepsCount(s, t);
  }

  lemma EntersByTry(s: State, m: Move, t: nat)
    requires Next(s, m).Some? && Enters(s, Next(s, m).value, t)
    ensures m == Step(t) && s.callers[t] == Try && s.cnt >= 0 && Next(s, m).value.cnt == Incremented(s.cnt)
  {
  }

  /** A thread that waits tries again only when it has seen the counter not negative, or for a signal;
      a wake-up alone does not do. */
  lemma WaitersLook(s: State, m: Move, t: nat)
    requires t < |s.callers| && Next(s, m).Some? && s.callers[t] in {Check, Enqueue, Queued, Asleep}
    ensures Next(s, m).value.callers[t] == Try ==> m == Interrupt(t) || (m == Step(t) && s.cnt >= 0)
    ensures Next(s, m).value.callers[t] in {Try, Check, Enqueue, Queued, Asleep}
  {
  }

  /** So does the notifier: only when it has seen the counter 0. */
  lemma NotifierLooks(s: State, m: Move)
    requires Next(s, m).Some? && s.sus in {WCheck, WEnqueue, WQueued, WAsleep}
    ensures Next(s, m).value.sus == Read ==> m == Suspend && s.cnt == 0
    ensures Next(s, m).value.sus in {Read, WCheck, WEnqueue, WQueued, WAsleep}
  {
  }

  /** The system goes down, or is up again. */
  predicate GoesDown(s: State, n: State) { !Down(s.sus) && Down(n.sus) }
  predicate ComesUp(s: State, n: State) { !s.sus.Resumed? && n.sus.Resumed? }

  function Downs(s: State, ms: seq<Move>): nat
    requires Run(s, ms).Some?
    decreases |ms|
  {
    if ms == [] then 0
    else
      var n := Next(s, ms[0]).value;
      (if GoesDown(s, n) then 1 else 0) + Downs(n, ms[1..])
  }

  function Ups(s: State, ms: seq<Move>): nat
    requires Run(s, ms).Some?
    decreases |ms|
  {
    if ms == [] then 0
    else
      var n := Next(s, ms[0]).value;
      (if ComesUp(s, n) then 1 else 0) + Ups(n, ms[1..])
  }

  /** 1 for a notifier that has not yet brought the system down, and up again. */
  function Preparing(p: Suspender): nat
  {
    if p.Resumed? || p.Suspended? || p.PostSet? || p.PostWake? then 0 else 1
  }

  function Posting(p: Suspender): nat { if p.PostSet? || p.PostWake? then 1 else 0 }

  lemma SuspendStep(s: State, m: Move)
    requires Inv(s) && Next(s, m).Some?
    ensures var n := Next(s, m).value;
      && Preparing(n.sus) + (if GoesDown(s, n) then 1 else 0) == Preparing(s.sus) + (if m == Prepare then 1 else 0)
      && Posting(n.sus) + (if ComesUp(s, n) then 1 else 0) == Posting(s.sus) + (if m == Post then 1 else 0)
  {
    StepKeepsInv(s, m);
  }

  lemma {:induction false} SuspendsCount(s: State, ms: seq<Move>)
    requires Inv(s) && Run(s, ms).Some?
    ensures var n := Run(s, ms).value;
      && Downs(s, ms) + Preparing(n.sus) == Preparing(s.sus) + Count(ms, Prepare)
      && Ups(s, ms) + Posting(n.sus) == Posting(s.sus) + Count(ms, Post)
    decreases |ms|
  {
    if ms != [] {
      SuspendStep(s, ms[0]);
      StepKeepsInv(s, ms[0]);
      SuspendsCount(Next(s, ms[0]).value, ms[1..]);
    }
  }

  /** In every run each prepare event has brought the system down once before it returned, and each
      post event has brought it up again. */
  lemma DownPerPrepare(n: nat, ms: seq<Move>, s: State)
    requires n <= INT_MAX && Run(Start(n), ms) == Some(s)
    ensures s.sus in {Resumed, Suspended} ==>
      Downs(Start(n), ms) == Count(ms, Prepare) && Ups(Start(n), ms) == Count(ms, Post)
    ensures s.sus.Resumed? ==> Count(ms, Prepare) == Count(ms, Post)
    ensures s.sus.Suspended? ==> Count(ms, Prepare) == Count(ms, Post) + 1
  {
    StartInv(n);
    SuspendsCount(Start(n), ms);
    EventsAlternate(Start(n), ms);
    RunKeepsInv(Start(n), ms);
  }

  function Opened(p: Suspender): int { if p.Resumed? || p.PostSet? || p.PostWake? then 0 else 1 }

  lemma {:induction false} EventsAlternate(s: State, ms: seq<Move>)
    requires Run(s, ms).Some?
    ensures Opened(Run(s, ms).value.sus) - Opened(s.sus) == Count(ms, Prepare) - Count(ms, Post)
    decreases |ms|
  {
    if ms != [] { EventsAlternate(Next(s, ms[0]).value, ms[1..]); }
  }
}
