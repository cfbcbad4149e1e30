/** The agreement between callers who need the system awake and the one thread that suspends
    it, as steps of any number of threads interleaved in any order. Each step is one access to
    the shared counter or to a wait queue. */
module SuspendProtocol {

  import opened Atomics

  /** Where a thread stands in tkcore_stay_awake. Queued and Asleep are on the wait queue
      suspend_done; a thread is Asleep once it found the counter negative after queueing. */
  datatype Caller = Idle | Try | Check | Enqueue | Queued | Asleep | Awake | WakePending

  /** Where the suspend notifier stands; WQueued and WAsleep are on the wait queue awake_done. */
  datatype Suspender =
    | Resumed
    | Read | Exchange | WCheck | WEnqueue | WQueued | WAsleep
    | Unexpected
    | Suspended | PostSet(v: int) | PostWake

  datatype State = State(cnt: int, callers: seq<Caller>, sus: Suspender)

  /** Who moves next. Begin, Prepare and Post come from outside; Interrupt is a signal that ends
      a freezable wait early. */
  datatype Move = Begin(t: nat) | Step(t: nat) | Interrupt(t: nat) | Prepare | Post | Suspend

  datatype Option<T> = None | Some(value: T)

  // ---------------------------------------------------------------- steps

  /** wake_up on suspend_done: one that was asleep queues again, one that was about to check
      its condition checks it off the queue. */
  function Roused(c: Caller): Caller
  {
    match c
    case Queued => Check
    case Asleep => Enqueue
    case _ => c
  }

  function RousedAll(cs: seq<Caller>): (r: seq<Caller>)
    ensures |r| == |cs| && forall i :: 0 <= i < |cs| ==> r[i] == Roused(cs[i])
  {
    if cs == [] then [] else [Roused(cs[0])] + RousedAll(cs[1..])
  }

  /** wake_up on awake_done. */
  function RousedSuspender(p: Suspender): Suspender
  {
    match p
    case WQueued => WCheck
    case WAsleep => WEnqueue
    case _ => p
  }

  function At(s: State, t: nat, c: Caller): State
    requires t < |s.callers|
  {
    s.(callers := s.callers[t := c])
  }

  /** tee_keep_awake, the callback and tee_cancel_awake, one access at a time. */
  function CallerStep(s: State, t: nat): Option<State>
    requires t < |s.callers|
  {
    match s.callers[t]
    case Idle => None
    case Try => Some(if s.cnt < 0 then At(s, t, Check) else At(s, t, Awake).(cnt := Incremented(s.cnt)))
    case Check => Some(At(s, t, if s.cnt >= 0 then Try else Enqueue))
    case Enqueue => Some(At(s, t, Queued))
    case Queued => Some(At(s, t, if s.cnt >= 0 then Try else Asleep))
    case Asleep => None
    case Awake => Some(At(s, t, if s.cnt == 1 then WakePending else Idle).(cnt := Decremented(s.cnt)))
    case WakePending => Some(At(s, t, Idle).(sus := RousedSuspender(s.sus)))
  }

  /** tee_prepare_suspend and tee_post_suspend, one access at a time. */
  function SuspenderStep(s: State): Option<State>
  {
    match s.sus
    case Resumed => None
    case Read => Some(s.(sus := if s.cnt >= 0 then Exchange else Unexpected))
    case Exchange => Some(if s.cnt == 0 then s.(cnt := -1, sus := Suspended) else s.(sus := WCheck))
    case WCheck => Some(s.(sus := if s.cnt == 0 then Read else WEnqueue))
    case WEnqueue => Some(s.(sus := WQueued))
    case WQueued => Some(s.(sus := if s.cnt == 0 then Read else WAsleep))
    case WAsleep => None
    case Unexpected => None
    case Suspended => None
    case PostSet(v) => Some(s.(cnt := Incremented(v), sus := PostWake))
    case PostWake => Some(s.(callers := RousedAll(s.callers), sus := Resumed))
  }

  /** The state after a move, if the move is possible. Prepare and post events alternate; a
      prepare that ended in the warning is followed by its post like any other. */
  function Next(s: State, m: Move): Option<State>
  {
    match m
    case Begin(t) => if t < |s.callers| && s.callers[t].Idle? then Some(At(s, t, Try)) else None
    case Step(t) => if t < |s.callers| then CallerStep(s, t) else None
    case Interrupt(t) =>
      if t < |s.callers| && s.callers[t] in {Queued, Asleep} then Some(At(s, t, Try)) else None
    case Prepare => if s.sus.Resumed? then Some(s.(sus := Read)) else None
    case Post => if s.sus.Suspended? || s.sus.Unexpected? then Some(s.(sus := PostSet(s.cnt))) else None
    case Suspend => SuspenderStep(s)
  }

  function Run(s: State, ms: seq<Move>): Option<State>
    decreases |ms|
  {
    if ms == [] then Some(s)
    else match Next(s, ms[0]) case None => None case Some(n) => Run(n, ms[1..])
  }

  function Start(n: nat): State { State(0, seq(n, _ => Idle), Resumed) }

  ghost predicate Reachable(s: State)
  {
    exists n: nat, ms: seq<Move> :: n <= INT_MAX && Run(Start(n), ms) == Some(s)
  }
}
