/** Calls into the secure world by any number of threads: the lock that lets one in at a time,
    the count that tells its holder whether others want in, and the semaphore that parks callers
    while the secure world is out of threads. The secure world may answer anything. */
module SmcTransfer {

  import opened Atomics

  datatype Option<T> = None | Some(value: T)

  /** What tee_smc_call leaves in a0: out of threads, any other final answer, or a request; a
      request is served on the spot, is an interrupt, or goes up to the caller. */
  datatype Answer = Limit | Complete | Nonpreempt | Irq | Request

  /** Where a thread stands; plain marks a call by smc_xfer, which never parks. */
  datatype Thread =
    | Away
    | Entering(plain: bool) | Locking(plain: bool)
    | Calling(plain: bool)
    | Preempting(plain: bool) | Alarmed(plain: bool) | Yielding(plain: bool) | Relocking(plain: bool)
    | Leaving(plain: bool, a: Answer) | Unlocking(plain: bool, a: Answer)
    | Registering | Parked
    | Dequeuing | Posting

  /** What happened so far; no step looks at it. */
  datatype Ledger = Ledger(registered: nat, completed: nat, unneeded: nat, released: nat)

  datatype State = State(unbound: int, owner: Option<nat>, waiting: int, permits: int, threads: seq<Thread>,
    ledger: Ledger)

  /** A signal interrupts a parked thread, which goes back to the semaphore at once. */
  datatype Move = Begin(t: nat, plain: bool) | Step(t: nat) | Reply(t: nat, a: Answer) | Interrupt(t: nat)

  // ---------------------------------------------------------------- steps

  function At(s: State, t: nat, c: Thread): State
    requires t < |s.threads|
  {
    s.(threads := s.threads[t := c])
  }

  /** tee_smc_work after tee_smc_call. */
  function Answered(plain: bool, a: Answer): Thread
  {
    match a
    case Nonpreempt => Calling(plain)
    case Irq => Preempting(plain)
    case _ => Leaving(plain, a)
  }

  /** __call_tee after __smc_xfer. */
  function Returned(plain: bool, a: Answer): Thread
  {
    if plain then Away
    else
      match a
      case Limit => Registering
      case Complete => Dequeuing
      case _ => Away
  }

  /** mutex_lock. */
  function Locked(s: State, t: nat, plain: bool): Option<State>
    requires t < |s.threads|
  {
    if s.owner == None then Some(At(s, t, Calling(plain)).(owner := Some(t))) else None
  }

  /** One access of thread t to the shared state. */
  function ThreadStep(s: State, t: nat): Option<State>
    requires t < |s.threads|
  {
    var g := s.ledger;
    match s.threads[t]
    case Away => None
    case Entering(p) => Some(At(s, t, Locking(p)).(unbound := Incremented(s.unbound)))
    case Locking(p) => Locked(s, t, p)
    case Calling(_) => None
    case Preempting(p) =>
      Some(At(s, t, if s.unbound > 1 then Yielding(p) else if s.unbound == 0 then Alarmed(p) else Calling(p)))
    case Alarmed(p) => Some(At(s, t, Calling(p)))
    case Yielding(p) => Some(At(s, t, Relocking(p)).(owner := None))
    case Relocking(p) => Locked(s, t, p)
    case Leaving(p, a) => Some(At(s, t, Unlocking(p, a)).(unbound := Decremented(s.unbound)))
    case Unlocking(p, a) => Some(At(s, t, Returned(p, a)).(owner := None))
    case Registering =>
      Some(At(s, t, Parked).(waiting := Incremented(s.waiting), ledger := g.(registered := g.registered + 1)))
    case Parked =>
      if s.permits > 0
      then Some(At(s, t, Entering(false)).(permits := s.permits - 1, ledger := g.(released := g.released + 1)))
      else None
    case Dequeuing =>
      if s.waiting > 0
      then Some(At(s, t, Posting).(waiting := s.waiting - 1))
      else Some(At(s, t, Away).(ledger := g.(unneeded := g.unneeded + 1)))
    case Posting => Some(At(s, t, Away).(permits := s.permits + 1))
  }

  /** The secure world answers thread t. */
  function Replied(s: State, t: nat, a: Answer): Option<State>
    requires t < |s.threads|
  {
    match s.threads[t]
    case Calling(p) =>
      var n := At(s, t, Answered(p, a));
      Some(if !p && a == Complete then n.(ledger := s.ledger.(completed := s.ledger.completed + 1)) else n)
    case _ => None
  }

  function Next(s: State, m: Move): Option<State>
  {
    if m.t >= |s.threads| then None
    else
      match m
      case Begin(t, plain) => if s.threads[t].Away? then Some(At(s, t, Entering(plain))) else None
      case Step(t) => ThreadStep(s, t)
      case Reply(t, a) => Replied(s, t, a)
      case Interrupt(t) => if s.threads[t].Parked? then Some(s) else None
  }

  function Run(s: State, ms: seq<Move>): Option<State>
    decreases |ms|
  {
    if ms == [] then Some(s)
    else match Next(s, ms[0]) case None => None case Some(n) => Run(n, ms[1..])
  }

  function Start(n: nat): State { State(0, None, 0, 0, seq(n, _ => Away), Ledger(0, 0, 0, 0)) }

  ghost predicate Reachable(s: State)
  {
    exists n: nat, ms: seq<Move> :: n <= INT_MAX && Run(Start(n), ms) == Some(s)
  }
}
