/** Every call into the secure world is carried through: what its moves amount to over a run. */
module SmcCallLaws {

  import opened Totals
  import opened Atomics
  import opened SmcTransfer
  import opened SmcTransferLaws

  function One(b: bool): nat { if b then 1 else 0 }

  // ---------------------------------------------------------------- what happens to a thread

  predicate Stands(s: State, t: nat, c: Thread) { t < |s.threads| && s.threads[t] == c }

  /** The secure world has executed the command of __call_tee: it answers for good, and not that it is
      out of threads. */
  predicate Executes(s: State, m: Move)
  {
    m.Reply? && Stands(s, m.t, Calling(false)) && (m.a == Complete || m.a == Request)
  }

  predicate RunsOut(s: State, m: Move) { m.Reply? && Stands(s, m.t, Calling(false)) && m.a == Limit }

  predicate Completes(s: State, m: Move) { m.Reply? && Stands(s, m.t, Calling(false)) && m.a == Complete }

  /** It has answered one of smc_xfer for good. */
  predicate AnswersPlain(s: State, m: Move)
  {
    m.Reply? && Stands(s, m.t, Calling(true)) && (m.a == Complete || m.a == Request || m.a == Limit)
  }

  predicate IsInterrupted(s: State, m: Move)
  {
    m.Reply? && m.t < |s.threads| && s.threads[m.t].Calling? && m.a == Irq
  }

  /** The thread reads the count of the others, to let one of them in. */
  predicate Considers(s: State, m: Move) { m.Step? && m.t < |s.threads| && s.threads[m.t].Preempting? }

  /** The thread parks, and it looks for a waiter to release. */
  predicate Parks(s: State, m: Move)
    requires Next(s, m).Some?
  {
    m.Step? && m.t < |s.threads| && m.t < |Next(s, m).value.threads|
    && !s.threads[m.t].Parked? && Next(s, m).value.threads[m.t].Parked?
  }

  predicate Dequeues(s: State, m: Move) { m.Step? && Stands(s, m.t, Dequeuing) }

  /** 1 for a call that the secure world has not executed yet. */
  function Unanswered(c: Thread): nat
  {
    match c
    case Entering(p) => One(!p)
    case Locking(p) => One(!p)
    case Calling(p) => One(!p)
    case Preempting(p) => One(!p)
    case Alarmed(p) => One(!p)
    case Yielding(p) => One(!p)
    case Relocking(p) => One(!p)
    case Leaving(p, a) => One(!p && a == Limit)
    case Unlocking(p, a) => One(!p && a == Limit)
    case Registering => 1
    case Parked => 1
    case _ => 0
  }

  function PlainUnanswered(c: Thread): nat
  {
    match c
    case Entering(p) => One(p)
    case Locking(p) => One(p)
    case Calling(p) => One(p)
    case Preempting(p) => One(p)
    case Alarmed(p) => One(p)
    case Yielding(p) => One(p)
    case Relocking(p) => One(p)
    case _ => 0
  }

  /** 1 on the way from the answer to the place in the queue, and to the search for a waiter. */
  function ToPark(c: Thread): nat
  {
    One(c == Leaving(false, Limit) || c == Unlocking(false, Limit) || c == Registering)
  }

  function ToDequeue(c: Thread): nat
  {
    One(c == Leaving(false, Complete) || c == Unlocking(false, Complete) || c == Dequeuing)
  }

  // ---------------------------------------------------------------- the books

  /** What is kept count of, of one thread or of all. */
  datatype Book =
    | Calls(t: nat)
    | PlainCalls(t: nat)
    | Limits(t: nat)
    | Completions(t: nat)
    | Interrupts(t: nat)
    | AllCalls

  /** The move enters something, or strikes it off. */
  predicate Enters(b: Book, s: State, m: Move)
  {
    match b
    case Calls(t) => m == Begin(t, false)
    case PlainCalls(t) => m == Begin(t, true)
    case Limits(t) => m.t == t && RunsOut(s, m)
    case Completions(t) => m.t == t && Completes(s, m)
    case Interrupts(t) => m.t == t && IsInterrupted(s, m)
    case AllCalls => m.Begin? && !m.plain
  }

  predicate Strikes(b: Book, s: State, m: Move)
    requires Next(s, m).Some?
  {
    match b
    case Calls(t) => m.t == t && Executes(s, m)
    case PlainCalls(t) => m.t == t && AnswersPlain(s, m)
    case Limits(t) => m.t == t && Parks(s, m)
    case Completions(t) => m.t == t && Dequeues(s, m)
    case Interrupts(t) => m.t == t && Considers(s, m)
    case AllCalls => Executes(s, m)
  }

  /** What is open. */
  function Open(b: Book, s: State): nat
  {
    match b
    case Calls(t) => if t < |s.threads| then Unanswered(s.threads[t]) else 0
    case PlainCalls(t) => if t < |s.threads| then PlainUnanswered(s.threads[t]) else 0
    case Limits(t) => if t < |s.threads| then ToPark(s.threads[t]) else 0
    case Completions(t) => if t < |s.threads| then ToDequeue(s.threads[t]) else 0
    case Interrupts(t) => if t < |s.threads| then One(s.threads[t].Preempting?) else 0
    case AllCalls => Total(Unanswered, s.threads)
  }

  /** How much a run enters, and strikes off. */
  function Entered(b: Book, s: State, ms: seq<Move>): nat
    requires Run(s, ms).Some?
    decreases |ms|
  {
    if ms == [] then 0 else One(Enters(b, s, ms[0])) + Entered(b, Next(s, ms[0]).value, ms[1..])
  }

  function Struck(b: Book, s: State, ms: seq<Move>): nat
    requires Run(s, ms).Some?
    decreases |ms|
  {
    if ms == [] then 0 else One(Strikes(b, s, ms[0])) + Struck(b, Next(s, ms[0]).value, ms[1..])
  }

  lemma StepsAreLocal(s: State, m: Move)
    requires Next(s, m).Some?
    ensures var n := Next(s, m).value;
      && m.t < |s.threads| == |n.threads| && n.threads == s.threads[m.t := n.threads[m.t]]
  {
  }

  predicate Balances(b: Book, s: State, m: Move)
    requires Next(s, m).Some?
  {
    Open(b, Next(s, m).value) + One(Strikes(b, s, m)) == Open(b, s) + One(Enters(b, s, m))
  }

  lemma CallBalances(t: nat, s: State, m: Move)
    requires Next(s, m).Some?
    ensures Balances(Calls(t), s, m)
  {
    StepsAreLocal(s, m);
  }

  lemma PlainBalances(t: nat, s: State, m: Move)
    requires Next(s, m).Some?
    ensures Balances(PlainCalls(t), s, m)
  {
    StepsAreLocal(s, m);
  }

  lemma LimitBalances(t: nat, s: State, m: Move)
    requires Next(s, m).Some?
    ensures Balances(Limits(t), s, m)
  {
    StepsAreLocal(s, m);
  }

  lemma CompletionBalances(t: nat, s: State, m: Move)
    requires Next(s, m).Some?
    ensures Balances(Completions(t), s, m)
  {
    StepsAreLocal(s, m);
  }

  lemma InterruptBalances(t: nat, s: State, m: Move)
    requires Next(s, m).Some?
    ensures Balances(Interrupts(t), s, m)
  {
    StepsAreLocal(s, m);
  }

  lemma AllBalance(s: State, m: Move)
    requires Next(s, m).Some?
    ensures Balances(AllCalls, s, m)
  {
    StepsAreLocal(s, m);
    CallBalances(m.t, s, m);
    TotalUpdate(Unanswered, s.threads, m.t, Next(s, m).value.threads[m.t]);
  }

  lemma StepBalances(b: Book, s: State, m: Move)
    requires Next(s, m).Some?
    ensures Balances(b, s, m)
  {
    match b
    case Calls(t) => CallBalances(t, s, m);
    case PlainCalls(t) => PlainBalances(t, s, m);
    case Limits(t) => LimitBalances(t, s, m);
    case Completions(t) => CompletionBalances(t, s, m);
    case Interrupts(t) => InterruptBalances(t, s, m);
    case AllCalls => AllBalance(s, m);
  }

  lemma {:induction false} RunBalances(b: Book, s: State, ms: seq<Move>)
    requires Run(s, ms).Some?
    ensures Open(b, Run(s, ms).value) + Struck(b, s, ms) == Open(b, s) + Entered(b, s, ms)
    ensures |Run(s, ms).value.threads| == |s.threads|
    decreases |ms|
  {
    if ms != [] {
      StepsAreLocal(s, ms[0]);
      StepBalances(b, s, ms[0]);
      RunBalances(b, Next(s, ms[0]).value, ms[1..]);
    }
  }

  // ---------------------------------------------------------------- over every run

  /** A call by __call_tee goes back to its caller exactly when the secure world has executed it: in
      every run the calls of a thread are those executed, and the one it is still at, parked or not. */
  lemma {:induction false} CallsAreExecuted(n: nat, ms: seq<Move>, s: State, t: nat)
    requires Run(Start(n), ms) == Some(s) && t < |s.threads|
    ensures var made, done := Entered(Calls(t), Start(n), ms), Struck(Calls(t), Start(n), ms);
      && made == done + Unanswered(s.threads[t])
      && (s.threads[t].Away? ==> made == done) && (s.threads[t].Parked? ==> made == done + 1)
  {
    RunBalances(Calls(t), Start(n), ms);
  }

  /** One by smc_xfer goes back with the first answer for good, whatever it is. */
  lemma {:induction false} PlainCallsReturn(n: nat, ms: seq<Move>, s: State, t: nat)
    requires Run(Start(n), ms) == Some(s) && t < |s.threads|
    ensures var made, done := Entered(PlainCalls(t), Start(n), ms), Struck(PlainCalls(t), Start(n), ms);
      made == done + PlainUnanswered(s.threads[t]) && (s.threads[t].Away? ==> made == done)
  {
    RunBalances(PlainCalls(t), Start(n), ms);
  }

  /** A thread parks once for each answer "out of threads", and looks once for a waiter to release
      for each completion. */
  lemma {:induction false} ParksAndDequeues(n: nat, ms: seq<Move>, s: State, t: nat)
    requires Run(Start(n), ms) == Some(s) && t < |s.threads|
    ensures Entered(Limits(t), Start(n), ms) == Struck(Limits(t), Start(n), ms) + ToPark(s.threads[t])
    ensures Entered(Completions(t), Start(n), ms) == Struck(Completions(t), Start(n), ms) + ToDequeue(s.threads[t])
  {
    RunBalances(Limits(t), Start(n), ms);
    RunBalances(Completions(t), Start(n), ms);
  }

  /** A thread considers giving up the lock once for each interrupt, and for no other answer; whether it
      does PreemptsForSomebody says. */
  lemma {:induction false} ConsidersPerInterrupt(n: nat, ms: seq<Move>, s: State, t: nat)
    requires Run(Start(n), ms) == Some(s) && t < |s.threads|
    ensures Entered(Interrupts(t), Start(n), ms)
      == Struck(Interrupts(t), Start(n), ms) + One(s.threads[t].Preempting?)
  {
    RunBalances(Interrupts(t), Start(n), ms);
  }

  lemma {:induction false} ParkedUnanswered(ts: seq<Thread>)
    requires forall t :: 0 <= t < |ts| ==> ts[t].Away? || ts[t].Parked?
    ensures Total(Unanswered, ts) == Total(IsParked, ts)
  {
    if ts != [] { ParkedUnanswered(ts[1..]); }
  }

  /** When all is quiet the calls made are those executed and those whose threads are still parked. */
  lemma {:induction false} CallsAccountedFor(n: nat, ms: seq<Move>, s: State)
    requires Run(Start(n), ms) == Some(s)
    ensures var made, done := Entered(AllCalls, Start(n), ms), Struck(AllCalls, Start(n), ms);
      && made == done + Total(Unanswered, s.threads)
      && (Quiet(s) ==> made == done + Total(IsParked, s.threads))
  {
    RunBalances(AllCalls, Start(n), ms);
    TotalZero(Unanswered, Start(n).threads);
    if Quiet(s) { ParkedUnanswered(s.threads); }
  }
}
