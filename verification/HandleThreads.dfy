/** The handle table under several threads: each step is one access to it. */
module HandleThreads {

  import opened HandleTable

  // handle_get and handle_put take no lock, and RPCs of several threads are served at once.

  /** Where a thread stands in handle_rpc: in the scan, krealloc, the installation of what krealloc
      gave, and the store of handle_get; in the read and the store of handle_put. */
  datatype Call =
    | Idle
    | Scanning(p: Ptr, n: nat) | Growing(p: Ptr, n: nat)
    | Installing(p: Ptr, n: nat, copy: seq<Ptr>) | Storing(p: Ptr, n: nat)
    | Taking(cookie: int) | Clearing(h: nat, p: Ptr)

  /** The table with the buffers that have been given out, whether the block behind it was handed
      back by a krealloc that is still to be installed, and the threads. */
  datatype World = World(now: State, freed: bool, calls: seq<Call>)

  datatype Move = Begin(t: nat, r: Request) | Step(t: nat, memory: bool)

  /** A move happens, is not possible, or touches a block of the table that was handed back or frees a
      buffer that is not owned any more. */
  datatype Outcome = Moved(world: World) | Blocked | Fault

  function At(w: World, t: nat, c: Call): World
    requires t < |w.calls|
  {
    w.(calls := w.calls[t := c])
  }

  function Access(w: World, t: nat, memory: bool): Outcome
    requires t < |w.calls|
  {
    var table := w.now.table;
    match w.calls[t]
    case Idle => Blocked
    case Scanning(p, n) =>
      if n >= |table| then Moved(At(w, t, Growing(p, n)))
      else if w.freed then Fault
      else Moved(At(w, t, if table[n] == 0 then Storing(p, n) else Scanning(p, n + 1)))
    case Growing(p, n) =>
      if w.freed then Fault
      else if !memory then Moved(At(w, t, Idle))
      else Moved(At(w, t, Installing(p, n, table + Zeros(Grown(|table|) - |table|))).(freed := table != []))
    case Installing(p, n, copy) => Moved(At(w, t, Storing(p, n)).(now := w.now.(table := copy), freed := false))
    case Storing(p, n) =>
      if w.freed || n >= |table| then Fault
      else Moved(At(w, t, Idle).(now := State(table[n := p], w.now.owned + {p})))
    case Taking(h) =>
      if h < 0 || h >= |table| then Moved(At(w, t, Idle))
      else if w.freed then Fault
      else Moved(At(w, t, Clearing(h, table[h])))
    case Clearing(h, p) =>
      if w.freed || h >= |table| || (p != 0 && p !in w.now.owned) then Fault
      else Moved(At(w, t, Idle).(now := State(table[h := 0], w.now.owned - {p})))
  }

  function Next(w: World, m: Move): Outcome
  {
    if m.t >= |w.calls| then Blocked
    else
      match m
      case Begin(t, r) =>
        if w.calls[t] != Idle then Blocked
        else
          Moved(At(w, t, match r
                         case AllocPayload(p, _) => if p == 0 then Idle else Scanning(p, 0)
                         case FreePayload(cookie) => Taking(cookie)))
      case Step(t, memory) => Access(w, t, memory)
  }

  function Run(w: World, ms: seq<Move>): Outcome
    decreases |ms|
  {
    if ms == [] then Moved(w)
    else match Next(w, ms[0]) case Moved(n) => Run(n, ms[1..]) case o => o
  }

  // ---------------------------------------------------------------- one request at a time

  predicate Quiet(w: World) { forall t :: 0 <= t < |w.calls| ==> w.calls[t] == Idle }

  /** What a caller can see to: a request begins when no other is under way, with a buffer that is
      not given out. */
  predicate Alone(w: World, m: Move) { m.Begin? ==> Quiet(w) && Fresh(w.now, m.r) }

  predicate AllAlone(w: World, ms: seq<Move>)
    decreases |ms|
  {
    ms == [] || (Alone(w, ms[0]) && (Next(w, ms[0]).Moved? ==> AllAlone(Next(w, ms[0]).world, ms[1..])))
  }

  predicate Full(table: seq<Ptr>, n: nat)
    requires n <= |table|
  {
    forall i :: 0 <= i < n ==> table[i] != 0
  }

  /** What the one call under way knows of the table. */
  predicate Knows(s: State, freed: bool, c: Call)
  {
    match c
    case Idle => !freed
    case Scanning(p, n) => !freed && p != 0 && p !in s.owned && n <= |s.table| && Full(s.table, n)
    case Growing(p, n) => !freed && p != 0 && p !in s.owned && n == |s.table| && Full(s.table, n)
    case Installing(p, n, copy) =>
      p != 0 && p !in s.owned && n == |s.table| && Full(s.table, n) && copy == s.table + Zeros(Grown(n) - n)
    case Storing(p, n) => !freed && p != 0 && p !in s.owned && n == FirstFree(s.table) && n < |s.table|
    case Taking(_) => !freed
    case Clearing(h, p) => !freed && h < |s.table| && p == s.table[h]
  }

  /** At most the call t is under way. */
  ghost predicate Serial(w: World, t: nat)
  {
    && t < |w.calls|
    && (forall u :: 0 <= u < |w.calls| && u != t ==> w.calls[u] == Idle)
    && Bijection(w.now)
    && Knows(w.now, w.freed, w.calls[t])
  }

  lemma FirstFreeAt(table: seq<Ptr>, n: nat)
    requires n < |table| && Full(table, n) && table[n] == 0
    ensures FirstFree(table) == n
  {
  }

  lemma ZerosKeepHandles(s: State, k: nat)
    requires Bijection(s)
    ensures Handles(s.table + Zeros(k)) == Handles(s.table) && Bijection(s.(table := s.table + Zeros(k)))
  {
    assert Handles(s.table + Zeros(k)) == Handles(s.table);
  }

  lemma ScanServes(w: World, t: nat, memory: bool)
    requires Serial(w, t) && (w.calls[t].Scanning? || w.calls[t].Growing? || w.calls[t].Taking?)
    ensures Access(w, t, memory).Moved? && Access(w, t, memory).world.now == w.now
      && Serial(Access(w, t, memory).world, t)
  {
    var c := w.calls[t];
    if c.Scanning? && c.n < |w.now.table| && w.now.table[c.n] == 0 { FirstFreeAt(w.now.table, c.n); }
  }

  lemma InstallServes(w: World, t: nat, memory: bool)
    requires Serial(w, t) && w.calls[t].Installing?
    ensures Access(w, t, memory).Moved? && Serial(Access(w, t, memory).world, t)
    ensures var n := Access(w, t, memory).world.now;
      Handles(n.table) == Handles(w.now.table) && n.owned == w.now.owned
  {
    var c := w.calls[t];
    ZerosKeepHandles(w.now, Grown(c.n) - c.n);
    FirstFreeAt(c.copy, c.n);
  }

  lemma StoreServes(w: World, t: nat, memory: bool)
    requires Serial(w, t) && w.calls[t].Storing?
    ensures Access(w, t, memory).Moved? && Serial(Access(w, t, memory).world, t)
    ensures Access(w, t, memory).world.now == Serve(w.now, AllocPayload(w.calls[t].p, memory))
  {
    AllocKeeps(w.now, w.calls[t].p, memory);
  }

  lemma ClearServes(w: World, t: nat, memory: bool)
    requires Serial(w, t) && w.calls[t].Clearing?
    ensures Access(w, t, memory).Moved? && Serial(Access(w, t, memory).world, t)
    ensures Access(w, t, memory).world.now == Serve(w.now, FreePayload(w.calls[t].h))
  {
    var c := w.calls[t];
    TakenIsOwned(w.now, c.h);
    FreeKeeps(w.now, c.h);
  }

  lemma TakenIsOwned(s: State, h: nat)
    requires Bijection(s) && h < |s.table|
    ensures s.table[h] != 0 ==> s.table[h] in s.owned
  {
    assert s.table[h] != 0 ==> h in Handles(s.table);
  }

  /** Each access of the one call under way is to a block that is there. It leaves the handles and
      the owned buffers alone, or does to them all that the request does when served at once. */
  lemma AccessServes(w: World, t: nat, memory: bool)
    requires Serial(w, t) && w.calls[t] != Idle
    ensures Access(w, t, memory).Moved? && Serial(Access(w, t, memory).world, t)
    ensures var c, n := w.calls[t], Access(w, t, memory).world.now;
      if c.Storing? then n == Serve(w.now, AllocPayload(c.p, memory))
      else if c.Clearing? then n == Serve(w.now, FreePayload(c.h))
      else Handles(n.table) == Handles(w.now.table) && n.owned == w.now.owned
  {
    var c := w.calls[t];
    if c.Installing? { InstallServes(w, t, memory); }
    else if c.Storing? { StoreServes(w, t, memory); }
    else if c.Clearing? { ClearServes(w, t, memory); }
    else { ScanServes(w, t, memory); }
  }

  lemma QuietIsSerial(w: World, t: nat)
    requires Quiet(w) && Bijection(w.now) && !w.freed && t < |w.calls|
    ensures Serial(w, t)
  {
  }

  lemma MoveKeepsSerial(w: World, m: Move, t: nat) returns (u: nat)
    requires Serial(w, t) && Alone(w, m)
    ensures Next(w, m) != Fault && (Next(w, m).Moved? ==> Serial(Next(w, m).world, u))
  {
    u := t;
    if m.t < |w.calls| {
      match m
      case Begin(v, r) => u := v;
      case Step(v, memory) => if w.calls[v] != Idle { AccessServes(w, t, memory); }
    }
  }

  lemma {:induction false} RunKeepsSerial(w: World, ms: seq<Move>, t: nat) returns (u: nat)
    requires Serial(w, t) && AllAlone(w, ms)
    ensures Run(w, ms) != Fault && (Run(w, ms).Moved? ==> Serial(Run(w, ms).world, u))
    decreases |ms|
  {
    u := t;
    if ms != [] {
      u := MoveKeepsSerial(w, ms[0], t);
      if Next(w, ms[0]).Moved? { u := RunKeepsSerial(Next(w, ms[0]).world, ms[1..], u); }
    }
  }

  function Start(n: nat): World { World(State([], {}), false, seq(n, _ => Idle)) }

  /** When every request begins alone, no access in any run is to a block that was handed back, no
      buffer is freed twice, and cookies and owned buffers are in bijection at every moment. */
  lemma CookiesNameOwned(n: nat, ms: seq<Move>)
    requires n > 0 && AllAlone(Start(n), ms)
    ensures Run(Start(n), ms) != Fault
    ensures Run(Start(n), ms).Moved? ==> Bijection(Run(Start(n), ms).world.now)
  {
    QuietIsSerial(Start(n), 0);
    var u := RunKeepsSerial(Start(n), ms, 0);
  }
}
