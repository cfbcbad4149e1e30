/** The rendezvous by key of tee_wait_queue.c: whichever of a sleep and its wakeup comes first
    makes the entry, the sleep takes it away. */
module WaitQueue {

  /** An entry of the list: its address, its key, and how often it was completed. */
  datatype Entry = Entry(id: nat, key: nat, done: nat)

  /** The calls of one round of a key, each with the entry that it holds. */
  datatype Sleeper = NotAsleep | Waiting(w: nat) | Removing(w: nat) | Slept
  datatype Waker = NotCalled | Completing(w: nat) | Woken

  datatype Round = Round(sleeper: Sleeper, waker: Waker)

  /** next is the next address to be allocated; rounds are those that are open, by key. */
  datatype State = State(db: seq<Entry>, next: nat, rounds: map<nat, Round>)

  /** memory says whether kmalloc succeeds if it is asked. */
  datatype Move =
    | Open(key: nat)
    | SleepGet(key: nat, memory: bool) | SleepWait(key: nat) | SleepRemove(key: nat)
    | WakeGet(key: nat, memory: bool) | WakeComplete(key: nat)
    | Close(key: nat)

  /** A step happens, cannot happen now, or touches an entry that is no longer there. */
  datatype Outcome = Stepped(state: State) | Blocked | Fault

  /** The first entry with the key, |db| if there is none. */
  function ByKey(db: seq<Entry>, key: nat): (i: nat)
    ensures i <= |db| && (i < |db| ==> db[i].key == key) && forall j :: 0 <= j < i ==> db[j].key != key
  {
    if db == [] || db[0].key == key then 0 else 1 + ByKey(db[1..], key)
  }

  /** Where the entry at an address is linked, |db| if it is not. */
  function ById(db: seq<Entry>, id: nat): (i: nat)
    ensures i <= |db| && (i < |db| ==> db[i].id == id) && forall j :: 0 <= j < i ==> db[j].id != id
  {
    if db == [] || db[0].id == id then 0 else 1 + ById(db[1..], id)
  }

  /** tee_wait_queue_get, under the mutex: the entry found or made, none without memory. */
  function Get(s: State, key: nat, memory: bool): (State, int)
  {
    var i := ByKey(s.db, key);
    var none: int := -1;
    if i < |s.db| then (s, s.db[i].id as int)
    else if !memory then (s, none)
    else (s.(db := s.db + [Entry(s.next, key, 0)], next := s.next + 1), s.next)
  }

  function With(s: State, key: nat, r: Round): State { s.(rounds := s.rounds[key := r]) }

  function Step(s: State, m: Move): Outcome
  {
    var k := m.key;
    if m.Open? then
      if k in s.rounds then Blocked else Stepped(With(s, k, Round(NotAsleep, NotCalled)))
    else if k !in s.rounds then Blocked
    else
      var r := s.rounds[k];
      match m
      case SleepGet(_, memory) =>
        if r.sleeper != NotAsleep then Blocked
        else
          var (n, w) := Get(s, k, memory);
          Stepped(With(n, k, r.(sleeper := if w < 0 then Slept else Waiting(w))))
      case SleepWait(_) =>
        if !r.sleeper.Waiting? then Blocked
        else
          var i := ById(s.db, r.sleeper.w);
          if i == |s.db| then Fault
          else if s.db[i].done == 0 then Blocked
          else
            Stepped(With(s.(db := s.db[i := s.db[i].(done := s.db[i].done - 1)]), k,
                         r.(sleeper := Removing(r.sleeper.w))))
      case SleepRemove(_) =>
        if !r.sleeper.Removing? then Blocked
        else
          var i := ById(s.db, r.sleeper.w);
          if i == |s.db| then Fault
          else Stepped(With(s.(db := s.db[..i] + s.db[i + 1..]), k, r.(sleeper := Slept)))
      case WakeGet(_, memory) =>
        if r.waker != NotCalled then Blocked
        else
          var (n, w) := Get(s, k, memory);
          Stepped(With(n, k, r.(waker := if w < 0 then Woken else Completing(w))))
      case WakeComplete(_) =>
        if !r.waker.Completing? then Blocked
        else
          var i := ById(s.db, r.waker.w);
          if i == |s.db| then Fault
          else Stepped(With(s.(db := s.db[i := s.db[i].(done := s.db[i].done + 1)]), k, r.(waker := Woken)))
      case Close(_) =>
        if r == Round(Slept, Woken) then Stepped(s.(rounds := s.rounds - {k})) else Blocked
  }

  // ---------------------------------------------------------------- what every step keeps

  /** Whether the round has an entry, at which address and how often completed. */
  ghost predicate Owns(r: Round, e: Entry)
  {
    match r
    case Round(Waiting(w), NotCalled) => e.id == w && e.done == 0
    case Round(NotAsleep, Completing(w)) => e.id == w && e.done == 0
    case Round(Waiting(w), Completing(v)) => e.id == w && w == v && e.done == 0
    case Round(NotAsleep, Woken) => e.done == 1
    case Round(Waiting(w), Woken) => e.id == w && e.done == 1
    case Round(Removing(w), Woken) => e.id == w && e.done == 0
    case _ => false
  }

  predicate Bare(r: Round) { r == Round(NotAsleep, NotCalled) || r == Round(Slept, Woken) }

  /** The entry at i is the only one with its key and at its address, and belongs to an open round
      in the state it is in. */
  ghost predicate EntryOk(s: State, i: nat)
    requires i < |s.db|
  {
    var e := s.db[i];
    && ByKey(s.db, e.key) == i && ById(s.db, e.id) == i && e.id < s.next
    && e.key in s.rounds && Owns(s.rounds[e.key], e)
  }

  ghost predicate RoundOk(s: State, k: nat)
    requires k in s.rounds
  {
    Bare(s.rounds[k]) || ByKey(s.db, k) < |s.db|
  }

  /** One entry at most for a key, and one for each round that needs one. */
  ghost predicate Inv(s: State)
  {
    && (forall i {:trigger EntryOk(s, i)} :: 0 <= i < |s.db| ==> EntryOk(s, i))
    && (forall k {:trigger RoundOk(s, k)} :: k in s.rounds ==> RoundOk(s, k))
  }

  lemma Present(db: seq<Entry>, k: nat, i: nat)
    requires i < |db| && db[i].key == k
    ensures ByKey(db, k) < |db|
  {
  }

  lemma StillPresent(s: State, t: State, k: nat, i: nat)
    requires k in s.rounds && k in t.rounds && t.rounds[k] == s.rounds[k] && RoundOk(s, k)
    requires ByKey(s.db, k) < |s.db| ==> i < |t.db| && t.db[i].key == k
    ensures RoundOk(t, k)
  {
    if ByKey(s.db, k) < |s.db| { Present(t.db, k, i); }
  }

  lemma NewAddress(s: State)
    requires Inv(s)
    ensures ById(s.db, s.next) == |s.db|
  {
    var i := ById(s.db, s.next);
    assert i < |s.db| ==> EntryOk(s, i);
  }

  /** The get of a key finds the entry of its round, or makes it when the round has none. */
  lemma FoundKeeps(s: State, k: nat, i: nat, n: Round)
    requires Inv(s) && i < |s.db| && s.db[i].key == k && Owns(n, s.db[i])
    ensures Inv(With(s, k, n))
  {
    var t := With(s, k, n);
    assert EntryOk(s, i);
    forall j | 0 <= j < |t.db| ensures EntryOk(t, j) { assert EntryOk(s, j); }
    forall j | j in t.rounds ensures RoundOk(t, j) { if j != k { assert RoundOk(s, j); } }
  }

  lemma MadeKeeps(s: State, k: nat, n: Round)
    requires Inv(s) && k in s.rounds && ByKey(s.db, k) == |s.db| && Owns(n, Entry(s.next, k, 0))
    ensures Inv(With(s.(db := s.db + [Entry(s.next, k, 0)], next := s.next + 1), k, n))
  {
    var t := With(s.(db := s.db + [Entry(s.next, k, 0)], next := s.next + 1), k, n);
    NewAddress(s);
    forall j | 0 <= j < |t.db| ensures EntryOk(t, j) {
      if j < |s.db| { assert EntryOk(s, j); }
    }
    forall j | j in t.rounds ensures RoundOk(t, j) {
      if j == k { Present(t.db, k, |s.db|); } else { assert RoundOk(s, j); StillPresent(s, t, j, ByKey(s.db, j)); }
    }
  }

  /** The entry of a round is completed, or its completion is taken. */
  lemma CountKeeps(s: State, k: nat, i: nat, d: nat, n: Round)
    requires Inv(s) && i < |s.db| && s.db[i].key == k && Owns(n, s.db[i].(done := d))
    ensures Inv(With(s.(db := s.db[i := s.db[i].(done := d)]), k, n))
  {
    var t := With(s.(db := s.db[i := s.db[i].(done := d)]), k, n);
    assert EntryOk(s, i);
    forall j | 0 <= j < |t.db| ensures EntryOk(t, j) { assert EntryOk(s, j); }
    forall j | j in t.rounds ensures RoundOk(t, j) {
      if j == k { Present(t.db, k, i); } else { assert RoundOk(s, j); StillPresent(s, t, j, ByKey(s.db, j)); }
    }
  }

  lemma RemoveKeeps(s: State, k: nat, i: nat)
    requires Inv(s) && i < |s.db| && s.db[i].key == k
    ensures Inv(With(s.(db := s.db[..i] + s.db[i + 1..]), k, Round(Slept, Woken)))
  {
    var t := With(s.(db := s.db[..i] + s.db[i + 1..]), k, Round(Slept, Woken));
    assert EntryOk(s, i);
    forall j | 0 <= j < |t.db| ensures EntryOk(t, j) {
      var x := if j < i then j else j + 1;
      assert EntryOk(s, x) && t.db[j] == s.db[x];
    }
    forall j | j in t.rounds ensures RoundOk(t, j) {
      if j != k {
        assert RoundOk(s, j);
        var x := ByKey(s.db, j);
        StillPresent(s, t, j, if x < i then x else x - 1);
      }
    }
  }

  /** A get has memory, or finds an entry and asks for none. */
  predicate Guarded(s: State, m: Move)
  {
    match m
    case SleepGet(k, memory) => memory || ByKey(s.db, k) < |s.db|
    case WakeGet(k, memory) => memory || ByKey(s.db, k) < |s.db|
    case _ => true
  }

  /** The entry that a call of an open round holds is linked, under the key of the round. */
  lemma Held(s: State, k: nat)
    requires Inv(s) && k in s.rounds && !Bare(s.rounds[k])
    ensures var i := ByKey(s.db, k); i < |s.db| && Owns(s.rounds[k], s.db[i]) && ById(s.db, s.db[i].id) == i
  {
    assert RoundOk(s, k);
    assert EntryOk(s, ByKey(s.db, k));
  }

  lemma OpenKeeps(s: State, k: nat)
    requires Inv(s) && k !in s.rounds
    ensures Inv(With(s, k, Round(NotAsleep, NotCalled)))
  {
    var t := With(s, k, Round(NotAsleep, NotCalled));
    forall i | 0 <= i < |t.db| ensures EntryOk(t, i) { assert EntryOk(s, i); }
    forall j | j in t.rounds ensures RoundOk(t, j) { if j != k { assert RoundOk(s, j); } }
  }

  lemma CloseKeeps(s: State, k: nat)
    requires Inv(s) && k in s.rounds && s.rounds[k] == Round(Slept, Woken)
    ensures Inv(s.(rounds := s.rounds - {k}))
  {
    var t := s.(rounds := s.rounds - {k});
    forall i | 0 <= i < |t.db| ensures EntryOk(t, i) { assert EntryOk(s, i); }
    forall j | j in t.rounds ensures RoundOk(t, j) { assert RoundOk(s, j); }
  }

  /** A step is safe: it finds what it touches, and keeps the list in order. */
  ghost predicate Safe(o: Outcome) { o != Fault && (o.Stepped? ==> Inv(o.state)) }

  /** A get in a round finds the entry of the other call, or none and makes it. */
  lemma GetKeeps(s: State, k: nat, n: Round, w: int)
    requires Inv(s) && k in s.rounds && w == Get(s, k, true).1
    requires || (s.rounds[k].sleeper == NotAsleep && n == s.rounds[k].(sleeper := Waiting(w)))
             || (s.rounds[k].waker == NotCalled && n == s.rounds[k].(waker := Completing(w)))
    ensures Inv(With(Get(s, k, true).0, k, n))
  {
    var i := ByKey(s.db, k);
    assert RoundOk(s, k);
    if i < |s.db| {
      assert EntryOk(s, i);
      FoundKeeps(s, k, i, n);
    } else {
      MadeKeeps(s, k, n);
    }
  }

  lemma SleepGetSafe(s: State, k: nat)
    requires Inv(s)
    ensures Safe(Step(s, SleepGet(k, true)))
  {
    if k in s.rounds && s.rounds[k].sleeper == NotAsleep {
      var w := Get(s, k, true).1;
      GetKeeps(s, k, s.rounds[k].(sleeper := Waiting(w)), w);
    }
  }

  lemma WakeGetSafe(s: State, k: nat)
    requires Inv(s)
    ensures Safe(Step(s, WakeGet(k, true)))
  {
    if k in s.rounds && s.rounds[k].waker == NotCalled {
      var w := Get(s, k, true).1;
      GetKeeps(s, k, s.rounds[k].(waker := Completing(w)), w);
    }
  }

  lemma SleepWaitSafe(s: State, k: nat)
    requires Inv(s)
    ensures Safe(Step(s, SleepWait(k)))
  {
    if k in s.rounds && s.rounds[k].sleeper.Waiting? {
      Held(s, k);
      var i := ByKey(s.db, k);
      if s.db[i].done > 0 { CountKeeps(s, k, i, 0, s.rounds[k].(sleeper := Removing(s.rounds[k].sleeper.w))); }
    }
  }

  lemma SleepRemoveSafe(s: State, k: nat)
    requires Inv(s)
    ensures Safe(Step(s, SleepRemove(k)))
  {
    if k in s.rounds && s.rounds[k].sleeper.Removing? {
      Held(s, k);
      RemoveKeeps(s, k, ByKey(s.db, k));
    }
  }

  lemma WakeCompleteSafe(s: State, k: nat)
    requires Inv(s)
    ensures Safe(Step(s, WakeComplete(k)))
  {
    if k in s.rounds && s.rounds[k].waker.Completing? {
      Held(s, k);
      CountKeeps(s, k, ByKey(s.db, k), 1, s.rounds[k].(waker := Woken));
    }
  }

  /** No guarded step touches an entry that is gone, and all keep the list in order. */
  lemma StepKeeps(s: State, m: Move)
    requires Inv(s) && Guarded(s, m)
    ensures Safe(Step(s, m))
  {
    match m
    case Open(k) => if k !in s.rounds { OpenKeeps(s, k); }
    case SleepGet(k, memory) => SleepGetSafe(s, k); assert Step(s, m) == Step(s, SleepGet(k, true));
    case WakeGet(k, memory) => WakeGetSafe(s, k); assert Step(s, m) == Step(s, WakeGet(k, true));
    case SleepWait(k) => SleepWaitSafe(s, k);
    case WakeComplete(k) => WakeCompleteSafe(s, k);
    case SleepRemove(k) => SleepRemoveSafe(s, k);
    case Close(k) => if k in s.rounds && s.rounds[k] == Round(Slept, Woken) { CloseKeeps(s, k); }
  }

  /** A get that has to make an entry without memory leaves a round that needs one without. */
  lemma UnguardedBreaks(s: State, m: Move)
    requires Inv(s) && !Guarded(s, m)
    ensures Step(s, m) != Fault && (Step(s, m).Stepped? ==> !Inv(Step(s, m).state))
  {
    var k := m.key;
    if Step(s, m).Stepped? {
      assert RoundOk(s, k);
      assert !RoundOk(Step(s, m).state, k);
    }
  }

  /** A step that happens keeps every round with its entry if and only if it is not a get that has to
      make its entry and has no memory for it. */
  lemma StepKeepsIff(s: State, m: Move)
    requires Inv(s)
    ensures Step(s, m) != Fault
    ensures Step(s, m).Stepped? ==>
      (Inv(Step(s, m).state) <==> ((m.SleepGet? || m.WakeGet?) ==> m.memory || ByKey(s.db, m.key) < |s.db|))
  {
    if Guarded(s, m) { StepKeeps(s, m); } else { UnguardedBreaks(s, m); }
  }

  // ---------------------------------------------------------------- runs

  /** The steps that happen, in order; None once one of them cannot or goes wrong. */
  datatype Option<T> = None | Some(value: T)

  function Run(s: State, ms: seq<Move>): Option<State>
    decreases |ms|
  {
    if ms == [] then Some(s)
    else match Step(s, ms[0]) case Stepped(n) => Run(n, ms[1..]) case _ => None
  }

  const START: State := State([], 0, map[])

  /** Every step is guarded where it is taken. */
  predicate AllGuarded(s: State, ms: seq<Move>)
    decreases |ms|
  {
    ms == [] || (Guarded(s, ms[0]) && (Step(s, ms[0]).Stepped? ==> AllGuarded(Step(s, ms[0]).state, ms[1..])))
  }

  /** Every round has its entry in every state of the run. */
  ghost predicate AlwaysInv(s: State, ms: seq<Move>)
    decreases |ms|
  {
    Inv(s) && (ms == [] || (Step(s, ms[0]).Stepped? ==> AlwaysInv(Step(s, ms[0]).state, ms[1..])))
  }

  /** A run keeps every round with its entry throughout if and only if no get on it has to make an
      entry without memory. */
  lemma {:induction false} RunKeepsIff(s: State, ms: seq<Move>)
    requires Inv(s) && Run(s, ms).Some?
    ensures AlwaysInv(s, ms) <==> AllGuarded(s, ms)
    ensures AllGuarded(s, ms) ==> Inv(Run(s, ms).value)
    decreases |ms|
  {
    if ms != [] {
      StepKeepsIff(s, ms[0]);
      var n := Step(s, ms[0]).state;
      if Inv(n) { RunKeepsIff(n, ms[1..]); }
    }
  }

  /** In every interleaving of the rounds of any keys in which the first get of each round has
      memory: no step touches an entry that was freed, no key has two entries, and when no round is
      open the list is empty. */
  lemma RendezvousSafe(ms: seq<Move>, s: State, m: Move)
    requires Run(START, ms) == Some(s) && AllGuarded(START, ms)
    ensures Step(s, m) != Fault
    ensures forall i, j :: 0 <= i < j < |s.db| ==> s.db[i].key != s.db[j].key
    ensures s.rounds == map[] ==> s.db == []
  {
    RunKeepsIff(START, ms);
    StepKeepsIff(s, m);
    forall i, j | 0 <= i < j < |s.db| ensures s.db[i].key != s.db[j].key {
      assert EntryOk(s, i) && EntryOk(s, j);
    }
    assert s.db != [] ==> EntryOk(s, 0);
  }

  // ---------------------------------------------------------------- no wakeup is lost

  /** The steps left to the two calls of a round. */
  function StepsLeft(r: Round): nat
  {
    (match r.sleeper case NotAsleep => 3 case Waiting(_) => 2 case Removing(_) => 1 case Slept => 0)
    + (match r.waker case NotCalled => 2 case Completing(_) => 1 case Woken => 0)
  }

  /** A round that is not over can go on, whatever the order of its calls: a completion that comes
      before its sleep is found by it. */
  lemma RoundGoesOn(s: State, k: nat) returns (m: Move)
    requires Inv(s) && k in s.rounds && StepsLeft(s.rounds[k]) > 0
    ensures m.key == k && !Bounds(m, k) && Guarded(s, m) && Step(s, m).Stepped?
  {
    var r := s.rounds[k];
    if !Bare(r) { Held(s, k); }
    if r.waker == NotCalled { m := WakeGet(k, true); }
    else if r.waker.Completing? { m := WakeComplete(k); }
    else if r.sleeper == NotAsleep { m := SleepGet(k, true); }
    else if r.sleeper.Waiting? { m := SleepWait(k); }
    else { m := SleepRemove(k); }
  }

  /** A step of a call takes its round one closer to its end, and no other round anywhere. */
  lemma StepsCount(s: State, m: Move, k: nat)
    requires Inv(s) && Guarded(s, m) && Step(s, m).Stepped? && k in s.rounds && !Bounds(m, k)
    ensures var n := Step(s, m).state;
      k in n.rounds && StepsLeft(n.rounds[k]) + (if m.key == k then 1 else 0) == StepsLeft(s.rounds[k])
  {
  }

  /** The moves that begin and end a round. */
  predicate Bounds(m: Move, k: nat) { m.key == k && (m.Open? || m.Close?) }

  /** The steps of the calls of one key. */
  function Own(ms: seq<Move>, k: nat): nat
  {
    if ms == [] then 0 else (if ms[0].key == k then 1 else 0) + Own(ms[1..], k)
  }

  lemma {:induction false} OwnStepsCount(s: State, ms: seq<Move>, k: nat)
    requires Inv(s) && k in s.rounds && Run(s, ms).Some? && AllGuarded(s, ms)
    requires forall i :: 0 <= i < |ms| ==> !Bounds(ms[i], k)
    ensures var n := Run(s, ms).value;
      Inv(n) && k in n.rounds && StepsLeft(n.rounds[k]) + Own(ms, k) == StepsLeft(s.rounds[k])
    decreases |ms|
  {
    if ms != [] {
      assert !Bounds(ms[0], k);
      StepsCount(s, ms[0], k);
      StepKeepsIff(s, ms[0]);
      forall i | 0 <= i < |ms[1..]| ensures !Bounds(ms[1..][i], k) { assert !Bounds(ms[i + 1], k); }
      OwnStepsCount(Step(s, ms[0]).state, ms[1..], k);
    }
  }

  /** The steps of a round that end it. */
  lemma {:induction false} RoundFinishes(s: State, k: nat) returns (ms: seq<Move>)
    requires Inv(s) && k in s.rounds
    ensures |ms| == StepsLeft(s.rounds[k]) && forall i :: 0 <= i < |ms| ==> ms[i].key == k
    ensures Run(s, ms).Some? && AllGuarded(s, ms)
    ensures k in Run(s, ms).value.rounds && Run(s, ms).value.rounds[k] == Round(Slept, Woken)
    decreases StepsLeft(s.rounds[k])
  {
    if StepsLeft(s.rounds[k]) == 0 {
      ms := [];
    } else {
      var m := RoundGoesOn(s, k);
      StepKeepsIff(s, m);
      StepsCount(s, m, k);
      var rest := RoundFinishes(Step(s, m).state, k);
      ms := [m] + rest;
      assert ms[1..] == rest;
    }
  }

  /** No wakeup is lost: whatever the rounds of any keys have done since, in any interleaving, an
      open round is at its end after as many steps of its own calls as it had left, five at most,
      and those that it still lacks can be taken one after the other. */
  lemma RoundEnds(s: State, ms: seq<Move>, k: nat) returns (more: seq<Move>)
    requires Inv(s) && k in s.rounds && Run(s, ms).Some? && AllGuarded(s, ms)
    requires forall i :: 0 <= i < |ms| ==> !Bounds(ms[i], k)
    ensures Own(ms, k) + |more| == StepsLeft(s.rounds[k]) <= 5
    ensures forall i :: 0 <= i < |more| ==> more[i].key == k
    ensures Run(s, ms + more).Some? && AllGuarded(Run(s, ms).value, more)
    ensures k in Run(s, ms + more).value.rounds && Run(s, ms + more).value.rounds[k] == Round(Slept, Woken)
  {
    OwnStepsCount(s, ms, k);
    more := RoundFinishes(Run(s, ms).value, k);
    RunAppend(s, ms, more);
  }

  /** A sleep comes back only after its wakeup, in every run in which no get has to make its entry
      without memory. */
  lemma SleepWaitsForWake(ms: seq<Move>, s: State, k: nat)
    requires Run(START, ms) == Some(s) && AllGuarded(START, ms) && k in s.rounds
    ensures s.rounds[k].sleeper.Removing? || s.rounds[k].sleeper == Slept ==> s.rounds[k].waker == Woken
  {
    RunKeepsIff(START, ms);
    if !Bare(s.rounds[k]) { Held(s, k); }
  }

  // ---------------------------------------------------------------- without memory

  lemma RunCons(s: State, ms: seq<Move>, n: State)
    requires ms != [] && Step(s, ms[0]) == Stepped(n)
    ensures Run(s, ms) == Run(n, ms[1..])
  {
  }

  lemma {:induction false} RunAppend(s: State, ms: seq<Move>, more: seq<Move>)
    requires Run(s, ms).Some?
    ensures Run(s, ms + more) == Run(Run(s, ms).value, more)
    decreases |ms|
  {
    if ms == [] {
      assert ms + more == more;
    } else {
      assert (ms + more)[0] == ms[0] && (ms + more)[1..] == ms[1..] + more;
      RunAppend(Step(s, ms[0]).state, ms[1..], more);
    }
  }

  /** Before its round is opened a key has no entry. */
  lemma NoEntry(s: State, k: nat)
    requires Inv(s) && k !in s.rounds
    ensures ByKey(s.db, k) == |s.db|
  {
    var i := ByKey(s.db, k);
    assert i < |s.db| ==> EntryOk(s, i);
  }

  lemma Appended(s: State, k: nat)
    requires Inv(s) && k !in s.rounds
    ensures ByKey(s.db + [Entry(s.next, k, 0)], k) == |s.db| == ById(s.db + [Entry(s.next, k, 0)], s.next)
  {
    NoEntry(s, k);
    NewAddress(s);
    var db := s.db + [Entry(s.next, k, 0)];
    assert forall i :: 0 <= i < |s.db| ==> db[i] == s.db[i];
    assert db[|s.db|] == Entry(s.next, k, 0);
  }

  /** The states of a round whose sleep comes first and gets no memory. */
  function SleptAtOnce(s: State, k: nat): State { With(s, k, Round(Slept, NotCalled)) }

  function WakesStale(s: State, k: nat): State
  {
    With(s.(db := s.db + [Entry(s.next, k, 0)], next := s.next + 1), k, Round(Slept, Completing(s.next)))
  }

  function LeftStale(s: State, k: nat): State
  {
    With(s.(db := s.db + [Entry(s.next, k, 1)], next := s.next + 1), k, Round(Slept, Woken))
  }

  lemma SleepsAtOnce(s: State, k: nat)
    requires Inv(s) && k !in s.rounds
    ensures Run(s, [Open(k), SleepGet(k, false)]) == Some(SleptAtOnce(s, k))
  {
    NoEntry(s, k);
    var s1 := With(s, k, Round(NotAsleep, NotCalled));
    RunCons(s, [Open(k), SleepGet(k, false)], s1);
    RunCons(s1, [SleepGet(k, false)], SleptAtOnce(s, k));
  }

  lemma WakesToNobody(s: State, k: nat)
    requires Inv(s) && k !in s.rounds
    ensures Run(SleptAtOnce(s, k), [WakeGet(k, true), WakeComplete(k), Close(k)])
            == Some(s.(db := s.db + [Entry(s.next, k, 1)], next := s.next + 1))
  {
    StaleGet(s, k);
    RunCons(SleptAtOnce(s, k), [WakeGet(k, true), WakeComplete(k), Close(k)], WakesStale(s, k));
    StaleComplete(s, k);
    RunCons(WakesStale(s, k), [WakeComplete(k), Close(k)], LeftStale(s, k));
    var last := LeftStale(s, k);
    assert last.rounds - {k} == s.rounds;
    RunCons(last, [Close(k)], last.(rounds := last.rounds - {k}));
  }

  lemma StaleGet(s: State, k: nat)
    requires Inv(s) && k !in s.rounds
    ensures Step(SleptAtOnce(s, k), WakeGet(k, true)) == Stepped(WakesStale(s, k))
  {
    NoEntry(s, k);
  }

  lemma StaleComplete(s: State, k: nat)
    requires Inv(s) && k !in s.rounds
    ensures Step(WakesStale(s, k), WakeComplete(k)) == Stepped(LeftStale(s, k))
  {
    Appended(s, k);
    var e, was := Entry(s.next, k, 1), s.db + [Entry(s.next, k, 0)];
    assert was[|s.db| := e] == s.db + [e];
  }

  /** If the first call of a round is the sleep and it gets no memory, it returns at once, and the
      wakeup leaves its entry behind, completed ... */
  lemma SleepWithoutMemory(s: State, k: nat)
    requires Inv(s) && k !in s.rounds
    ensures Run(s, [Open(k), SleepGet(k, false)] + [WakeGet(k, true), WakeComplete(k), Close(k)])
            == Some(s.(db := s.db + [Entry(s.next, k, 1)], next := s.next + 1))
  {
    SleepsAtOnce(s, k);
    WakesToNobody(s, k);
    RunAppend(s, [Open(k), SleepGet(k, false)], [WakeGet(k, true), WakeComplete(k), Close(k)]);
  }

  /** ... and if it is the wakeup, the sleep never ends: no step of its round is possible. */
  lemma WakeWithoutMemory(s: State, k: nat)
    requires Inv(s) && k !in s.rounds
    ensures var r := Run(s, [Open(k), WakeGet(k, false), SleepGet(k, true)]);
      r.Some? && k in r.value.rounds && r.value.rounds[k].sleeper.Waiting?
      && forall m: Move :: m.key == k ==> Step(r.value, m) == Blocked
  {
    NoEntry(s, k);
    Appended(s, k);
    var s1 := With(s, k, Round(NotAsleep, NotCalled));
    var s2 := With(s1, k, Round(NotAsleep, Woken));
    var s3 := With(s2.(db := s.db + [Entry(s.next, k, 0)], next := s.next + 1), k, Round(Waiting(s.next), Woken));
    RunCons(s, [Open(k), WakeGet(k, false), SleepGet(k, true)], s1);
    RunCons(s1, [WakeGet(k, false), SleepGet(k, true)], s2);
    RunCons(s2, [SleepGet(k, true)], s3);
  }
}
