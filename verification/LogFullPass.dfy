/** A pass of logd that fetches as many bytes as the ring holds, and any reads at the same time. */
module LogFullPass {

  import opened Alignment
  import opened LogRace

  /** Whatever the reader has taken before, the pass leaves the tail where it is. */
  ghost predicate Steady(h: nat, t: nat)
  {
    forall u: nat {:trigger NewTail(h, u, N)} :: t <= u <= h ==> NewTail(h, u, N) == u
  }

  /** The unread bytes do not go round the end of the ring; or it is full and its tail on the last byte. */
  predicate Level(h: nat, t: nat) { t % N <= h % N || (t % N == N - 1 && h % N == N - 2) }

  lemma {:induction false} LapGrows(x: nat, y: nat)
    requires x <= y
    ensures Lap(x) <= Lap(y)
  {
    if x >= N { LapGrows(x - N, y - N); }
  }

  lemma LevelIsSteady(h: nat, t: nat)
    requires t <= h < t + N && Level(h, t)
    ensures Steady(h, t)
  {
    IndicesAgree(h, t, N);
    Residue(h, t);
    LapGrows(h, t + N);
    assert Lap(t + N) == 1 + Lap(t);
    forall u: nat | t <= u <= h ensures NewTail(h, u, N) == u {
      LapGrows(t, u);
      LapGrows(u, h);
      if t % N > h % N && u > t { NextIsNextLap(t, u); }
    }
  }

  /** Behind the last byte of a lap comes the next. */
  lemma NextIsNextLap(t: nat, u: nat)
    requires t % N == N - 1 && t < u
    ensures Lap(u) > Lap(t)
  {
    LapIsQuotient(t);
    LapIsQuotient(t + 1);
    Euclid(t + 1, N, t / N + 1, 0);
    LapGrows(t + 1, u);
  }

  // ---------------------------------------------------------------- a pass that leaves the tail

  predicate LogdKnowsFull(w: World, h: nat, t: nat, left: nat)
  {
    match w.logd
    case Waiting => true
    case Loaded(hh, u, c) => hh == h && t <= u <= h && c == N
    case Copied(hh, u, c) => hh == h && t <= u <= h && c == N
    case TailStored(hh, c) => hh == h && c == N
  }

  predicate ReaderKnowsFull(w: World, left: nat)
  {
    match w.reader
    case Ready => true
    case HeadRead(h) => h == w.head
    case BothRead(h, t) => h == w.head && t == w.tail && t < h
    case Held(t, len, written) =>
      && (t == w.tail || (left < 3 && t + N == w.tail))
      && w.tail + len <= w.head && t + len <= written <= t + N
  }

  ghost predicate FullPass(w: World, h: nat, t: nat, left: nat)
  {
    && Stands(w, left) && LogdKnowsFull(w, h, t, left) && ReaderKnowsFull(w, left)
    && w.head == w.written == (if left >= 3 then h else h + N)
    && w.head - (h - t) <= w.tail <= w.head
    && Fine(w)
  }

  lemma FullLogdStep(w: World, h: nat, t: nat, left: nat)
    requires FullPass(w, h, t, left) && left > 0 && t <= h < t + N && Steady(h, t)
    ensures FullPass(LogdStep(w, N), h, t, left - 1)
  {
    if w.logd.Copied? { assert NewTail(h, w.logd.t, N) == w.logd.t; }
  }

  lemma FullReaderStep(w: World, h: nat, t: nat, left: nat, want: nat, room: nat)
    requires FullPass(w, h, t, left) && t <= h < t + N
    ensures FullPass(ReaderStep(w, want, room), h, t, left)
  {
  }

  lemma {:induction false} FullRuns(w: World, h: nat, t: nat, left: nat, ms: seq<Move>)
    requires FullPass(w, h, t, left) && t <= h < t + N && Steady(h, t)
    requires LogdSteps(ms) <= left && forall m <- ms :: m.LogdMoves? ==> m.count == N
    ensures Fine(Run(w, ms))
    decreases |ms|
  {
    if ms != [] {
      var m := ms[0];
      assert m in ms;
      if m.LogdMoves? { FullLogdStep(w, h, t, left); } else { FullReaderStep(w, h, t, left, m.want, m.room); }
      FullRuns(Step(w, m), h, t, if m.LogdMoves? then left - 1 else left, ms[1..]);
    }
  }

  // ---------------------------------------------------------------- a pass that moves it

  /** A byte read when logd has copied its bytes and not yet stored the tail is of the new lap, and
      older ones come after it. */
  lemma BetweenGoesWrong(w: World)
    requires w.logd.Waiting? && w.reader.Ready? && w.tail < w.head == w.written < w.tail + N
    requires NewTail(w.head, w.tail, N) != w.tail
    ensures !Fine(Run(w, Overtaken(N, 1)))
  {
    OvertakenRuns(w, N, 1);
  }

  lemma AtOnceGoesWrong(h: nat, t: nat)
    requires t <= h < t + N && !Level(h, t) && h + 1 != t + N
    ensures !Fine(Run(Start(h, t), Overtaken(N, 1)))
  {
    IndicesAgree(h, t, N);
    BetweenGoesWrong(Start(h, t));
  }

  lemma LaterGoesWrong(h: nat, t: nat)
    requires t <= h < t + N && !Level(h, t) && h + 1 == t + N
    ensures !Fine(Run(Start(h, t), ReadSome(1, Overtaken(N, 1))))
  {
    SameLap(h, t);
    ReadSomeRuns(Start(h, t), 1, Overtaken(N, 1));
    BetweenGoesWrong(SomeRead(Start(h, t), 1));
  }

  lemma UnlevelGoesWrong(h: nat, t: nat) returns (ms: seq<Move>)
    requires t <= h < t + N && !Level(h, t)
    ensures OnePass(ms, N) && !Fine(Run(Start(h, t), ms))
  {
    OvertakenCounts(N, 1);
    ReadSomeCounts(1, Overtaken(N, 1), N);
    if h + 1 != t + N {
      ms := Overtaken(N, 1);
      AtOnceGoesWrong(h, t);
    } else {
      ms := ReadSome(1, Overtaken(N, 1));
      LaterGoesWrong(h, t);
    }
  }

  lemma SameLap(h: nat, t: nat)
    requires h + 1 == t + N && !Level(h, t)
    ensures Lap(t + 1) == Lap(t) < Lap(h)
  {
    IndicesAgree(h, t, N);
    Residue(h, t);
    LapIsQuotient(t);
    LapIsQuotient(t + 1);
    Euclid(t + 1, N, t / N, t % N + 1);
  }

  /** One pass of the size of the ring and any reads: whatever their interleaving the user gets the
      right bytes once, if and only if the unread ones do not go round the end of the ring, or fill
      it from its last byte on. */
  lemma FullPassIff(h: nat, t: nat)
    requires t <= h < t + N
    ensures (forall ms :: OnePass(ms, N) ==> Fine(Run(Start(h, t), ms))) <==> Level(h, t)
  {
    if Level(h, t) {
      LevelIsSteady(h, t);
      forall ms | OnePass(ms, N) ensures Fine(Run(Start(h, t), ms)) { FullRuns(Start(h, t), h, t, 4, ms); }
    } else {
      var ms := UnlevelGoesWrong(h, t);
    }
  }

  /** One pass of any size and any reads. */
  lemma AnyPassIff(h: nat, t: nat, count: nat)
    requires t <= h < t + N && 0 < count <= N
    ensures (forall ms :: OnePass(ms, count) ==> Fine(Run(Start(h, t), ms)))
       <==> if count < N then h + count < t + N || h - t <= 1 else Level(h, t)
  {
    if count < N { OnePassIff(h, t, count); } else { FullPassIff(h, t); }
  }
}
