/** The reader of the log and logd at the same time. */
module LogRace {

  import opened Alignment
  import opened LogRing

  // klog_head and klog_tail are read and written without a lock between the two: each step is one
  // access. Positions are those of the stream of log bytes; the ring holds them modulo its size
  // (IndicesAgree).

  const N: nat := LOG_AREA_SIZE

  /** A pass of logd: it has read head and tail, has copied the bytes, has stored the tail. */
  datatype Logd =
    | Waiting
    | Loaded(h: nat, t: nat, count: nat)
    | Copied(h: nat, t: nat, count: nat)
    | TailStored(h: nat, count: nat)

  /** tee_log_read: it has read the head, the tail too, has copied bytes out. */
  datatype Reader = Ready | HeadRead(h: nat) | BothRead(h: nat, t: nat) | Held(t: nat, len: nat, written: nat)

  /** Bytes given to the user, and how far the ring had been written when they were copied out. */
  datatype Piece = Piece(from: nat, to: nat, written: nat)

  /** The ring holds the last N bytes before the position written. */
  datatype World = World(head: nat, tail: nat, written: nat, logd: Logd, reader: Reader, out: seq<Piece>)

  /** count is what logd finds to fetch, want the size of the user's buffer, room what is left of it
      behind the notice about missing bytes. */
  datatype Move = LogdMoves(count: nat) | ReaderMoves(want: nat, room: nat)

  /** How often the ring was gone round before a position. */
  function Lap(x: nat): nat { if x < N then 0 else 1 + Lap(x - N) }

  /** adjust_klog_tail in positions. A pass of the size of the ring leaves its head where it was, and
      does not see that it runs into a tail in the same lap. */
  function NewTail(h: nat, t: nat, count: nat): nat
  {
    if count < N then (if h + count >= t + N then h + count + 1 - N else t)
    else if Lap(h) > Lap(t) && h + 1 != t + N then h + 1
    else t
  }

  /** After a pass of the size of the ring every index stands for the position one lap on. */
  function NextLap(w: World): World
  {
    w.(head := w.head + N, tail := w.tail + N, written := w.head + N,
       reader := match w.reader
                 case HeadRead(h) => HeadRead(h + N)
                 case BothRead(h, t) => BothRead(h + N, t + N)
                 case r => r)
  }

  function LogdStep(w: World, count: nat): World
  {
    match w.logd
    case Waiting => if 0 < count <= N then w.(logd := Loaded(w.head, w.tail, count)) else w
    case Loaded(h, t, c) => (if c < N then w.(written := h + c) else NextLap(w)).(logd := Copied(h, t, c))
    case Copied(h, t, c) =>
      w.(logd := TailStored(h, c), tail := if NewTail(h, t, c) != t then NewTail(h, t, c) else w.tail)
    case TailStored(h, c) => w.(logd := Waiting, head := h + c)
  }

  /** The compare-and-exchange of the tail, which compares indices, and what the user gets. */
  function Deliver(w: World, t: nat, len: nat, written: nat, room: nat): World
  {
    var missing := Unread(w.tail, t);
    if len == 0 then w.(reader := Ready)
    else if missing == 0 then w.(reader := Ready, tail := w.tail + len, out := w.out + [Piece(t, t + len, written)])
    else if missing < len then
      w.(reader := Ready, out := w.out + [Piece(t + missing, t + missing + Min(room, len - missing), written)])
    else w.(reader := Ready)
  }

  /** What the indices of two positions say is unread between them; a stale head may be behind. */
  function Unread(h: nat, t: nat): (n: nat)
    ensures n < N
    decreases if h < t then t - h + N else h - t
  {
    if h < t then Unread(h + N, t) else if h < t + N then h - t else Unread(h - N, t)
  }

  function ReaderStep(w: World, want: nat, room: nat): World
  {
    match w.reader
    case Ready => w.(reader := HeadRead(w.head))
    case HeadRead(h) =>
      var unread := Unread(h, w.tail);
      w.(reader := if unread == 0 then Ready else BothRead(w.tail + unread, w.tail))
    case BothRead(h, t) => if h > t then w.(reader := Held(t, Min(h - t, want), w.written)) else w
    case Held(t, len, written) => Deliver(w, t, len, written, room)
  }

  function Step(w: World, m: Move): World
  {
    if m.LogdMoves? then LogdStep(w, m.count) else ReaderStep(w, m.want, m.room)
  }

  function Run(w: World, ms: seq<Move>): World
    decreases |ms|
  {
    if ms == [] then w else Run(Step(w, ms[0]), ms[1..])
  }

  function Start(h: nat, t: nat): World { World(h, t, h, Waiting, Ready, []) }

  // ---------------------------------------------------------------- positions and indices

  lemma Residue(x: nat, y: nat)
    requires y <= x < y + N
    ensures x % N == if y % N + (x - y) < N then y % N + (x - y) else y % N + (x - y) - N
  {
    var q, d := y / N, y % N + (x - y);
    if d < N { Euclid(x, N, q, d); } else { Euclid(x, N, q + 1, d - N); }
  }

  lemma {:induction false} LapIsQuotient(x: nat)
    ensures Lap(x) == x / N
  {
    if x >= N { LapIsQuotient(x - N); }
  }

  /** What the source computes from indices is what the steps compute from positions. */
  lemma IndicesAgree(h: nat, t: nat, count: nat)
    requires t <= h < t + N && 0 < count <= N
    ensures Ring(seq(N, _ => 0), h % N, t % N).Used() == h - t
    ensures AdjustKlogTail(h % N, t % N, count) == NewTail(h, t, count) % N
    ensures h % N == t % N <==> h == t
    ensures h % N < t % N <==> Lap(h) > Lap(t)
  {
    Residue(h, t);
    LapIsQuotient(h);
    LapIsQuotient(t);
    if count < N { PartIndices(h, t, count); } else { FullIndices(h, t); }
  }

  lemma PartIndices(h: nat, t: nat, count: nat)
    requires t <= h < t + N && 0 < count < N
    ensures AdjustKlogTail(h % N, t % N, count) == NewTail(h, t, count) % N
  {
    Residue(h, t);
    OverrunExact(Ring(seq(N, _ => 0), h % N, t % N), count);
    if h + count >= t + N {
      RingIndexIsMod(h % N + count + 1);
      ModShift(h, count + 1, N);
      LapOn(h + count + 1 - N);
    }
  }

  lemma LapOn(x: nat)
    ensures (x + N) % N == x % N
  {
    Euclid(x + N, N, x / N + 1, x % N);
  }

  lemma FullIndices(h: nat, t: nat)
    requires t <= h < t + N
    ensures AdjustKlogTail(h % N, t % N, N) == NewTail(h, t, N) % N
  {
    Residue(h, t);
    LapIsQuotient(h);
    LapIsQuotient(t);
    RingIndexIsMod(h % N + N);
    RingIndexIsMod(h % N + N + 1);
    LapOn(h % N);
    LapOn(h % N + 1);
    ModShift(h, 1, N);
    if h + 1 == t + N { LapOn(t); }
  }

  // ---------------------------------------------------------------- alone

  /** A pass with nobody reading: the head goes on by what is stored, and the tail with it where the
      new bytes would reach it. */
  lemma PassAlone(w: World, count: nat)
    requires w.logd.Waiting? && w.written == w.head && 0 < count < N && w.tail <= w.head < w.tail + N
    ensures var once := LogdStep(LogdStep(w, count), count); var twice := LogdStep(LogdStep(once, count), count);
      twice == w.(head := w.head + count, written := w.head + count,
                  tail := if w.head + count < w.tail + N then w.tail else w.head + count - (N - 1))
  {
  }

  /** A read with no pass under way: the user gets the oldest bytes, as many as there are and as his
      buffer holds, and they are taken off. */
  lemma ReadAlone(w: World, want: nat, room: nat)
    requires w.reader.Ready? && 0 < want && w.tail < w.head < w.tail + N
    ensures var once := ReaderStep(ReaderStep(w, want, room), want, room);
      var got := Min(w.head - w.tail, want);
      ReaderStep(ReaderStep(once, want, room), want, room)
      == w.(tail := w.tail + got, out := w.out + [Piece(w.tail, w.tail + got, w.written)])
  {
  }

  /** A read whose tail was moved on by d bytes before it could move it itself: the user gets what is
      behind the missing bytes, as much as his buffer holds, or nothing; and the tail stays. */
  lemma ReadOvertaken(w: World, want: nat, room: nat, d: nat)
    requires w.reader.Held? && w.tail == w.reader.t + d && 0 < d < N && w.reader.len > 0
    ensures var t, len := w.reader.t, w.reader.len;
      ReaderStep(w, want, room) ==
      w.(reader := Ready, out :=
        if d < len then w.out + [Piece(t + d, t + d + Min(room, len - d), w.reader.written)] else w.out)
  {
  }

  // ---------------------------------------------------------------- what can go wrong

  /** The bytes of a piece were still in the ring when they were copied out. */
  predicate Intact(p: Piece) { p.to <= p.written <= p.from + N || p.from == p.to }

  function End(out: seq<Piece>, t: nat): nat { if out == [] then t else out[|out| - 1].to }

  /** Every byte that the user got is the one it was taken for, and none is still to be read. */
  ghost predicate Fine(w: World)
  {
    (forall p <- w.out :: Intact(p)) && (w.out != [] ==> End(w.out, 0) <= w.tail)
  }

  /** The pieces follow one another without gap from t on. */
  ghost predicate Joined(out: seq<Piece>, t: nat)
    decreases |out|
  {
    out == [] || (Joined(out[..|out| - 1], t) && out[|out| - 1].from == End(out[..|out| - 1], t))
  }

  // ---------------------------------------------------------------- every pass finds room

  ghost predicate Room(w: World, m: Move) { m.LogdMoves? && w.logd.Waiting? ==> w.head + m.count < w.tail + N }

  ghost predicate AllRoom(w: World, ms: seq<Move>)
    decreases |ms|
  {
    ms == [] || (Room(w, ms[0]) && AllRoom(Step(w, ms[0]), ms[1..]))
  }

  predicate LogdKnows(w: World)
  {
    match w.logd
    case Waiting => w.written == w.head
    case Loaded(h, t, c) => h == w.head == w.written && t <= w.tail && h + c < t + N
    case Copied(h, t, c) => h == w.head && w.written == h + c && t <= w.tail && h + c < t + N
    case TailStored(h, c) => h == w.head && w.written == h + c
  }

  predicate ReaderKnows(w: World)
  {
    match w.reader
    case Ready => true
    case HeadRead(h) => w.tail <= h <= w.head
    case BothRead(h, t) => t == w.tail < h <= w.head
    case Held(t, len, written) => t == w.tail && t + len <= w.head && t + len <= written <= t + N
  }

  ghost predicate Inv(w: World, t: nat)
  {
    && w.tail <= w.head <= w.written < w.tail + N
    && LogdKnows(w) && ReaderKnows(w)
    && Joined(w.out, t) && w.tail == End(w.out, t)
    && forall p <- w.out :: Intact(p)
  }

  lemma DeliverKeeps(w: World, room: nat, t: nat)
    requires Inv(w, t) && w.reader.Held?
    ensures Inv(ReaderStep(w, 0, room), t)
  {
    var out := ReaderStep(w, 0, room).out;
    if w.reader.len > 0 { assert out[..|out| - 1] == w.out; }
  }

  lemma ReaderKeeps(w: World, want: nat, room: nat, t: nat)
    requires Inv(w, t)
    ensures Inv(ReaderStep(w, want, room), t)
  {
    if w.reader.Held? { DeliverKeeps(w, room, t); }
  }

  lemma LogdKeeps(w: World, count: nat, t: nat)
    requires Inv(w, t) && Room(w, LogdMoves(count))
    ensures Inv(LogdStep(w, count), t)
  {
  }

  lemma StepKeeps(w: World, m: Move, t: nat)
    requires Inv(w, t) && Room(w, m)
    ensures Inv(Step(w, m), t)
  {
    if m.LogdMoves? { LogdKeeps(w, m.count, t); } else { ReaderKeeps(w, m.want, m.room, t); }
  }

  lemma {:induction false} RunKeeps(w: World, ms: seq<Move>, t: nat)
    requires Inv(w, t) && AllRoom(w, ms)
    ensures Inv(Run(w, ms), t)
    decreases |ms|
  {
    if ms != [] {
      StepKeeps(w, ms[0], t);
      RunKeeps(Step(w, ms[0]), ms[1..], t);
    }
  }

  /** As long as every pass finds room in the ring, the user gets the bytes of the log as they are,
      in order, each once and none left out, and the tail is where he stopped: in every interleaving
      of any number of passes and reads. */
  lemma ReadsAreExact(h: nat, t: nat, ms: seq<Move>)
    requires t <= h < t + N && AllRoom(Start(h, t), ms)
    ensures var w := Run(Start(h, t), ms);
      Fine(w) && Joined(w.out, t) && w.tail == End(w.out, t)
  {
    RunKeeps(Start(h, t), ms, t);
  }

  // ---------------------------------------------------------------- one pass that does not

  function LogdSteps(ms: seq<Move>): nat
  {
    if ms == [] then 0 else (if ms[0].LogdMoves? then 1 else 0) + LogdSteps(ms[1..])
  }

  /** A schedule of one pass of so many bytes, four steps of logd, and any reads. */
  predicate OnePass(ms: seq<Move>, count: nat)
  {
    LogdSteps(ms) <= 4 && forall m <- ms :: m.LogdMoves? ==> m.count == count
  }

  /** Where logd stands with so many of its four steps still to come. */
  predicate Stands(w: World, left: nat)
  {
    match left
    case 4 => w.logd.Waiting?
    case 3 => w.logd.Loaded?
    case 2 => w.logd.Copied?
    case 1 => w.logd.TailStored?
    case _ => left == 0 && w.logd.Waiting?
  }

  lemma {:induction false} OnePassFindsRoom(w: World, t: nat, count: nat, left: nat, ms: seq<Move>)
    requires Inv(w, t) && Stands(w, left) && (left == 4 ==> w.head + count < w.tail + N) && 0 < count < N
    requires LogdSteps(ms) <= left && forall m <- ms :: m.LogdMoves? ==> m.count == count
    ensures AllRoom(w, ms)
    decreases |ms|
  {
    if ms != [] {
      assert ms[0] in ms;
      StepKeeps(w, ms[0], t);
      OnePassFindsRoom(Step(w, ms[0]), t, count, if ms[0].LogdMoves? then left - 1 else left, ms[1..]);
    }
  }

  predicate SingleByteLogd(w: World, t: nat, left: nat)
  {
    match w.logd
    case Waiting => if left == 4 then w.written == t + 1 else w.written == t + N
    case Loaded(h, tail, c) => h == w.written == t + 1 && t <= tail <= w.tail && c == N - 1
    case Copied(h, tail, c) => h == t + 1 && w.written == t + N && t <= tail <= w.tail && c == N - 1
    case TailStored(h, c) => h == t + 1 && w.written == t + N && w.tail == t + 1 && c == N - 1
  }

  predicate SingleByteReader(w: World, t: nat)
  {
    match w.reader
    case Ready => true
    case HeadRead(h) => w.tail <= h && (h == t + 1 || h == w.head)
    case BothRead(h, tail) =>
      (h == t + 1 && tail == t && w.tail <= t + 1) || (h == w.head && t < tail == w.tail && tail < h)
    case Held(tail, len, written) =>
      || (tail == t && w.tail <= t + 1 && len <= 1 && t + 1 <= written <= t + N)
      || (tail == w.tail && t < tail && tail + len <= w.head && written == w.head == t + N)
  }

  /** A single byte is unread and a pass fills the ring: what holds in between. */
  ghost predicate SingleByte(w: World, t: nat, left: nat)
  {
    && Stands(w, left) && t <= w.tail <= w.head
    && w.head == (if left == 0 then t + N else t + 1) && (left == 0 ==> t < w.tail)
    && SingleByteLogd(w, t, left) && SingleByteReader(w, t)
    && Fine(w)
  }

  lemma SingleByteLogdStep(w: World, t: nat, left: nat)
    requires SingleByte(w, t, left) && left > 0
    ensures SingleByte(LogdStep(w, N - 1), t, left - 1)
  {
  }

  lemma SingleByteReaderStep(w: World, t: nat, left: nat, want: nat, room: nat)
    requires SingleByte(w, t, left)
    ensures SingleByte(ReaderStep(w, want, room), t, left)
  {
  }

  lemma SingleByteStep(w: World, t: nat, left: nat, m: Move)
    requires SingleByte(w, t, left) && (m.LogdMoves? ==> left > 0 && m.count == N - 1)
    ensures SingleByte(Step(w, m), t, if m.LogdMoves? then left - 1 else left)
  {
    if m.LogdMoves? { SingleByteLogdStep(w, t, left); } else { SingleByteReaderStep(w, t, left, m.want, m.room); }
  }

  lemma {:induction false} SingleByteRuns(w: World, t: nat, left: nat, ms: seq<Move>)
    requires SingleByte(w, t, left)
    requires LogdSteps(ms) <= left && forall m <- ms :: m.LogdMoves? ==> m.count == N - 1
    ensures Fine(Run(w, ms))
    decreases |ms|
  {
    if ms != [] {
      assert ms[0] in ms;
      SingleByteStep(w, t, left, ms[0]);
      SingleByteRuns(Step(w, ms[0]), t, if ms[0].LogdMoves? then left - 1 else left, ms[1..]);
    }
  }

  lemma OnePassIsFine(h: nat, t: nat, count: nat, ms: seq<Move>)
    requires t <= h < t + N && 0 < count < N && (h + count < t + N || h - t <= 1)
    requires OnePass(ms, count)
    ensures Fine(Run(Start(h, t), ms))
  {
    if h + count < t + N {
      OnePassFindsRoom(Start(h, t), t, count, 4, ms);
      ReadsAreExact(h, t, ms);
    } else {
      SingleByteRuns(Start(h, t), t, 4, ms);
    }
  }

  lemma OneMove(w: World, m: Move)
    ensures Run(w, [m]) == Step(w, m) && LogdSteps([m]) == if m.LogdMoves? then 1 else 0
  {
    assert [m][1..] == [];
  }

  lemma TwoMoves(w: World, x: Move, y: Move, rest: seq<Move>)
    ensures Run(w, [x, y] + rest) == Run(Step(Step(w, x), y), rest)
    ensures LogdSteps([x, y] + rest)
      == (if x.LogdMoves? then 1 else 0) + (if y.LogdMoves? then 1 else 0) + LogdSteps(rest)
  {
    var ms := [x, y] + rest;
    assert ms[1..] == [y] + rest && ms[1..][1..] == rest;
  }

  /** The user reads with a buffer of that size, and the run goes on. */
  function ReadSome(want: nat, rest: seq<Move>): seq<Move>
  {
    var r := ReaderMoves(want, 0);
    [r, r] + ([r, r] + rest)
  }

  function SomeRead(w: World, want: nat): World
  {
    w.(tail := w.tail + want, out := w.out + [Piece(w.tail, w.tail + want, w.written)])
  }

  lemma ReadSomeRuns(w: World, want: nat, rest: seq<Move>)
    requires w.reader.Ready? && 0 < want && w.tail + want <= w.head < w.tail + N
    ensures Run(w, ReadSome(want, rest)) == Run(SomeRead(w, want), rest)
  {
    var r := ReaderMoves(want, 0);
    ReadAlone(w, want, 0);
    TwoMoves(w, r, r, [r, r] + rest);
    TwoMoves(ReaderStep(ReaderStep(w, want, 0), want, 0), r, r, rest);
  }

  lemma ReadSomeCounts(want: nat, rest: seq<Move>, count: nat)
    ensures LogdSteps(ReadSome(want, rest)) == LogdSteps(rest)
    ensures OnePass(rest, count) ==> OnePass(ReadSome(want, rest), count)
  {
    var r := ReaderMoves(want, 0);
    TwoMoves(Start(0, 0), r, r, [r, r] + rest);
    TwoMoves(Start(0, 0), r, r, rest);
  }

  /** logd has copied its bytes and not yet stored the tail when the user reads. */
  function Overtaken(count: nat, want: nat): seq<Move>
  {
    [LogdMoves(count), LogdMoves(count)] + ReadSome(want, [LogdMoves(count)])
  }

  lemma OvertakenCounts(count: nat, want: nat)
    ensures OnePass(Overtaken(count, want), count)
  {
    var l := LogdMoves(count);
    OneMove(Start(0, 0), l);
    ReadSomeCounts(want, [l], count);
    TwoMoves(Start(0, 0), l, l, ReadSome(want, [l]));
  }

  lemma OvertakenRuns(w: World, count: nat, want: nat)
    requires w.logd.Waiting? && w.reader.Ready? && 0 < count <= N
    requires 0 < want && w.tail + want <= w.head < w.tail + N
    ensures var copied := LogdStep(LogdStep(w, count), count);
      Run(w, Overtaken(count, want)) == LogdStep(SomeRead(copied, want), count)
  {
    var l := LogdMoves(count);
    var copied := LogdStep(LogdStep(w, count), count);
    TwoMoves(w, l, l, ReadSome(want, [l]));
    ReadSomeRuns(copied, want, [l]);
    OneMove(SomeRead(copied, want), l);
  }

  /** Between passes and reads, with two bytes to be read at least. */
  predicate AtRest(w: World)
  {
    w.logd.Waiting? && w.reader.Ready? && w.tail + 2 <= w.head == w.written < w.tail + N
  }

  /** Then he gets bytes that are overwritten already, or bytes that he will get again: the tail that
      logd stores is behind where he stopped. So it is whenever a pass finds no room, however many
      have found it before. */
  lemma OvertakenGoesWrong(w: World, count: nat)
    requires AtRest(w) && 0 < count < N && w.head + count >= w.tail + N
    ensures OnePass(Overtaken(count, 2), count) && !Fine(Run(w, Overtaken(count, 2)))
  {
    OvertakenCounts(count, 2);
    OvertakenRuns(w, count, 2);
    var out := Run(w, Overtaken(count, 2)).out;
    assert out[|out| - 1] in out;
  }

  /** One pass of logd and any reads: whatever their interleaving the user gets the right bytes once,
      if and only if the pass finds room in the ring or a single byte unread. */
  lemma OnePassIff(h: nat, t: nat, count: nat)
    requires t <= h < t + N && 0 < count < N
    ensures (forall ms :: OnePass(ms, count) ==> Fine(Run(Start(h, t), ms))) <==> h + count < t + N || h - t <= 1
  {
    if h + count < t + N || h - t <= 1 {
      forall ms | OnePass(ms, count) ensures Fine(Run(Start(h, t), ms)) { OnePassIsFine(h, t, count, ms); }
    } else {
      OvertakenGoesWrong(Start(h, t), count);
    }
  }
}
