/** The kernel's copy of the secure world's log: two rings with different moduli, the tail
    that gives way when the head catches up, and the reader. */
module LogRing {
  import opened Alignment
  import opened KmsgLines

  /** LOG_AREA_SIZE: sixteen pages of 4096 bytes. */
  const LOG_AREA_SIZE: nat := 65536
  const SEQ_WRAP: nat := 0x1_0000_0000

  // ---------------------------------------------------------------- rings

  /** count bytes of the ring s from position i on. */
  function RingSlice(s: seq<Byte>, i: nat, count: nat): (r: seq<Byte>)
    requires i < |s| && count <= |s|
    ensures |r| == count
    ensures forall k :: 0 <= k < count ==> r[k] == if i + k < |s| then s[i + k] else s[i + k - |s|]
  {
    if i + count <= |s| then s[i..i + count] else s[i..] + s[..count - (|s| - i)]
  }

  /** data written to the ring s from position i on. */
  function RingWrite(s: seq<Byte>, i: nat, data: seq<Byte>): (r: seq<Byte>)
    requires i < |s| && |data| <= |s|
    ensures |r| == |s|
    ensures forall j :: 0 <= j < |s| ==>
              r[j] == if i <= j < i + |data| then data[j - i]
                      else if j + |s| < i + |data| then data[j + |s| - i] else s[j]
  {
    if i + |data| <= |s| then s[..i] + data + s[i + |data|..]
    else data[|s| - i..] + s[i + |data| - |s|..i] + data[..|s| - i]
  }

  datatype Ring = Ring(area: seq<Byte>, head: nat, tail: nat)
  {
    ghost predicate Valid() { |area| == LOG_AREA_SIZE && head < LOG_AREA_SIZE && tail < LOG_AREA_SIZE }

    function Used(): (n: nat)
      requires Valid()
      ensures n < LOG_AREA_SIZE
    {
      if tail <= head then head - tail else head + LOG_AREA_SIZE - tail
    }

    /** What a reader has not taken yet, oldest byte first. */
    function Window(): seq<Byte>
      requires Valid()
    {
      RingSlice(area, tail, Used())
    }
  }

  function KeepLast(s: seq<Byte>, k: nat): seq<Byte>
  {
    if |s| <= k then s else s[|s| - k..]
  }

  /** The sum of two positions modulo the size of the ring. */
  function RingIndex(x: nat): (i: nat)
    requires x <= 2 * LOG_AREA_SIZE
    ensures i < LOG_AREA_SIZE
  {
    if x < LOG_AREA_SIZE then x else if x < 2 * LOG_AREA_SIZE then x - LOG_AREA_SIZE else 0
  }

  lemma RingIndexIsMod(x: nat)
    requires x <= 2 * LOG_AREA_SIZE
    ensures RingIndex(x) == x % LOG_AREA_SIZE
  {
  }

  predicate RingBufferOnSegment(start: nat, count: nat, point: nat)
    requires start < LOG_AREA_SIZE && count <= LOG_AREA_SIZE
  {
    if point > start then point - start <= count
    else
      var end := RingIndex(start + count);
      if end >= start then false else end >= point
  }

  function AdjustKlogTail(head: nat, tail: nat, count: nat): nat
    requires head < LOG_AREA_SIZE && count <= LOG_AREA_SIZE
  {
    if RingBufferOnSegment(head, count, tail) then RingIndex(head + count + 1) else tail
  }

  /** The ring after do_klog has stored data. */
  function Store(r: Ring, data: seq<Byte>): (q: Ring)
    requires r.Valid() && |data| <= LOG_AREA_SIZE
    ensures q.Valid()
  {
    Ring(RingWrite(r.area, r.head, data), RingIndex(r.head + |data|), AdjustKlogTail(r.head, r.tail, |data|))
  }

  /** The tail moves exactly when the new bytes would run into the unread ones. */
  lemma OverrunExact(r: Ring, count: nat)
    requires r.Valid() && count < LOG_AREA_SIZE
    ensures RingBufferOnSegment(r.head, count, r.tail) <==> r.Used() + count >= LOG_AREA_SIZE
  {
  }

  lemma StoreUsed(r: Ring, data: seq<Byte>)
    requires r.Valid() && |data| < LOG_AREA_SIZE
    ensures Store(r, data).Used() == if r.Used() + |data| < LOG_AREA_SIZE then r.Used() + |data| else LOG_AREA_SIZE - 1
  {
  }

  lemma StoreWithRoom(r: Ring, data: seq<Byte>)
    requires r.Valid() && r.Used() + |data| < LOG_AREA_SIZE
    ensures Store(r, data).Window() == r.Window() + data
  {
    var q := Store(r, data);
    StoreUsed(r, data);
    assert q.tail == r.tail by { OverrunExact(r, |data|); }
    forall j | 0 <= j < q.Used() ensures q.Window()[j] == (r.Window() + data)[j] {
      StoreWithRoomAt(r, data, q, j);
    }
  }

  lemma StoreWithRoomAt(r: Ring, data: seq<Byte>, q: Ring, j: nat)
    requires r.Valid() && q.Valid() && |data| <= LOG_AREA_SIZE && q.area == RingWrite(r.area, r.head, data)
      && q.tail == r.tail
    requires j < q.Used() == r.Used() + |data|
    ensures q.Window()[j] == (r.Window() + data)[j]
  {
  }

  lemma NewByteLands(r: Ring, data: seq<Byte>, i: nat)
    requires r.Valid() && i < |data| <= LOG_AREA_SIZE
    ensures var at := if r.head + i < LOG_AREA_SIZE then r.head + i else r.head + i - LOG_AREA_SIZE;
      RingWrite(r.area, r.head, data)[at] == data[i]
  {
  }

  lemma StoreOverrun(r: Ring, data: seq<Byte>)
    requires r.Valid() && |data| < LOG_AREA_SIZE <= r.Used() + |data|
    ensures Store(r, data).Window() == (r.Window() + data)[r.Used() + |data| - (LOG_AREA_SIZE - 1)..]
  {
    StoreUsed(r, data);
    var q := Store(r, data);
    var d := r.Used() + |data| - (LOG_AREA_SIZE - 1);
    assert q.tail ==
      if r.head + |data| + 1 < LOG_AREA_SIZE then r.head + |data| + 1 else r.head + |data| + 1 - LOG_AREA_SIZE by {
      OverrunExact(r, |data|);
    }
    forall j | 0 <= j < q.Used() ensures q.Window()[j] == (r.Window() + data)[d + j] {
      StoreOverrunAt(r, data, q, d, j);
    }
  }

  lemma StoreOverrunAt(r: Ring, data: seq<Byte>, q: Ring, d: nat, j: nat)
    requires r.Valid() && q.Valid() && |data| < LOG_AREA_SIZE && q.area == RingWrite(r.area, r.head, data)
    requires q.tail ==
      if r.head + |data| + 1 < LOG_AREA_SIZE then r.head + |data| + 1 else r.head + |data| + 1 - LOG_AREA_SIZE
    requires j < q.Used() == LOG_AREA_SIZE - 1 && d + LOG_AREA_SIZE - 1 == r.Used() + |data|
    ensures q.Window()[j] == (r.Window() + data)[d + j]
  {
  }

  /** Storing keeps the newest bytes, as many as the ring can hold. */
  lemma StoreKeepsLast(r: Ring, data: seq<Byte>)
    requires r.Valid() && |data| < LOG_AREA_SIZE
    ensures Store(r, data).Window() == KeepLast(r.Window() + data, LOG_AREA_SIZE - 1)
  {
    var all := r.Window() + data;
    assert |all| == r.Used() + |data|;
    if |all| < LOG_AREA_SIZE {
      StoreWithRoom(r, data);
      assert KeepLast(all, LOG_AREA_SIZE - 1) == all;
    } else {
      StoreOverrun(r, data);
      assert KeepLast(all, LOG_AREA_SIZE - 1) == all[|all| - (LOG_AREA_SIZE - 1)..];
    }
  }

  /** A write of exactly the ring's size keeps the newest bytes only when the tail lies ahead
      of the head, or the ring was full with its head on the last byte; otherwise the head
      returns to where it was and the tail stays. */
  lemma StoreKeepsLastIff(r: Ring, data: seq<Byte>)
    requires r.Valid() && |data| <= LOG_AREA_SIZE
    ensures Store(r, data).Window() == KeepLast(r.Window() + data, LOG_AREA_SIZE - 1)
            <==> |data| < LOG_AREA_SIZE || r.tail > r.head || (r.head == LOG_AREA_SIZE - 1 && r.tail == 0)
  {
    if |data| < LOG_AREA_SIZE {
      StoreKeepsLast(r, data);
    } else {
      StoreFullRing(r, data);
      LastOfFull(r.Window(), data);
      if r.tail > r.head || (r.head == LOG_AREA_SIZE - 1 && r.tail == 0) { FullWindow(r, data); }
    }
  }

  lemma LastOfFull(s: seq<Byte>, data: seq<Byte>)
    requires |data| == LOG_AREA_SIZE
    ensures KeepLast(s + data, LOG_AREA_SIZE - 1) == data[1..]
  {
    assert (s + data)[|s| + 1..] == data[1..];
  }

  lemma FullWindow(r: Ring, data: seq<Byte>)
    requires r.Valid() && |data| == LOG_AREA_SIZE && (r.tail > r.head || (r.head == LOG_AREA_SIZE - 1 && r.tail == 0))
    ensures Store(r, data).Window() == data[1..]
  {
    StoreFullRing(r, data);
    var q := Store(r, data);
    forall j | 0 <= j < q.Used() ensures q.Window()[j] == data[j + 1] { NewByteLands(r, data, j + 1); }
  }

  lemma StoreFullRing(r: Ring, data: seq<Byte>)
    requires r.Valid() && |data| == LOG_AREA_SIZE
    ensures var q := Store(r, data);
      && q.head == r.head
      && (r.tail > r.head ==> q.tail == r.head + 1)
      && (r.tail <= r.head ==> q.tail == r.tail)
      && (q.Used() == LOG_AREA_SIZE - 1 <==> r.tail > r.head || (r.head == LOG_AREA_SIZE - 1 && r.tail == 0))
  {
  }

  lemma KeepLastAbsorbs(a: seq<Byte>, b: seq<Byte>, k: nat)
    ensures KeepLast(KeepLast(a, k) + b, k) == KeepLast(a + b, k)
  {
  }

  // ---------------------------------------------------------------- sequence numbers

  function LogSeq2idx(seqno: nat, ringLength: nat): (i: nat)
    requires ringLength > 0
    ensures i < ringLength
  {
    seqno % ringLength
  }

  lemma ModShift(x: nat, k: nat, n: nat)
    requires n > 0
    ensures (x % n + k) % n == (x + k) % n
  {
    var y := x % n + k;
    assert x == n * (x / n) + x % n && y == n * (y / n) + y % n;
    assert x + k == n * (x / n + y / n) + y % n by {
      assert n * (x / n + y / n) == n * (x / n) + n * (y / n);
    }
    Euclid(x + k, n, x / n + y / n, y % n);
  }

  lemma ModOfMultiple(x: nat, m: nat, n: nat)
    requires n > 0 && m > 0 && m % n == 0
    ensures x % m % n == x % n
  {
    var q, r := x / m, x % m;
    assert x == m * q + r && m == n * (m / n) && r == n * (r / n) + r % n;
    assert m * q == n * (m / n * q) by { assert n * (m / n) * q == n * (m / n * q); }
    assert x == n * (m / n * q + r / n) + r % n by {
      assert n * (m / n * q + r / n) == n * (m / n * q) + n * (r / n);
    }
    Euclid(x, n, m / n * q + r / n, r % n);
  }

  /** The k-th position of a walk round the ring from log_seq2idx(s) belongs to the k-th sequence number. */
  predicate WalkAgrees(s: nat, k: nat, ringLength: nat)
    requires ringLength > 0
  {
    (LogSeq2idx(s, ringLength) + k) % ringLength == LogSeq2idx((s + k) % SEQ_WRAP, ringLength)
  }

  /** The walk agrees with the 32-bit sequence numbers for every byte exactly when they do not
      wrap within it, or the ring length divides 2^32. */
  lemma WalkAgreesIff(s: nat, count: nat, ringLength: nat)
    requires s < SEQ_WRAP && 0 < ringLength && count <= SEQ_WRAP
    ensures (forall k: nat :: k < count ==> WalkAgrees(s, k, ringLength))
            <==> s + count <= SEQ_WRAP || SEQ_WRAP % ringLength == 0
  {
    forall k: nat | k < count && (s + count <= SEQ_WRAP || SEQ_WRAP % ringLength == 0)
      ensures WalkAgrees(s, k, ringLength)
    {
      ModShift(s, k, ringLength);
      if s + count > SEQ_WRAP { ModOfMultiple(s + k, SEQ_WRAP, ringLength); }
    }
    if s + count > SEQ_WRAP && SEQ_WRAP % ringLength != 0 {
      ModShift(s, SEQ_WRAP - s, ringLength);
      Euclid(0, ringLength, 0, 0);
      assert !WalkAgrees(s, SEQ_WRAP - s, ringLength);
    }
  }

  /** The bytes do_klog takes from the secure world's ring: at most the ring's size, the newest. */
  function Fetched(tee: seq<Byte>, rseq: nat, wseq: nat): seq<Byte>
    requires rseq < SEQ_WRAP && wseq < SEQ_WRAP && FetchedCount(rseq, wseq) <= |tee| && |tee| > 0
  {
    var count := FetchedCount(rseq, wseq);
    RingSlice(tee, LogSeq2idx((wseq - count) % SEQ_WRAP, |tee|), count)
  }

  function FetchedCount(rseq: nat, wseq: nat): nat
    requires rseq < SEQ_WRAP && wseq < SEQ_WRAP
  {
    var n := (wseq - rseq) % SEQ_WRAP;
    if n > LOG_AREA_SIZE then LOG_AREA_SIZE else n
  }

  // ---------------------------------------------------------------- what a pass takes

  function Min(a: nat, b: nat): nat { if a < b then a else b }

  /** What logd takes when it stands at readSeq and finds writeSeq: as many bytes as it is behind, but
      no more than either ring holds, and of these the newest; the k-th lies k places behind the place
      of the first sequence number, round the ring of the secure world. */
  predicate Took(tee: seq<Byte>, readSeq: nat, writeSeq: nat, data: seq<Byte>)
    requires |tee| > 0
  {
    && |data| == Min((writeSeq - readSeq) % SEQ_WRAP, Min(|tee|, LOG_AREA_SIZE))
    && forall k :: 0 <= k < |data| ==> data[k] == tee[((writeSeq - |data|) % SEQ_WRAP % |tee| + k) % |tee|]
  }

  lemma ClampedCount(readSeq: nat, writeSeq: nat, ringLength: nat)
    requires readSeq < SEQ_WRAP && writeSeq < SEQ_WRAP
    ensures ClampedSeq(readSeq, writeSeq, ringLength) < SEQ_WRAP
    ensures FetchedCount(ClampedSeq(readSeq, writeSeq, ringLength), writeSeq)
      == Min((writeSeq - readSeq) % SEQ_WRAP, Min(ringLength, LOG_AREA_SIZE))
  {
  }

  lemma RoundRing(at: nat, k: nat, n: nat)
    requires at < n && k <= n
    ensures (at + k) % n == if at + k < n then at + k else at + k - n
  {
    if at + k < n { Euclid(at + k, n, 0, at + k); } else { Euclid(at + k, n, 1, at + k - n); }
  }

  lemma FetchedIsTaken(tee: seq<Byte>, readSeq: nat, writeSeq: nat)
    requires |tee| > 0 && readSeq < SEQ_WRAP && writeSeq < SEQ_WRAP
    requires FetchedCount(ClampedSeq(readSeq, writeSeq, |tee|), writeSeq) <= |tee|
    ensures ClampedSeq(readSeq, writeSeq, |tee|) < SEQ_WRAP
    ensures Took(tee, readSeq, writeSeq, Fetched(tee, ClampedSeq(readSeq, writeSeq, |tee|), writeSeq))
  {
    ClampedCount(readSeq, writeSeq, |tee|);
    var data := Fetched(tee, ClampedSeq(readSeq, writeSeq, |tee|), writeSeq);
    var at := LogSeq2idx((writeSeq - |data|) % SEQ_WRAP, |tee|);
    forall k | 0 <= k < |data| ensures data[k] == tee[(at + k) % |tee|] { RoundRing(at, k, |tee|); }
  }

  /** The 32-bit numbers agree with the places: they do not wrap on the way, or the length of the
      ring divides 2^32. */
  predicate NumbersAgree(start: nat, count: nat, ringLength: nat)
    requires ringLength > 0
  {
    start + count <= SEQ_WRAP || SEQ_WRAP % ringLength == 0
  }

  /** Then each byte taken is the one of its sequence number. */
  lemma TookFollowsSequence(tee: seq<Byte>, readSeq: nat, writeSeq: nat, data: seq<Byte>, k: nat)
    requires |tee| > 0 && writeSeq < SEQ_WRAP && Took(tee, readSeq, writeSeq, data) && k < |data|
    requires NumbersAgree((writeSeq - |data|) % SEQ_WRAP, |data|, |tee|)
    ensures data[k] == tee[(writeSeq - |data| + k) % SEQ_WRAP % |tee|]
  {
    var start := (writeSeq - |data|) % SEQ_WRAP;
    WalkAgreesIff(start, |data|, |tee|);
    assert WalkAgrees(start, k, |tee|);
    StepOn(writeSeq - |data|, k);
  }

  /** Only the residue of a position matters. */
  lemma StepOn(x: int, d: int)
    ensures (x % SEQ_WRAP + d) % SEQ_WRAP == (x + d) % SEQ_WRAP
  {
    LapsAside(x % SEQ_WRAP + d, x / SEQ_WRAP);
  }

  lemma LapsAside(x: int, q: int)
    ensures (x + SEQ_WRAP * q) % SEQ_WRAP == x % SEQ_WRAP
  {
    var y := x + SEQ_WRAP * q;
    assert y == SEQ_WRAP * (x / SEQ_WRAP + q) + x % SEQ_WRAP;
  }

  /** The log as the secure world writes it: the byte at each position. Its ring, when so many have
      been written, holds the last ones, each at the place of its 32-bit sequence number. */
  ghost predicate Holds(tee: seq<Byte>, stream: nat -> Byte, written: nat)
    requires |tee| > 0
  {
    forall x {:trigger stream(x)} :: 0 <= x < written <= x + |tee| ==> tee[x % SEQ_WRAP % |tee|] == stream(x)
  }

  function Stretch(stream: nat -> Byte, a: nat, b: nat): (r: seq<Byte>)
    requires a <= b
    ensures |r| == b - a && forall k :: 0 <= k < b - a ==> r[k] == stream(a + k)
  {
    seq(b - a, k requires 0 <= k < b - a => stream(a + k))
  }

  /** A pass from the position from to the position to takes the last bytes in between, as many as
      both rings hold. */
  lemma PassFollowsStream(tee: seq<Byte>, stream: nat -> Byte, from: nat, to: nat, data: seq<Byte>)
    requires |tee| > 0 && from <= to < from + SEQ_WRAP && Holds(tee, stream, to)
    requires Took(tee, from % SEQ_WRAP, to % SEQ_WRAP, data)
    requires NumbersAgree((to - |data|) % SEQ_WRAP, |data|, |tee|)
    ensures |data| == Min(to - from, Min(|tee|, LOG_AREA_SIZE)) && data == Stretch(stream, to - |data|, to)
  {
    Behind(from, to);
    forall k | 0 <= k < |data| ensures data[k] == stream(to - |data| + k) {
      TakesByte(tee, stream, from % SEQ_WRAP, to, data, k);
    }
  }

  lemma TakesByte(tee: seq<Byte>, stream: nat -> Byte, readSeq: nat, to: nat, data: seq<Byte>, k: nat)
    requires |tee| > 0 && Holds(tee, stream, to) && Took(tee, readSeq, to % SEQ_WRAP, data)
    requires k < |data| <= to && |data| <= |tee| && NumbersAgree((to - |data|) % SEQ_WRAP, |data|, |tee|)
    ensures data[k] == stream(to - |data| + k)
  {
    StepOn(to, -|data|);
    StepOn(to, k - |data|);
    TookFollowsSequence(tee, readSeq, to % SEQ_WRAP, data, k);
    assert stream(to - |data| + k) == tee[(to - |data| + k) % SEQ_WRAP % |tee|];
  }

  lemma Behind(from: nat, to: nat)
    requires from <= to < from + SEQ_WRAP
    ensures (to % SEQ_WRAP - from % SEQ_WRAP) % SEQ_WRAP == to - from
  {
    StepOn(to, -(from % SEQ_WRAP));
    StepOn(to - from, 0);
    LapsAside(to - from, from / SEQ_WRAP);
  }

  // ---------------------------------------------------------------- runs

  /** The log pipeline's value: unread bytes, text pending for the console, lines printed. */
  datatype Pipeline = Pipeline(unread: seq<Byte>, pending: seq<Byte>, console: seq<seq<Byte>>)

  function Pass(p: Pipeline, data: seq<Byte>): Pipeline
  {
    Pipeline(KeepLast(p.unread + data, LOG_AREA_SIZE - 1),
             Feed(p.pending, data).0, p.console + Feed(p.pending, data).1)
  }

  function Passes(p: Pipeline, batches: seq<seq<Byte>>): Pipeline
    decreases |batches|
  {
    if batches == [] then p else Passes(Pass(p, batches[0]), batches[1..])
  }

  /** Two passes are one over both pieces. */
  lemma TwoPasses(p: Pipeline, a: seq<Byte>, b: seq<Byte>)
    ensures Pass(Pass(p, a), b) == Pass(p, a + b)
  {
    KeepLastAbsorbs(p.unread + a, b, LOG_AREA_SIZE - 1);
    assert p.unread + a + b == p.unread + (a + b);
    FeedConcat(p.pending, a, b);
    var (q, first) := Feed(p.pending, a);
    var second := Feed(q, b).1;
    assert p.console + first + second == p.console + (first + second);
  }

  lemma EmptyPass(p: Pipeline)
    requires |p.unread| < LOG_AREA_SIZE
    ensures Pass(p, []) == p
  {
    var none: seq<Byte>, noLines: seq<seq<Byte>> := [], [];
    assert p.unread + none == p.unread && p.console + noLines == p.console;
  }

  /** How logd happens to batch the bytes is invisible, in the ring and on the console. */
  lemma {:induction false} BatchingIsInvisible(p: Pipeline, batches: seq<seq<Byte>>)
    requires |p.unread| < LOG_AREA_SIZE
    ensures Passes(p, batches) == Pass(p, Flatten(batches))
    decreases |batches|
  {
    if batches == [] {
      EmptyPass(p);
    } else {
      BatchingIsInvisible(Pass(p, batches[0]), batches[1..]);
      TwoPasses(p, batches[0], Flatten(batches[1..]));
    }
  }

  /** Passes that stop at the positions ws, one after the other, from a position on, none of them
      further behind than both rings hold; tees are the rings they find, datas what they take. */
  ghost predicate PassesTake(stream: nat -> Byte, tees: seq<seq<Byte>>, from: nat, ws: seq<nat>, datas: seq<seq<Byte>>)
    decreases |ws|
  {
    && |tees| == |ws| == |datas|
    && (ws != [] ==>
          && |tees[0]| > 0 && from <= ws[0] <= from + Min(|tees[0]|, LOG_AREA_SIZE)
          && Holds(tees[0], stream, ws[0]) && NumbersAgree(from % SEQ_WRAP, ws[0] - from, |tees[0]|)
          && Took(tees[0], from % SEQ_WRAP, ws[0] % SEQ_WRAP, datas[0])
          && PassesTake(stream, tees[1..], ws[0], ws[1..], datas[1..]))
  }

  function Last(from: nat, ws: seq<nat>): nat { if ws == [] then from else ws[|ws| - 1] }

  lemma PassTakesNext(tee: seq<Byte>, stream: nat -> Byte, from: nat, to: nat, data: seq<Byte>)
    requires |tee| > 0 && from <= to <= from + Min(|tee|, LOG_AREA_SIZE) && Holds(tee, stream, to)
    requires NumbersAgree(from % SEQ_WRAP, to - from, |tee|)
    requires Took(tee, from % SEQ_WRAP, to % SEQ_WRAP, data)
    ensures data == Stretch(stream, from, to)
  {
    Behind(from, to);
    PassFollowsStream(tee, stream, from, to, data);
  }

  /** They take every byte of the log in between, each once and in order. */
  lemma {:induction false} PassesTakeAll(
      stream: nat -> Byte, tees: seq<seq<Byte>>, from: nat, ws: seq<nat>, datas: seq<seq<Byte>>)
    requires PassesTake(stream, tees, from, ws, datas)
    ensures from <= Last(from, ws) && Flatten(datas) == Stretch(stream, from, Last(from, ws))
    decreases |ws|
  {
    if ws != [] {
      PassTakesNext(tees[0], stream, from, ws[0], datas[0]);
      PassesTakeAll(stream, tees[1..], ws[0], ws[1..], datas[1..]);
      StretchesJoin(stream, from, ws[0], Last(from, ws));
    }
  }

  lemma StretchesJoin(stream: nat -> Byte, a: nat, b: nat, c: nat)
    requires a <= b <= c
    ensures Stretch(stream, a, b) + Stretch(stream, b, c) == Stretch(stream, a, c)
  {
  }

  /** So the log arrives: whatever the passes, the unread bytes are the last of the whole stretch, and
      the console has its lines. */
  lemma LogArrives(
      p: Pipeline, stream: nat -> Byte, tees: seq<seq<Byte>>, from: nat, ws: seq<nat>, datas: seq<seq<Byte>>)
    requires PassesTake(stream, tees, from, ws, datas) && |p.unread| < LOG_AREA_SIZE
    ensures from <= Last(from, ws)
    ensures var all := Stretch(stream, from, Last(from, ws)); var q := Passes(p, datas);
      && q.unread == KeepLast(p.unread + all, LOG_AREA_SIZE - 1)
      && q.pending == Feed(p.pending, all).0 && q.console == p.console + Feed(p.pending, all).1
  {
    PassesTakeAll(stream, tees, from, ws, datas);
    BatchingIsInvisible(p, datas);
  }

  // ---------------------------------------------------------------- the driver's state

  class LogDriver {
    const tee: array<Byte>
    const tmp: array<Byte>
    const area: array<Byte>
    const printer: Printer
    var klogHead: nat
    var klogTail: nat
    var teeReadSeq: nat

    constructor (tee: array<Byte>)
      requires tee.Length > 0
      ensures Valid() && this.tee == tee && RingView().Window() == [] && printer.Pending() == []
        && printer.console == []
      ensures fresh(this) && fresh(tmp) && fresh(area) && fresh(printer) && fresh(printer.linebuf)
    {
      this.tee := tee;
      tmp := new Byte[LOG_AREA_SIZE + 1](_ => 0);
      area := new Byte[LOG_AREA_SIZE](_ => 0);
      printer := new Printer();
      klogHead, klogTail, teeReadSeq := 0, 0, 0;
    }

    ghost predicate Valid()
      reads this, tee, tmp, area, printer, printer.linebuf
    {
      && tee.Length > 0 && tmp.Length == LOG_AREA_SIZE + 1 && area.Length == LOG_AREA_SIZE
      && tee != tmp && tee != area && tmp != area
      && printer.linebuf != tee && printer.linebuf != tmp && printer.linebuf != area
      && klogHead < LOG_AREA_SIZE && klogTail < LOG_AREA_SIZE && teeReadSeq < SEQ_WRAP
      && printer.Valid()
    }

    ghost function RingView(): Ring
      reads this, area
    {
      Ring(area[..], klogHead, klogTail)
    }

    ghost function Abstract(): Pipeline
      requires Valid()
      reads this, tee, tmp, area, printer, printer.linebuf
    {
      Pipeline(RingView().Window(), printer.Pending(), printer.console)
    }

    /** do_klog, called with the head and tail logd has read. */
    method DoKlog(rseq: nat, wseq: nat) returns (newReadSeq: nat)
      requires Valid() && rseq < SEQ_WRAP && wseq < SEQ_WRAP && FetchedCount(rseq, wseq) <= tee.Length
      modifies this`klogHead, this`klogTail, tmp, area, printer, printer.linebuf
      ensures Valid() && newReadSeq == wseq
      ensures RingView() == Store(old(RingView()), Fetched(old(tee[..]), rseq, wseq))
      ensures printer.Pending() == Feed(old(printer.Pending()), Fetched(old(tee[..]), rseq, wseq)).0
      ensures printer.console
        == old(printer.console) + Feed(old(printer.Pending()), Fetched(old(tee[..]), rseq, wseq)).1
      ensures FetchedCount(rseq, wseq) < LOG_AREA_SIZE ==>
        Abstract() == Pass(old(Abstract()), Fetched(old(tee[..]), rseq, wseq))
    {
      ghost var data := Fetched(tee[..], rseq, wseq);
      if |data| < LOG_AREA_SIZE { StoreKeepsLast(RingView(), data); }
      var count := Fetch(rseq, wseq);
      printer.PrintToKmsg(tmp, count);
      StoreTmp(count);
      newReadSeq := wseq;
    }

    /** The copy out of the secure world's ring. */
    method Fetch(rseq: nat, wseq: nat) returns (count: nat)
      requires Valid() && rseq < SEQ_WRAP && wseq < SEQ_WRAP && FetchedCount(rseq, wseq) <= tee.Length
      modifies tmp
      ensures count <= LOG_AREA_SIZE && tmp[..count] == Fetched(tee[..], rseq, wseq)
    {
      FetchStart(rseq, wseq);
      count := (wseq - rseq) % SEQ_WRAP;
      var idx;
      if count > LOG_AREA_SIZE {
        idx := LogSeq2idx((rseq + (count - LOG_AREA_SIZE)) % SEQ_WRAP, tee.Length);
        count := LOG_AREA_SIZE;
      } else {
        idx := LogSeq2idx(rseq, tee.Length);
      }
      CopyFromTee(idx, count);
    }

    /** The copy into the kernel ring, with the tail pushed on if it is in the way. */
    method StoreTmp(count: nat)
      requires Valid() && count <= LOG_AREA_SIZE
      modifies this`klogHead, this`klogTail, area
      ensures RingView() == Store(old(RingView()), tmp[..count])
    {
      var head, tail := klogHead, klogTail;
      var newTail := AdjustKlogTail(head, tail, count);
      CopyToArea(head, count);
      if newTail != tail { klogTail := newTail; }
      RingIndexIsMod(head + count);
      klogHead := (head + count) % LOG_AREA_SIZE;
    }

    method CopyFromTee(idx: nat, count: nat)
      requires Valid() && idx < tee.Length && count <= tee.Length && count <= LOG_AREA_SIZE
      modifies tmp
      ensures tmp[..count] == RingSlice(tee[..], idx, count)
    {
      if tee.Length - idx >= count {
        Memcpy(tmp, 0, tee, idx, count);
      } else {
        var first := tee.Length - idx;
        Memcpy(tmp, 0, tee, idx, first);
        assert tmp[..first] == tee[idx..];
        Memcpy(tmp, first, tee, 0, count - first);
        assert tmp[..first] == tee[idx..] && tmp[first..count] == tee[..count - first];
        assert tmp[..count] == tmp[..first] + tmp[first..count];
      }
    }

    /** do_ulog: the oldest unread bytes, at most count of them, into the reader's buffer. */
    method DoUlog(kbuf: array<Byte>, count: nat) returns (len: nat)
      requires Valid() && count <= kbuf.Length && kbuf != area
      modifies kbuf
      ensures len == if RingView().Used() < count then RingView().Used() else count
      ensures kbuf[..len] == RingView().Window()[..len]
    {
      var head, tail := klogHead, klogTail;
      RingIndexIsMod(head + LOG_AREA_SIZE - tail);
      len := (head + LOG_AREA_SIZE - tail) % LOG_AREA_SIZE;
      len := if len < count then len else count;
      CopyFromArea(kbuf, tail, len);
      SlicePrefix(area[..], tail, RingView().Used(), len);
    }

    method CopyFromArea(kbuf: array<Byte>, tail: nat, len: nat)
      requires area.Length == LOG_AREA_SIZE && tail < LOG_AREA_SIZE && len <= LOG_AREA_SIZE && len <= kbuf.Length
        && kbuf != area
      modifies kbuf
      ensures kbuf[..len] == RingSlice(area[..], tail, len)
    {
      if LOG_AREA_SIZE - tail > len {
        Memcpy(kbuf, 0, area, tail, len);
      } else {
        Memcpy(kbuf, 0, area, tail, LOG_AREA_SIZE - tail);
        Memcpy(kbuf, LOG_AREA_SIZE - tail, area, 0, len - (LOG_AREA_SIZE - tail));
      }
    }

    /** tee_log_read while no log arrives: what was copied out is taken off the window. */
    method Read(kbuf: array<Byte>, count: nat) returns (len: nat)
      requires Valid() && count <= kbuf.Length && kbuf != area && kbuf != tee && kbuf != tmp && kbuf != printer.linebuf
      modifies this`klogTail, kbuf
      ensures Valid() && len <= count && len <= old(RingView()).Used()
      ensures len == count || RingView().Window() == []
      ensures kbuf[..len] + RingView().Window() == old(RingView()).Window()
    {
      ghost var r := RingView();
      len := DoUlog(kbuf, count);
      ghost var taken := kbuf[..len];
      assert taken == r.Window()[..len];
      RingIndexIsMod(klogTail + len);
      klogTail := (klogTail + len) % LOG_AREA_SIZE;
      assert RingView() == r.(tail := RingIndex(r.tail + len));
      TakenOff(r, len);
    }

    /** One pass of logd once it has seen new sequence numbers. */
    method LogdPass(writeSeq: nat) returns (ghost data: seq<Byte>)
      requires Valid() && writeSeq < SEQ_WRAP
      modifies this, tmp, area, printer, printer.linebuf
      ensures Valid() && teeReadSeq == writeSeq && tee[..] == old(tee[..])
      ensures Took(old(tee[..]), old(teeReadSeq), writeSeq, data)
      ensures |data| <= LOG_AREA_SIZE && RingView() == Store(old(RingView()), data)
      ensures printer.Pending() == Feed(old(printer.Pending()), data).0
      ensures printer.console == old(printer.console) + Feed(old(printer.Pending()), data).1
      ensures |data| < LOG_AREA_SIZE ==> Abstract() == Pass(old(Abstract()), data)
    {
      var readSeq := Clamp(teeReadSeq, writeSeq);
      data := Fetched(tee[..], readSeq, writeSeq);
      FetchedIsTaken(tee[..], teeReadSeq, writeSeq);
      teeReadSeq := DoKlog(readSeq, writeSeq);
    }

    /** "Fix the overflow": no more than the ring of the secure world can hold. */
    method Clamp(readSeq0: nat, writeSeq: nat) returns (readSeq: nat)
      requires readSeq0 < SEQ_WRAP && writeSeq < SEQ_WRAP
      ensures readSeq == ClampedSeq(readSeq0, writeSeq, tee.Length) < SEQ_WRAP
      ensures FetchedCount(readSeq, writeSeq) <= tee.Length
    {
      readSeq := readSeq0;
      if (writeSeq - readSeq) % SEQ_WRAP > tee.Length {
        readSeq := (writeSeq - tee.Length) % SEQ_WRAP;
      }
      ClampedCount(readSeq0, writeSeq, tee.Length);
    }

    method CopyToArea(head: nat, count: nat)
      requires Valid() && head < LOG_AREA_SIZE && count <= LOG_AREA_SIZE
      modifies area
      ensures area[..] == RingWrite(old(area[..]), head, tmp[..count])
    {
      ghost var was, data := area[..], tmp[..count];
      if LOG_AREA_SIZE - head >= count {
        Memcpy(area, head, tmp, 0, count);
        assert tmp[0..count] == data;
      } else {
        var first := LOG_AREA_SIZE - head;
        Memcpy(area, head, tmp, 0, first);
        ghost var half := area[..];
        assert tmp[0..first] == data[..first] && tmp[first..count] == data[first..];
        Memcpy(area, 0, tmp, first, count - first);
        WrappedWrite(was, half, area[..], head, data);
      }
    }
  }

  /** The two copies of a write that wraps. */
  lemma WrappedWrite(was: seq<Byte>, half: seq<Byte>, now: seq<Byte>, head: nat, data: seq<Byte>)
    requires head < |was| && |data| <= |was| < head + |data|
    requires var first := |was| - head;
      half == was[..head] + data[..first] + was[|was|..] && now == half[..0] + data[first..] + half[|data| - first..]
    ensures now == RingWrite(was, head, data)
  {
    var first := |was| - head;
    var k := |data| - first;
    assert half == was[..head] + data[..first];
    BehindCut(was[..head], data[..first], k);
    assert was[..head][k..] == was[k..head];
    assert now == data[first..] + (was[k..head] + data[..first]);
    assert now == data[first..] + was[k..head] + data[..first];
  }

  lemma BehindCut(a: seq<Byte>, b: seq<Byte>, k: nat)
    requires k <= |a|
    ensures (a + b)[k..] == a[k..] + b
  {
  }

  lemma FetchStart(rseq: nat, wseq: nat)
    requires rseq < SEQ_WRAP && wseq < SEQ_WRAP
    ensures var n := (wseq - rseq) % SEQ_WRAP;
      (if n > LOG_AREA_SIZE then (rseq + (n - LOG_AREA_SIZE)) % SEQ_WRAP else rseq)
        == (wseq - FetchedCount(rseq, wseq)) % SEQ_WRAP
  {
  }

  /** Where logd starts reading when it has fallen more than a ring behind. */
  function ClampedSeq(readSeq: nat, writeSeq: nat, ringLength: nat): nat
    requires readSeq < SEQ_WRAP && writeSeq < SEQ_WRAP
  {
    if (writeSeq - readSeq) % SEQ_WRAP > ringLength then (writeSeq - ringLength) % SEQ_WRAP else readSeq
  }

  lemma SlicePrefix(s: seq<Byte>, i: nat, count: nat, len: nat)
    requires i < |s| && len <= count <= |s|
    ensures RingSlice(s, i, count)[..len] == RingSlice(s, i, len)
  {
  }

  lemma TakenOff(r: Ring, len: nat)
    requires r.Valid() && len <= r.Used()
    ensures r.(tail := RingIndex(r.tail + len)).Valid()
    ensures r.(tail := RingIndex(r.tail + len)).Window() == r.Window()[len..]
    ensures r.Window()[..len] + r.Window()[len..] == r.Window()
  {
  }
}
