/** Software interrupts, one register write for each run of selected cores of the same cluster. */
module SgiBatch {

  import opened Alignment

  /** cpu_logical_map: the MPIDR of each core, or the reset value for one that is not up. */
  type Table = seq<nat>

  const RESET: nat := 0xFFFF_FFFF_FFFF_FFFF
  const LIST_BITS: nat := 16

  /** The map of cores is an unsigned int, and a 1 is shifted by the core index. */
  const MAP_BITS: nat := 32

  datatype Option<T> = None | Some(value: T)

  /** One write: the cluster and the target list, whose bit a stands for the core with affinity a. */
  datatype Sgi = Sgi(cluster: nat, list: nat)

  function Aff0(mpidr: nat): nat { mpidr % 256 }
  function Cluster(mpidr: nat): nat { mpidr - mpidr % 256 }

  /** Bit a of a word. */
  predicate Bit(x: nat, a: nat)
  {
    if a == 0 then x % 2 == 1 else Bit(x / 2, a - 1)
  }

  /** x |= 1 << a. */
  function SetBit(x: nat, a: nat): nat
  {
    if a == 0 then x / 2 * 2 + 1 else SetBit(x / 2, a - 1) * 2 + x % 2
  }

  lemma {:induction false} SetBitSets(x: nat, a: nat, b: nat)
    ensures Bit(SetBit(x, a), b) <==> Bit(x, b) || a == b
  {
    if a > 0 && b > 0 { SetBitSets(x / 2, a - 1, b - 1); }
  }

  lemma {:induction false} NoBits(a: nat)
    ensures !Bit(0, a)
  {
    if a > 0 { NoBits(a - 1); }
  }

  lemma {:induction false} SetBitStays(x: nat, a: nat, n: nat)
    requires a < n && x < Pow2(n)
    ensures SetBit(x, a) < Pow2(n)
  {
    if a > 0 { SetBitStays(x / 2, a - 1, n - 1); }
  }

  /** The core is in the map and up. */
  predicate Selected(t: Table, m: nat, c: nat)
    requires c < |t|
  {
    Bit(m, c) && t[c] != RESET
  }

  // ---------------------------------------------------------------- the loops as functions

  /** The loop of compute_target_list from core c on: where it stops and the list it leaves. The
      list is a uint16_t, out of which a bit 16 falls. */
  function Gather(t: Table, m: nat, c: nat, cluster: nat, list: nat): (r: (nat, nat))
    requires c <= |t|
    decreases |t| - c
  {
    if c == |t| then (c, list)
    else if !Selected(t, m, c) then Gather(t, m, c + 1, cluster, list)
    else if Aff0(t[c]) > 16 || Cluster(t[c]) != cluster then (c, list)
    else Gather(t, m, c + 1, cluster, if Aff0(t[c]) < LIST_BITS then SetBit(list, Aff0(t[c])) else list)
  }

  /** The loop of irq_raise_softirq from core c on, for so many iterations at most. */
  function Raise(t: Table, m: nat, c: nat, iterations: nat): Option<seq<Sgi>>
    requires c <= |t|
    decreases iterations
  {
    if c == |t| then Some([])
    else if iterations == 0 then None
    else if !Selected(t, m, c) then Raise(t, m, c + 1, iterations - 1)
    else
      var (e, list) := Gather(t, m, c, Cluster(t[c]), 0);
      GatherStops(t, m, c, Cluster(t[c]), 0);
      match Raise(t, m, e, iterations - 1)
      case None => None
      case Some(rest) => Some([Sgi(Cluster(t[c]), list)] + rest)
  }

  /** Where the gathering stops: only cores of the cluster are passed, and the next one is not of it. */
  lemma {:induction false} GatherStops(t: Table, m: nat, c: nat, cluster: nat, list: nat)
    requires c <= |t|
    ensures var (e, l) := Gather(t, m, c, cluster, list);
      && c <= e <= |t|
      && (forall k :: c <= k < e && Selected(t, m, k) ==> Cluster(t[k]) == cluster && Aff0(t[k]) <= 16)
      && (e < |t| ==> Selected(t, m, e) && (Aff0(t[e]) > 16 || Cluster(t[e]) != cluster))
    decreases |t| - c
  {
    if c < |t| && (!Selected(t, m, c) || (Aff0(t[c]) <= 16 && Cluster(t[c]) == cluster)) {
      var list' := if Selected(t, m, c) && Aff0(t[c]) < LIST_BITS then SetBit(list, Aff0(t[c])) else list;
      GatherStops(t, m, c + 1, cluster, list');
    }
  }

  /** What is gathered: the affinities of the cores passed. */
  lemma {:induction false} GatherLists(t: Table, m: nat, c: nat, cluster: nat, list: nat, a: nat)
    requires c <= |t| && a < LIST_BITS && list < Pow2(LIST_BITS)
    ensures var (e, l) := Gather(t, m, c, cluster, list);
      && l < Pow2(LIST_BITS)
      && (Bit(l, a) <==> Bit(list, a) || exists k :: c <= k < e && k < |t| && Selected(t, m, k) && Aff0(t[k]) == a)
    decreases |t| - c
  {
    GatherStops(t, m, c, cluster, list);
    if c < |t| && (!Selected(t, m, c) || (Aff0(t[c]) <= 16 && Cluster(t[c]) == cluster)) {
      var list' := list;
      if Selected(t, m, c) && Aff0(t[c]) < LIST_BITS {
        list' := SetBit(list, Aff0(t[c]));
        SetBitSets(list, Aff0(t[c]), a);
        SetBitStays(list, Aff0(t[c]), LIST_BITS);
      }
      GatherLists(t, m, c + 1, cluster, list', a);
    }
  }

  // ---------------------------------------------------------------- termination

  predicate Wide(t: Table, m: nat, c: nat)
    requires c < |t|
  {
    Selected(t, m, c) && Aff0(t[c]) > 16
  }

  /** At a core whose affinity is over 16 the outer loop stays for ever. */
  lemma {:induction false} RaiseEnds(t: Table, m: nat, c: nat, n: nat)
    requires c <= |t|
    ensures Raise(t, m, c, n).Some? ==> forall k :: c <= k < |t| ==> !Wide(t, m, k)
    decreases n
  {
    if c < |t| && n > 0 {
      if Selected(t, m, c) {
        GatherStops(t, m, c, Cluster(t[c]), 0);
        RaiseEnds(t, m, Gather(t, m, c, Cluster(t[c]), 0).0, n - 1);
      } else {
        RaiseEnds(t, m, c + 1, n - 1);
      }
    }
  }

  lemma GatherAdvances(t: Table, m: nat, c: nat)
    requires c < |t| && Selected(t, m, c) && Aff0(t[c]) <= 16
    ensures Gather(t, m, c, Cluster(t[c]), 0).0 > c
  {
    var list := if Aff0(t[c]) < LIST_BITS then SetBit(0, Aff0(t[c])) else 0;
    GatherStops(t, m, c + 1, Cluster(t[c]), list);
  }

  lemma {:induction false} NarrowEnds(t: Table, m: nat, c: nat, n: nat)
    requires c <= |t| && n >= |t| - c && forall k :: c <= k < |t| ==> !Wide(t, m, k)
    ensures Raise(t, m, c, n).Some?
    decreases n
  {
    if c < |t| {
      if Selected(t, m, c) {
        assert !Wide(t, m, c);
        GatherStops(t, m, c, Cluster(t[c]), 0);
        GatherAdvances(t, m, c);
        NarrowEnds(t, m, Gather(t, m, c, Cluster(t[c]), 0).0, n - 1);
      } else {
        NarrowEnds(t, m, c + 1, n - 1);
      }
    }
  }

  /** irq_raise_softirq comes to an end exactly when no core that is up and in the map has an
      affinity over 16; then it needs one iteration for each core at most. A table has
      no more cores than the map has bits, which is also fewer than the uint8_t index can count. */
  lemma TerminatesIff(t: Table, m: nat)
    requires |t| <= MAP_BITS
    ensures (exists n :: Raise(t, m, 0, n).Some?) <==> forall k :: 0 <= k < |t| ==> !Wide(t, m, k)
    ensures (exists n :: Raise(t, m, 0, n).Some?) ==> Raise(t, m, 0, |t|).Some?
  {
    if n :| Raise(t, m, 0, n).Some? { RaiseEnds(t, m, 0, n); }
    if forall k :: 0 <= k < |t| ==> !Wide(t, m, k) { NarrowEnds(t, m, 0, |t|); }
  }

  // ---------------------------------------------------------------- delivery

  /** The write signals the core with this affinity in this cluster. */
  predicate Signals(s: Sgi, cluster: nat, a: nat)
  {
    s.cluster == cluster && a < LIST_BITS && Bit(s.list, a)
  }

  /** Core k is selected, in the cluster and with the affinity. */
  predicate Is(t: Table, m: nat, k: nat, cluster: nat, a: nat)
    requires k < |t|
  {
    Selected(t, m, k) && Cluster(t[k]) == cluster && Aff0(t[k]) == a
  }

  /** The first write signals the cores it passes. */
  lemma FirstSignals(t: Table, m: nat, c: nat, cluster: nat, a: nat)
    requires c < |t| && Selected(t, m, c)
    ensures var (e, list) := Gather(t, m, c, Cluster(t[c]), 0); (
      && e <= |t|
      && (Signals(Sgi(Cluster(t[c]), list), cluster, a)
        <==> a < LIST_BITS && exists k :: c <= k < e && Is(t, m, k, cluster, a)))
  {
    var own := Cluster(t[c]);
    GatherStops(t, m, c, own, 0);
    if a < LIST_BITS {
      GatherLists(t, m, c, own, 0, a);
      NoBits(a);
      var (e, list) := Gather(t, m, c, own, 0);
      SameCores(t, m, c, e, own, a);
      if cluster != own {
        forall k | c <= k < e ensures !Is(t, m, k, cluster, a) { assert Selected(t, m, k) ==> Cluster(t[k]) == own; }
      }
    }
  }

  /** Where all selected cores are of one cluster, the affinity tells the core. */
  lemma SameCores(t: Table, m: nat, c: nat, e: nat, own: nat, a: nat)
    requires e <= |t| && forall k :: c <= k < e && Selected(t, m, k) ==> Cluster(t[k]) == own
    ensures (exists k :: c <= k < e && k < |t| && Selected(t, m, k) && Aff0(t[k]) == a)
      <==> exists k :: c <= k < e && Is(t, m, k, own, a)
  {
    if k :| c <= k < e && k < |t| && Selected(t, m, k) && Aff0(t[k]) == a { assert Is(t, m, k, own, a); }
  }

  lemma FirstAndRest(s: seq<Sgi>, cluster: nat, a: nat)
    requires s != []
    ensures (exists j :: 0 <= j < |s| && Signals(s[j], cluster, a))
      <==> Signals(s[0], cluster, a) || exists j :: 0 <= j < |s[1..]| && Signals(s[1..][j], cluster, a)
  {
    if j :| 0 <= j < |s[1..]| && Signals(s[1..][j], cluster, a) { assert Signals(s[j + 1], cluster, a); }
    if j :| 0 <= j < |s| && Signals(s[j], cluster, a) { assert j == 0 || Signals(s[1..][j - 1], cluster, a); }
  }

  /** The writes signal exactly the selected cores with an affinity below 16. */
  lemma {:induction false} Delivery(t: Table, m: nat, c: nat, n: nat, s: seq<Sgi>, cluster: nat, a: nat)
    requires c <= |t| && Raise(t, m, c, n) == Some(s)
    ensures (exists j :: 0 <= j < |s| && Signals(s[j], cluster, a))
      <==> a < LIST_BITS && exists k :: c <= k < |t| && Is(t, m, k, cluster, a)
    decreases n
  {
    if c < |t| {
      if Selected(t, m, c) {
        var (e, list) := Gather(t, m, c, Cluster(t[c]), 0);
        GatherStops(t, m, c, Cluster(t[c]), 0);
        Delivery(t, m, e, n - 1, s[1..], cluster, a);
        FirstSignals(t, m, c, cluster, a);
        FirstAndRest(s, cluster, a);
        assert s[0] == Sgi(Cluster(t[c]), list);
      } else {
        Delivery(t, m, c + 1, n - 1, s, cluster, a);
      }
    }
  }

  predicate DistinctCores(t: Table, m: nat)
  {
    forall j, k :: 0 <= j < k < |t| && Selected(t, m, j) && Selected(t, m, k) ==> t[j] != t[k]
  }

  lemma OnlyCore(t: Table, m: nat, k: nat, l: nat, cluster: nat, a: nat)
    requires DistinctCores(t, m) && k < l < |t| && Is(t, m, k, cluster, a)
    ensures !Is(t, m, l, cluster, a)
  {
    assert t[k] == cluster + a;
  }

  /** No core is signalled twice. */
  lemma {:induction false} DeliveredOnce(t: Table, m: nat, c: nat, n: nat, s: seq<Sgi>, cluster: nat, a: nat, i: nat,
      j: nat)
    requires c <= |t| && Raise(t, m, c, n) == Some(s) && DistinctCores(t, m)
    requires i < j < |s| && Signals(s[i], cluster, a)
    ensures !Signals(s[j], cluster, a)
    decreases n
  {
    if Selected(t, m, c) {
      var (e, list) := Gather(t, m, c, Cluster(t[c]), 0);
      GatherStops(t, m, c, Cluster(t[c]), 0);
      if i > 0 {
        DeliveredOnce(t, m, e, n - 1, s[1..], cluster, a, i - 1, j - 1);
      } else {
        FirstSignals(t, m, c, cluster, a);
        Delivery(t, m, e, n - 1, s[1..], cluster, a);
        var k :| c <= k < e && Is(t, m, k, cluster, a);
        forall l | e <= l < |t| ensures !Is(t, m, l, cluster, a) { OnlyCore(t, m, k, l, cluster, a); }
        assert s[j] == s[1..][j - 1];
      }
    } else {
      DeliveredOnce(t, m, c + 1, n - 1, s, cluster, a, i, j);
    }
  }

  /** Every selected core gets the interrupt exactly when none has an affinity of 16, whose bit is
      lost: with one that has, the call ends normally and that core hears nothing. */
  lemma AllSignalledIff(t: Table, m: nat, n: nat, s: seq<Sgi>)
    requires Raise(t, m, 0, n) == Some(s)
    ensures (forall k :: 0 <= k < |t| && Selected(t, m, k) ==>
      exists j :: 0 <= j < |s| && Signals(s[j], Cluster(t[k]), Aff0(t[k])))
      <==> forall k :: 0 <= k < |t| && Selected(t, m, k) ==> Aff0(t[k]) < 16
  {
    forall k | 0 <= k < |t| && Selected(t, m, k)
      ensures (exists j :: 0 <= j < |s| && Signals(s[j], Cluster(t[k]), Aff0(t[k]))) <==> Aff0(t[k]) < 16
    {
      Delivery(t, m, 0, n, s, Cluster(t[k]), Aff0(t[k]));
      assert Is(t, m, k, Cluster(t[k]), Aff0(t[k]));
    }
  }

  // ---------------------------------------------------------------- how many writes

  /** The selected cores from c on that follow a core of another cluster, or none. */
  function RunStarts(t: Table, m: nat, c: nat, before: Option<nat>): nat
    requires c <= |t|
    decreases |t| - c
  {
    if c == |t| then 0
    else if !Selected(t, m, c) then RunStarts(t, m, c + 1, before)
    else (if before == Some(Cluster(t[c])) then 0 else 1) + RunStarts(t, m, c + 1, Some(Cluster(t[c])))
  }

  /** No run starts among the cores that one write passes. */
  lemma {:induction false} PassedStarts(t: Table, m: nat, c: nat, cluster: nat, list: nat)
    requires c <= |t| && forall k :: c <= k < |t| ==> !Wide(t, m, k)
    ensures var e := Gather(t, m, c, cluster, list).0; (
      && e <= |t| && RunStarts(t, m, c, Some(cluster)) == RunStarts(t, m, e, None))
    decreases |t| - c
  {
    GatherStops(t, m, c, cluster, list);
    if c < |t| && (!Selected(t, m, c) || (Aff0(t[c]) <= 16 && Cluster(t[c]) == cluster)) {
      var list' := if Selected(t, m, c) && Aff0(t[c]) < LIST_BITS then SetBit(list, Aff0(t[c])) else list;
      PassedStarts(t, m, c + 1, cluster, list');
    } else if c < |t| {
      assert !Wide(t, m, c);
    }
  }

  /** There is one write for each maximal run of selected cores of a cluster. */
  lemma {:induction false} OneWritePerRun(t: Table, m: nat, c: nat, n: nat, s: seq<Sgi>)
    requires c <= |t| && Raise(t, m, c, n) == Some(s)
    ensures |s| == RunStarts(t, m, c, None)
    decreases n
  {
    RaiseEnds(t, m, c, n);
    if c < |t| {
      if Selected(t, m, c) {
        var cluster := Cluster(t[c]);
        GatherStops(t, m, c, cluster, 0);
        OneWritePerRun(t, m, Gather(t, m, c, cluster, 0).0, n - 1, s[1..]);
        PassedStarts(t, m, c, cluster, 0);
      } else {
        OneWritePerRun(t, m, c + 1, n - 1, s);
      }
    }
  }

  /** The cores of a cluster follow one another, but for cores that are not selected. */
  predicate Contiguous(t: Table, m: nat)
  {
    forall i, j, k :: 0 <= i < j < k < |t| && Selected(t, m, i) && Selected(t, m, j) && Selected(t, m, k) ==>
      Cluster(t[i]) == Cluster(t[k]) ==> Cluster(t[j]) == Cluster(t[i])
  }

  /** A write is to the cluster of a core. */
  lemma {:induction false} WriteHasCore(t: Table, m: nat, c: nat, n: nat, s: seq<Sgi>, j: nat) returns (k: nat)
    requires c <= |t| && Raise(t, m, c, n) == Some(s) && j < |s|
    ensures c <= k < |t| && Selected(t, m, k) && Cluster(t[k]) == s[j].cluster
    decreases n
  {
    if !Selected(t, m, c) {
      k := WriteHasCore(t, m, c + 1, n - 1, s, j);
    } else if j == 0 {
      k := c;
    } else {
      GatherStops(t, m, c, Cluster(t[c]), 0);
      k := WriteHasCore(t, m, Gather(t, m, c, Cluster(t[c]), 0).0, n - 1, s[1..], j - 1);
    }
  }

  /** With contiguous clusters no cluster is written to twice. */
  lemma {:induction false} OneWritePerCluster(t: Table, m: nat, c: nat, n: nat, s: seq<Sgi>, i: nat, j: nat)
    requires c <= |t| && Raise(t, m, c, n) == Some(s) && Contiguous(t, m) && i < j < |s|
    ensures s[i].cluster != s[j].cluster
    decreases n
  {
    if !Selected(t, m, c) {
      OneWritePerCluster(t, m, c + 1, n - 1, s, i, j);
    } else {
      var e := Gather(t, m, c, Cluster(t[c]), 0).0;
      GatherStops(t, m, c, Cluster(t[c]), 0);
      if i > 0 {
        OneWritePerCluster(t, m, e, n - 1, s[1..], i - 1, j - 1);
      } else {
        var k := WriteHasCore(t, m, e, n - 1, s[1..], j - 1);
        RaiseEnds(t, m, e, n - 1);
        assert !Wide(t, m, e);
        assert s[0].cluster == Cluster(t[c]) && c < e <= k;
      }
    }
  }

  // ---------------------------------------------------------------- the register

  /** gic_send_sgi: the value of ICC_SGI0R_EL1. The interrupt number is shifted in 32 bits. */
  function Word(irq: nat, s: Sgi): nat
  {
    irq % 256 * 0x100_0000 + s.cluster / 256 % 256 * 0x1_0000 + s.list
  }

  /** The fields of ICC_SGI0R_EL1. */
  function TargetList(w: nat): nat { w % 0x1_0000 }
  function TargetAff1(w: nat): nat { w / 0x1_0000 % 0x100 }
  function IntId(w: nat): nat { w / 0x100_0000 % 16 }
  function TargetAff2(w: nat): nat { w / 0x1_0000_0000 % 0x100 }
  function TargetAff3(w: nat): nat { w / 0x1_0000_0000_0000 % 0x100 }

  /** The fields come out as they went in; INTID has four bits, and Aff2 and Aff3 are always 0. */
  lemma WordFields(irq: nat, s: Sgi)
    requires s.list < 0x1_0000
    ensures var w := Word(irq, s);
      && TargetList(w) == s.list && TargetAff1(w) == s.cluster / 256 % 256
      && TargetAff2(w) == 0 && TargetAff3(w) == 0
      && (IntId(w) == irq <==> irq < 16)
  {
    assert Word(irq, s) < 0x1_0000_0000;
    assert Word(irq, s) / 0x100_0000 == irq % 256;
  }

  function Words(irq: nat, s: seq<Sgi>): (w: seq<nat>)
    ensures |w| == |s|
  {
    if s == [] then [] else [Word(irq, s[0])] + Words(irq, s[1..])
  }

  lemma {:induction false} WordsAppend(irq: nat, s: seq<Sgi>, x: Sgi)
    ensures Words(irq, s + [x]) == Words(irq, s) + [Word(irq, x)]
  {
    if s != [] {
      assert (s + [x])[0] == s[0] && (s + [x])[1..] == s[1..] + [x];
      WordsAppend(irq, s[1..], x);
    }
  }

  // ---------------------------------------------------------------- the cores that the words name

  function Aff1(mpidr: nat): nat { mpidr / 0x100 % 0x100 }
  function Aff2(mpidr: nat): nat { mpidr / 0x1_0000 % 0x100 }
  function Aff3(mpidr: nat): nat { mpidr / 0x1_0000_0000 % 0x100 }

  /** A write of the word interrupts the core: its affinities are the fields of the word, and bit
      Aff0 of the target list is set. */
  predicate Names(w: nat, mpidr: nat)
  {
    && TargetAff3(w) == Aff3(mpidr) && TargetAff2(w) == Aff2(mpidr) && TargetAff1(w) == Aff1(mpidr)
    && Aff0(mpidr) < LIST_BITS && Bit(TargetList(w), Aff0(mpidr))
  }

  lemma {:induction false} WordsAt(irq: nat, s: seq<Sgi>, j: nat)
    requires j < |s|
    ensures Words(irq, s)[j] == Word(irq, s[j])
  {
    if j > 0 { WordsAt(irq, s[1..], j - 1); }
  }

  lemma {:induction false} ListFits(t: Table, m: nat, c: nat, n: nat, s: seq<Sgi>, j: nat)
    requires c <= |t| && Raise(t, m, c, n) == Some(s) && j < |s|
    ensures s[j].list < 0x1_0000
    decreases n
  {
    if !Selected(t, m, c) {
      ListFits(t, m, c + 1, n - 1, s, j);
    } else {
      GatherStops(t, m, c, Cluster(t[c]), 0);
      if j > 0 {
        ListFits(t, m, Gather(t, m, c, Cluster(t[c]), 0).0, n - 1, s[1..], j - 1);
      } else {
        GatherLists(t, m, c, Cluster(t[c]), 0, 0);
        assert Pow2(8) == 0x100 && Pow2(16) == 0x1_0000;
      }
    }
  }

  lemma ClusterAff1(mpidr: nat)
    ensures Cluster(mpidr) / 256 % 256 == Aff1(mpidr)
  {
    assert Cluster(mpidr) / 256 == mpidr / 256;
  }

  /** One word names a core whose upper affinities are 0 and that its write signals. */
  lemma WordNames(irq: nat, s: Sgi, x: nat)
    requires s.list < 0x1_0000
    ensures Names(Word(irq, s), x)
      <==> Aff3(x) == 0 && Aff2(x) == 0 && Aff1(x) == s.cluster / 256 % 256 && Signals(s, s.cluster, Aff0(x))
  {
    WordFields(irq, s);
  }

  /** Core k is selected and has the lower affinities of x. */
  predicate Twin(t: Table, m: nat, k: nat, x: nat)
    requires k < |t|
  {
    Selected(t, m, k) && Aff1(t[k]) == Aff1(x) && Aff0(t[k]) == Aff0(x)
  }

  lemma NamedHasTwin(t: Table, m: nat, n: nat, s: seq<Sgi>, irq: nat, x: nat, j: nat) returns (k: nat)
    requires Raise(t, m, 0, n) == Some(s) && j < |s| && Names(Words(irq, s)[j], x)
    ensures Aff3(x) == 0 && Aff2(x) == 0 && Aff0(x) < LIST_BITS && Signals(s[j], s[j].cluster, Aff0(x))
    ensures k < |t| && Twin(t, m, k, x) && Cluster(t[k]) == s[j].cluster
  {
    WordsAt(irq, s, j);
    ListFits(t, m, 0, n, s, j);
    WordNames(irq, s[j], x);
    Delivery(t, m, 0, n, s, s[j].cluster, Aff0(x));
    k :| 0 <= k < |t| && Is(t, m, k, s[j].cluster, Aff0(x));
    ClusterAff1(t[k]);
  }

  /** The write to the cluster of a selected core names what has its lower affinities. */
  lemma TwinIsNamed(t: Table, m: nat, n: nat, s: seq<Sgi>, irq: nat, x: nat, k: nat) returns (j: nat)
    requires Raise(t, m, 0, n) == Some(s)
    requires Aff3(x) == 0 && Aff2(x) == 0 && Aff0(x) < LIST_BITS && k < |t| && Twin(t, m, k, x)
    ensures j < |s| && s[j].cluster == Cluster(t[k]) && Names(Words(irq, s)[j], x)
  {
    Delivery(t, m, 0, n, s, Cluster(t[k]), Aff0(x));
    assert Is(t, m, k, Cluster(t[k]), Aff0(x));
    j :| 0 <= j < |s| && Signals(s[j], Cluster(t[k]), Aff0(x));
    WordsAt(irq, s, j);
    ListFits(t, m, 0, n, s, j);
    ClusterAff1(t[k]);
    WordNames(irq, s[j], x);
  }

  ghost predicate Named(words: seq<nat>, x: nat) { exists j :: 0 <= j < |words| && Names(words[j], x) }

  predicate Up(t: Table, k: nat)
    requires k < |t|
  {
    t[k] != RESET
  }

  /** No two cores that are up have the same affinities. */
  predicate DistinctAffinities(t: Table)
  {
    forall j, k :: 0 <= j < k < |t| && Up(t, j) && Up(t, k) ==>
      Aff0(t[j]) != Aff0(t[k]) || Aff1(t[j]) != Aff1(t[k]) || Aff2(t[j]) != Aff2(t[k]) || Aff3(t[j]) != Aff3(t[k])
  }

  /** The affinities that the words of the source can express. */
  predicate Reachable(mpidr: nat) { Aff0(mpidr) < LIST_BITS && Aff2(mpidr) == 0 && Aff3(mpidr) == 0 }

  /** Of the cores that are up, the words written name exactly those that were selected, if and only
      if every one selected has affinities that a word can express. */
  lemma WordsNameSelectedIff(t: Table, m: nat, n: nat, s: seq<Sgi>, irq: nat)
    requires Raise(t, m, 0, n) == Some(s) && DistinctAffinities(t)
    ensures (forall k :: 0 <= k < |t| && Up(t, k) ==> (Named(Words(irq, s), t[k]) <==> Selected(t, m, k)))
      <==> forall k :: 0 <= k < |t| && Selected(t, m, k) ==> Reachable(t[k])
  {
    forall k | 0 <= k < |t| && Selected(t, m, k) ensures Named(Words(irq, s), t[k]) <==> Reachable(t[k]) {
      SelectedNamedIff(t, m, n, s, irq, k);
    }
    if forall k :: 0 <= k < |t| && Selected(t, m, k) ==> Reachable(t[k]) {
      forall k | 0 <= k < |t| && Up(t, k) && !Selected(t, m, k) ensures !Named(Words(irq, s), t[k]) {
        OthersNotNamed(t, m, n, s, irq, k);
      }
    } else {
      var k :| 0 <= k < |t| && Selected(t, m, k) && !Reachable(t[k]);
      assert Up(t, k);
    }
  }

  lemma SelectedNamedIff(t: Table, m: nat, n: nat, s: seq<Sgi>, irq: nat, k: nat)
    requires Raise(t, m, 0, n) == Some(s) && k < |t| && Selected(t, m, k)
    ensures Named(Words(irq, s), t[k]) <==> Reachable(t[k])
  {
    if Reachable(t[k]) {
      var j := TwinIsNamed(t, m, n, s, irq, t[k], k);
    }
    if Named(Words(irq, s), t[k]) {
      var j :| 0 <= j < |Words(irq, s)| && Names(Words(irq, s)[j], t[k]);
      var i := NamedHasTwin(t, m, n, s, irq, t[k], j);
    }
  }

  lemma OthersNotNamed(t: Table, m: nat, n: nat, s: seq<Sgi>, irq: nat, k: nat)
    requires Raise(t, m, 0, n) == Some(s) && k < |t| && Up(t, k) && !Selected(t, m, k) && DistinctAffinities(t)
    requires forall i :: 0 <= i < |t| && Selected(t, m, i) ==> Reachable(t[i])
    ensures !Named(Words(irq, s), t[k])
  {
    if Named(Words(irq, s), t[k]) {
      var j :| 0 <= j < |Words(irq, s)| && Names(Words(irq, s)[j], t[k]);
      var i := NamedHasTwin(t, m, n, s, irq, t[k], j);
      assert Reachable(t[i]) && Up(t, i) && i != k;
      assert false;
    }
  }

  /** Two selected cores that a word cannot tell apart. */
  predicate Twins(t: Table, m: nat, j: nat, k: nat)
    requires j < |t| && k < |t|
  {
    Selected(t, m, j) && Selected(t, m, k) && Aff0(t[j]) < LIST_BITS && Aff0(t[j]) == Aff0(t[k])
      && Aff1(t[j]) == Aff1(t[k])
  }

  ghost predicate NamedTwice(words: seq<nat>, x: nat)
  {
    exists i, j :: 0 <= i < j < |words| && Names(words[i], x) && Names(words[j], x)
  }

  lemma TwiceHasTwins(t: Table, m: nat, n: nat, s: seq<Sgi>, irq: nat, x: nat, i: nat, j: nat) returns (k: nat, l: nat)
    requires Raise(t, m, 0, n) == Some(s) && DistinctCores(t, m)
    requires i < j < |s| && Names(Words(irq, s)[i], x) && Names(Words(irq, s)[j], x)
    ensures k < |t| && l < |t| && k != l && Twins(t, m, k, l)
  {
    k := NamedHasTwin(t, m, n, s, irq, x, i);
    l := NamedHasTwin(t, m, n, s, irq, x, j);
    if s[i].cluster == s[j].cluster {
      DeliveredOnce(t, m, 0, n, s, s[i].cluster, Aff0(x), i, j);
    }
  }

  /** Two cores that a word cannot tell apart, and that are not one, are in different clusters. */
  lemma TwinsNamedTwice(t: Table, m: nat, n: nat, s: seq<Sgi>, irq: nat, j: nat, k: nat) returns (x: nat)
    requires Raise(t, m, 0, n) == Some(s) && DistinctCores(t, m) && j < |t| && k < |t| && j != k && Twins(t, m, j, k)
    ensures NamedTwice(Words(irq, s), x)
  {
    x := Aff1(t[j]) * 0x100 + Aff0(t[j]);
    PlainAffinities(Aff1(t[j]), Aff0(t[j]));
    var i := TwinIsNamed(t, m, n, s, irq, x, j);
    var l := TwinIsNamed(t, m, n, s, irq, x, k);
    assert t[j] != t[k];
    assert i != l;
    if i < l { assert Names(Words(irq, s)[i], x) && Names(Words(irq, s)[l], x); }
  }

  lemma PlainAffinities(a1: nat, a0: nat)
    requires a1 < 0x100 && a0 < 0x100
    ensures var x := a1 * 0x100 + a0; Aff0(x) == a0 && Aff1(x) == a1 && Aff2(x) == 0 && Aff3(x) == 0
  {
  }

  ghost predicate HasTwins(t: Table, m: nat)
  {
    exists j, k :: 0 <= j < |t| && 0 <= k < |t| && j != k && Twins(t, m, j, k)
  }

  lemma OnlyTwinsTwice(t: Table, m: nat, n: nat, s: seq<Sgi>, irq: nat, x: nat)
    requires Raise(t, m, 0, n) == Some(s) && DistinctCores(t, m) && NamedTwice(Words(irq, s), x)
    ensures HasTwins(t, m)
  {
    var i, j :| 0 <= i < j < |Words(irq, s)| && Names(Words(irq, s)[i], x) && Names(Words(irq, s)[j], x);
    var k, l := TwiceHasTwins(t, m, n, s, irq, x, i, j);
  }

  /** Some core is named by two words if and only if two selected cores differ only in what a word
      does not carry, which is all but the affinities 0 and 1. */
  lemma NamedTwiceIff(t: Table, m: nat, n: nat, s: seq<Sgi>, irq: nat)
    requires Raise(t, m, 0, n) == Some(s) && DistinctCores(t, m)
    ensures (exists x: nat :: NamedTwice(Words(irq, s), x)) <==> HasTwins(t, m)
  {
    if x: nat :| NamedTwice(Words(irq, s), x) { OnlyTwinsTwice(t, m, n, s, irq, x); }
    if HasTwins(t, m) { TwinsAreNamed(t, m, n, s, irq); }
  }

  lemma TwinsAreNamed(t: Table, m: nat, n: nat, s: seq<Sgi>, irq: nat)
    requires Raise(t, m, 0, n) == Some(s) && DistinctCores(t, m) && HasTwins(t, m)
    ensures exists x: nat :: NamedTwice(Words(irq, s), x)
  {
    var j, k :| 0 <= j < |t| && 0 <= k < |t| && j != k && Twins(t, m, j, k);
    var x := TwinsNamedTwice(t, m, n, s, irq, j, k);
  }

  // ---------------------------------------------------------------- the loops

  /** compute_target_list: cpu is moved to the last core passed, as a uint8_t. */
  method ComputeTargetList(t: Table, cpu: nat, m: nat, clusterId: nat) returns (newCpu: nat, tlist: nat)
    requires cpu < |t| <= MAP_BITS
    ensures newCpu < 256
    ensures ((newCpu + 1) % 256, tlist) == Gather(t, m, cpu, clusterId, 0)
  {
    tlist := 0;
    var targetCpu := cpu;
    while targetCpu < |t|
      invariant cpu <= targetCpu <= |t|
      invariant Gather(t, m, targetCpu, clusterId, tlist) == Gather(t, m, cpu, clusterId, 0)
    {
      var mpidr := t[targetCpu];
      if Bit(m, targetCpu) && mpidr != RESET {
        if mpidr % 256 > 16 { break; }
        if Cluster(mpidr) != clusterId { break; }
        if mpidr % 256 < LIST_BITS { tlist := SetBit(tlist, mpidr % 256); }
      }
      targetCpu := targetCpu + 1;
    }
    newCpu := (targetCpu + 255) % 256;
  }

  lemma {:induction false} RaiseStable(t: Table, m: nat, c: nat, n: nat, k: nat)
    requires c <= |t| && Raise(t, m, c, n).Some? && k >= n
    ensures Raise(t, m, c, k) == Raise(t, m, c, n)
    decreases n
  {
    if c < |t| {
      if Selected(t, m, c) {
        GatherStops(t, m, c, Cluster(t[c]), 0);
        RaiseStable(t, m, Gather(t, m, c, Cluster(t[c]), 0).0, n - 1, k - 1);
      } else {
        RaiseStable(t, m, c + 1, n - 1, k - 1);
      }
    }
  }

  /** The values that are still to be written from core c on complete those written to the goal. */
  ghost predicate ToGo(t: Table, m: nat, c: nat, sofar: seq<Sgi>, goal: seq<Sgi>)
  {
    c <= |t| && exists rest :: Raise(t, m, c, |t| - c) == Some(rest) && sofar + rest == goal
  }

  lemma ToGoSkips(t: Table, m: nat, c: nat, sofar: seq<Sgi>, goal: seq<Sgi>)
    requires ToGo(t, m, c, sofar, goal) && c < |t| && !Selected(t, m, c)
    ensures ToGo(t, m, c + 1, sofar, goal)
  {
  }

  lemma ToGoWrites(t: Table, m: nat, c: nat, sofar: seq<Sgi>, goal: seq<Sgi>)
    requires ToGo(t, m, c, sofar, goal) && c < |t| && Selected(t, m, c)
    ensures var (e, list) := Gather(t, m, c, Cluster(t[c]), 0);
      c < e && ToGo(t, m, e, sofar + [Sgi(Cluster(t[c]), list)], goal)
  {
    var (e, list) := Gather(t, m, c, Cluster(t[c]), 0);
    var rest :| Raise(t, m, c, |t| - c) == Some(rest) && sofar + rest == goal;
    RaiseEnds(t, m, c, |t| - c);
    assert !Wide(t, m, c);
    GatherStops(t, m, c, Cluster(t[c]), 0);
    GatherAdvances(t, m, c);
    RaiseEnds(t, m, e, |t| - c - 1);
    NarrowEnds(t, m, e, |t| - e);
    RaiseStable(t, m, e, |t| - e, |t| - c - 1);
    assert rest == [Sgi(Cluster(t[c]), list)] + rest[1..];
    assert sofar + [Sgi(Cluster(t[c]), list)] + rest[1..] == goal;
  }

  /** One turn of the loop at a selected core: the write for its cluster. */
  method GatherCluster(t: Table, cpu: nat, m: nat, ghost sofar: seq<Sgi>, ghost goal: seq<Sgi>)
    returns (newCpu: nat, sgi: Sgi)
    requires cpu < |t| <= MAP_BITS && Selected(t, m, cpu) && ToGo(t, m, cpu, sofar, goal)
    ensures newCpu < 256 && cpu < (newCpu + 1) % 256 && ToGo(t, m, (newCpu + 1) % 256, sofar + [sgi], goal)
  {
    ToGoWrites(t, m, cpu, sofar, goal);
    var clusterId := Cluster(t[cpu]);
    var tlist;
    newCpu, tlist := ComputeTargetList(t, cpu, m, clusterId);
    sgi := Sgi(clusterId, tlist);
  }

  /** irq_raise_softirq, where it ends: the values written to the register, in order. */
  method IrqRaiseSoftirq(t: Table, m: nat, irq: nat) returns (sent: seq<nat>)
    requires |t| <= MAP_BITS && forall k :: 0 <= k < |t| ==> !Wide(t, m, k)
    ensures Raise(t, m, 0, |t|).Some? && sent == Words(irq, Raise(t, m, 0, |t|).value)
  {
    NarrowEnds(t, m, 0, |t|);
    ghost var goal := Raise(t, m, 0, |t|).value;
    ghost var sgis: seq<Sgi> := [];
    sent := [];
    var cpu := 0;
    assert sgis + goal == goal;
    while cpu < |t|
      invariant ToGo(t, m, cpu, sgis, goal) && sent == Words(irq, sgis)
      decreases |t| - cpu
    {
      if Bit(m, cpu) && t[cpu] != RESET {
        var sgi;
        cpu, sgi := GatherCluster(t, cpu, m, sgis, goal);
        WordsAppend(irq, sgis, sgi);
        sent := sent + [Word(irq, sgi)];
        sgis := sgis + [sgi];
      } else {
        ToGoSkips(t, m, cpu, sgis, goal);
      }
      cpu := (cpu + 1) % 256;
    }
    assert sgis + [] == sgis;
  }
}
