/** The wire format of a keymaster parameter set: what marshal writes and what
    unmarshal_param_set reads back, byte by byte. */
module KeymasterCodec {

  type Byte = b: int | 0 <= b < 256
  const U32: nat := 0x1_0000_0000
  const U64: nat := 0x1_0000_0000_0000_0000

  /** sizeof(_keymaster_key_param_t): a 4-byte tag, 4 bytes of padding, a 16-byte union. */
  const RECORD: nat := 24

  /** The answers of keymaster_tag_get_type, which belongs to Android. */
  datatype Kind = Enum | EnumRep | Uint | UintRep | Ulong | UlongRep | Date | Bool | Bignum | Bytes | Other

  /** The member of the value union that a kind selects. A blob carries its length field and the
      bytes it points to; they differ only in what unmarshal makes of a length over 32 bits. */
  datatype Value =
    | Word(w: nat)
    | Long(l: nat)
    | Flag(b: bool)
    | Blob(length: nat, data: seq<Byte>)
    | NoValue

  datatype Param = Param(tag: nat, value: Value)

  type Classify = nat -> Kind

  predicate ValueFits(k: Kind, v: Value)
  {
    match k
    case Enum | EnumRep | Uint | UintRep => v.Word? && v.w < U32
    case Ulong | UlongRep | Date => v.Long? && v.l < U64
    case Bool => v.Flag?
    case Bignum | Bytes => v.Blob? && v.length == |v.data| && v.length < U64
    case Other => v.NoValue?
  }

  predicate ParamFits(kind: Classify, p: Param)
  {
    p.tag < U32 && ValueFits(kind(p.tag), p.value)
  }

  predicate AllFit(kind: Classify, ps: seq<Param>)
  {
    forall i :: 0 <= i < |ps| ==> ParamFits(kind, ps[i])
  }

  // ---------------------------------------------------------------- little endian

  function Le32(x: nat): (s: seq<Byte>)
    requires x < U32
    ensures |s| == 4
  {
    [x % 256, x / 256 % 256, x / 256 / 256 % 256, x / 256 / 256 / 256]
  }

  function FromLe32(s: seq<Byte>): (x: nat)
    requires |s| == 4
    ensures x < U32
  {
    var a: int, b: int, c: int, d: int := s[0], s[1], s[2], s[3];
    a + 256 * (b + 256 * (c + 256 * d))
  }

  function Le64(x: nat): (s: seq<Byte>)
    requires x < U64
    ensures |s| == 8
  {
    Le32(x % U32) + Le32(x / U32)
  }

  function FromLe64(s: seq<Byte>): (x: nat)
    requires |s| == 8
    ensures x < U64
  {
    FromLe32(s[..4]) + U32 * FromLe32(s[4..])
  }

  lemma Le32RoundTrip(x: nat)
    requires x < U32
    ensures FromLe32(Le32(x)) == x
  {
  }

  // ---------------------------------------------------------------- the format

  /** The bytes of the struct on the stack before its members are set: they show through in
      the padding and in the part of the union that is not set. */
  type Stale = s: seq<Byte> | |s| == RECORD witness seq(RECORD, _ => 0)

  function Record(p: Param, stale: Stale): (s: seq<Byte>)
    requires p.tag < U32
    requires match p.value case Word(w) => w < U32 case Long(l) => l < U64 case Blob(n, _) => n < U64 case _ => true
    ensures |s| == RECORD
  {
    Le32(p.tag) + stale[4..8] +
    match p.value
    case Word(w) => Le32(w) + stale[12..]
    case Long(l) => Le64(l) + stale[16..]
    case Flag(b) => [if b then 1 else 0] + stale[9..]
    case Blob(n, _) => stale[8..16] + Le64(n)
    case NoValue => stale[8..]
  }

  function Payload(v: Value): seq<Byte>
  {
    if v.Blob? then v.data else []
  }

  function EncodeParams(kind: Classify, ps: seq<Param>, stales: seq<Stale>): seq<Byte>
    requires |stales| == |ps| && AllFit(kind, ps)
  {
    if ps == [] then []
    else Record(ps[0], stales[0]) + Payload(ps[0].value) + EncodeParams(kind, ps[1..], stales[1..])
  }

  function Encode(kind: Classify, ps: seq<Param>, stales: seq<Stale>): seq<Byte>
    requires |stales| == |ps| < U32 && AllFit(kind, ps)
  {
    Le32(|ps|) + EncodeParams(kind, ps, stales)
  }

  /** The size without the 32-bit wrap of marshal_size. */
  function ParamsSize(ps: seq<Param>): nat
  {
    if ps == [] then 0 else RECORD + |Payload(ps[0].value)| + ParamsSize(ps[1..])
  }

  function TrueSize(ps: seq<Param>): nat { 4 + ParamsSize(ps) }

  datatype Option<T> = None | Some(value: T)

  function ReadValue(k: Kind, rec: seq<Byte>): Value
    requires |rec| == RECORD
  {
    match k
    case Enum | EnumRep | Uint | UintRep => Word(FromLe32(rec[8..12]))
    case Ulong | UlongRep | Date => Long(FromLe64(rec[8..16]))
    case Bool => Flag(rec[8] != 0)
    case Bignum | Bytes => Blob(FromLe64(rec[16..]), [])
    case Other => NoValue
  }

  /** One parameter off the front of s; a blob takes its length modulo 2^32. */
  function DecodeOne(kind: Classify, s: seq<Byte>): (r: Option<(Param, nat)>)
    ensures r.Some? ==> RECORD <= r.value.1 <= |s|
  {
    if |s| < RECORD then None
    else
      var tag := FromLe32(s[..4]);
      var v := ReadValue(kind(tag), s[..RECORD]);
      if !v.Blob? then Some((Param(tag, v), RECORD))
      else
        var n := v.length % U32;
        if |s| < RECORD + n then None
        else Some((Param(tag, Blob(v.length, s[RECORD..RECORD + n])), RECORD + n))
  }

  function DecodeParams(kind: Classify, s: seq<Byte>, count: nat): Option<seq<Param>>
    decreases count
  {
    if count == 0 then Some([])
    else
      match DecodeOne(kind, s)
      case None => None
      case Some(r) => Resume([r.0], DecodeParams(kind, s[r.1..], count - 1))
  }

  /** What is read already, followed by what the rest decodes to. */
  function Resume(read: seq<Param>, rest: Option<seq<Param>>): Option<seq<Param>>
  {
    match rest
    case None => None
    case Some(ps) => Some(read + ps)
  }

  function Decode(kind: Classify, s: seq<Byte>): Option<seq<Param>>
  {
    if |s| < 4 then None else DecodeParams(kind, s[4..], FromLe32(s[..4]))
  }

  // ---------------------------------------------------------------- the bytes

  /** Byte k of a number, the least significant first. */
  function ByteAt(x: nat, k: nat): Byte
  {
    if k == 0 then x % 256 else ByteAt(x / 256, k - 1)
  }

  /** The number that so many bytes show from an offset on. */
  function Number(s: seq<Byte>, offset: nat, width: nat): nat
    requires offset + width <= |s|
    decreases width
  {
    if width == 0 then 0
    else
      var low: int := s[offset];
      low + 256 * Number(s, offset + 1, width - 1)
  }

  lemma {:induction false} Le32Bytes(x: nat, k: nat)
    requires x < U32 && k < 4
    ensures Le32(x)[k] == ByteAt(x, k)
  {
    if k == 1 {
      assert ByteAt(x, 1) == ByteAt(x / 256, 0);
    } else if k == 2 {
      assert ByteAt(x, 2) == ByteAt(x / 256, 1) == ByteAt(x / 256 / 256, 0);
    } else if k == 3 {
      assert ByteAt(x, 3) == ByteAt(x / 256, 2) == ByteAt(x / 256 / 256, 1) == ByteAt(x / 256 / 256 / 256, 0);
    }
  }

  /** Four bytes lower. */
  lemma HalfOn(low: nat, high: nat, k: nat)
    requires low < U32
    ensures k < 4 ==> ByteAt(low + U32 * high, k) == ByteAt(low, k)
    ensures ByteAt(low + U32 * high, k + 4) == ByteAt(high, k)
  {
    var c := low / 256 / 256 / 256 + 256 * high;
    var b, a := low / 256 / 256 % 256 + 256 * c, low / 256 % 256 + 256 * (low / 256 / 256 % 256 + 256 * c);
    assert low + U32 * high == low % 256 + 256 * a;
    assert (low + U32 * high) / 256 == a && a / 256 == b && b / 256 == c && c / 256 == high;
    assert a % 256 == low / 256 % 256 && b % 256 == low / 256 / 256 % 256 && c % 256 == low / 256 / 256 / 256;
    assert ByteAt(low + U32 * high, k + 4) == ByteAt(a, k + 3) == ByteAt(b, k + 2) == ByteAt(c, k + 1);
    if k == 1 {
      assert ByteAt(low + U32 * high, 1) == ByteAt(a, 0) && ByteAt(low, 1) == ByteAt(low / 256, 0);
    } else if k == 2 {
      assert ByteAt(low + U32 * high, 2) == ByteAt(a, 1) == ByteAt(b, 0);
      assert ByteAt(low, 2) == ByteAt(low / 256, 1) == ByteAt(low / 256 / 256, 0);
    } else if k == 3 {
      assert ByteAt(low + U32 * high, 3) == ByteAt(a, 2) == ByteAt(b, 1) == ByteAt(c, 0);
      assert ByteAt(low, 3) == ByteAt(low / 256, 2) == ByteAt(low / 256 / 256, 1) == ByteAt(low / 256 / 256 / 256, 0);
    }
  }

  lemma Le64Bytes(x: nat, k: nat)
    requires x < U64 && k < 8
    ensures Le64(x)[k] == ByteAt(x, k)
  {
    assert x == x % U32 + U32 * (x / U32);
    if k < 4 {
      Le32Bytes(x % U32, k);
      HalfOn(x % U32, x / U32, k);
    } else {
      Le32Bytes(x / U32, k - 4);
      HalfOn(x % U32, x / U32, k - 4);
    }
  }

  /** The bytes of s from an offset on are those of a number. */
  predicate Shows(s: seq<Byte>, offset: nat, width: nat, x: nat)
  {
    offset + width <= |s| && forall k :: 0 <= k < width ==> s[offset + k] == ByteAt(x, k)
  }

  /** Where everything lies in the struct: the tag at 0, the value at 8, but for the length of a blob at
      16; and what is not set shows the stack. */
  lemma RecordLayout(p: Param, stale: Stale)
    requires p.tag < U32
    requires match p.value case Word(w) => w < U32 case Long(l) => l < U64 case Blob(n, _) => n < U64 case _ => true
    ensures var r := Record(p, stale);
      && |r| == 24 && Shows(r, 0, 4, p.tag) && r[4..8] == stale[4..8]
      && match p.value
         case Word(w) => Shows(r, 8, 4, w) && r[12..] == stale[12..]
         case Long(l) => Shows(r, 8, 8, l) && r[16..] == stale[16..]
         case Flag(b) => r[8] == (if b then 1 else 0) && r[9..] == stale[9..]
         case Blob(n, _) => r[8..16] == stale[8..16] && Shows(r, 16, 8, n)
         case NoValue => r[8..] == stale[8..]
  {
    forall k | 0 <= k < 4 ensures Le32(p.tag)[k] == ByteAt(p.tag, k) { Le32Bytes(p.tag, k); }
    match p.value
    case Word(w) => forall k | 0 <= k < 4 ensures Le32(w)[k] == ByteAt(w, k) { Le32Bytes(w, k); }
    case Long(l) => forall k | 0 <= k < 8 ensures Le64(l)[k] == ByteAt(l, k) { Le64Bytes(l, k); }
    case Blob(n, _) => forall k | 0 <= k < 8 ensures Le64(n)[k] == ByteAt(n, k) { Le64Bytes(n, k); }
    case Flag(_) =>
    case NoValue =>
  }

  lemma FromLe32Shows(s: seq<Byte>, offset: nat)
    requires offset + 4 <= |s|
    ensures FromLe32(s[offset..offset + 4]) == Number(s, offset, 4)
  {
    var four := s[offset..offset + 4];
    assert four[0] == s[offset] && four[1] == s[offset + 1] && four[2] == s[offset + 2] && four[3] == s[offset + 3];
    assert Number(s, offset + 3, 1) == (s[offset + 3] as int) + 256 * Number(s, offset + 4, 0);
    assert Number(s, offset + 2, 2) == (s[offset + 2] as int) + 256 * Number(s, offset + 3, 1);
    assert Number(s, offset + 1, 3) == (s[offset + 1] as int) + 256 * Number(s, offset + 2, 2);
  }

  lemma {:induction false} NumberSplits(s: seq<Byte>, offset: nat, width: nat)
    requires width >= 4 && offset + width <= |s|
    ensures Number(s, offset, width) == Number(s, offset, 4) + U32 * Number(s, offset + 4, width - 4)
  {
    var rest := Number(s, offset + 4, width - 4);
    assert Number(s, offset + 3, width - 3) == (s[offset + 3] as int) + 256 * rest;
    assert Number(s, offset + 3, 1) == (s[offset + 3] as int) + 256 * Number(s, offset + 4, 0);
    assert Number(s, offset + 2, width - 2) == Number(s, offset + 2, 2) + 0x1_0000 * rest;
    assert Number(s, offset + 1, width - 1) == Number(s, offset + 1, 3) + 0x100_0000 * rest;
  }

  lemma FromLe64Shows(s: seq<Byte>, offset: nat)
    requires offset + 8 <= |s|
    ensures FromLe64(s[offset..offset + 8]) == Number(s, offset, 8)
  {
    var eight := s[offset..offset + 8];
    assert eight[..4] == s[offset..offset + 4] && eight[4..] == s[offset + 4..offset + 4 + 4];
    FromLe32Shows(s, offset);
    FromLe32Shows(s, offset + 4);
    NumberSplits(s, offset, 8);
  }

  lemma FieldsShow(rec: seq<Byte>)
    requires |rec| == RECORD
    ensures FromLe32(rec[8..12]) == Number(rec, 8, 4) && FromLe64(rec[8..16]) == Number(rec, 8, 8)
    ensures FromLe64(rec[16..]) == Number(rec, 16, 8)
  {
    FromLe32Shows(rec, 8);
    FromLe64Shows(rec, 8);
    FromLe64Shows(rec, 16);
    assert rec[16..] == rec[16..24];
  }

  /** What is read from the struct is the number that the bytes there show, whatever they are. */
  lemma ReadLayout(k: Kind, rec: seq<Byte>)
    requires |rec| == RECORD
    ensures var v := ReadValue(k, rec);
      match k
      case Enum | EnumRep | Uint | UintRep => v == Word(Number(rec, 8, 4))
      case Ulong | UlongRep | Date => v == Long(Number(rec, 8, 8))
      case Bool => v == Flag(rec[8] != 0)
      case Bignum | Bytes => v == Blob(Number(rec, 16, 8), [])
      case Other => v == NoValue
  {
    FieldsShow(rec);
  }

  predicate IsBlob(k: Kind) { k == Bignum || k == Bytes }

  lemma {:induction false} NumberLocal(s: seq<Byte>, n: nat, offset: nat, width: nat)
    requires offset + width <= n <= |s|
    ensures Number(s[..n], offset, width) == Number(s, offset, width)
    decreases width
  {
    if width > 0 { NumberLocal(s, n, offset + 1, width - 1); }
  }

  lemma HeaderShows(kind: Classify, s: seq<Byte>)
    requires |s| >= RECORD
    ensures FromLe32(s[..4]) == Number(s, 0, 4)
    ensures var k := kind(Number(s, 0, 4)); var v := ReadValue(k, s[..RECORD]);
      (v.Blob? <==> IsBlob(k)) && (v.Blob? ==> v.length == Number(s, 16, 8))
  {
    assert s[..4] == s[0..4];
    FromLe32Shows(s, 0);
    ReadLayout(kind(Number(s, 0, 4)), s[..RECORD]);
    NumberLocal(s, RECORD, 16, 8);
  }

  /** How far a parameter reaches: its struct, and the bytes it points to, their number modulo 2^32. */
  function Reach(kind: Classify, s: seq<Byte>): nat
    requires |s| >= 24
  {
    if IsBlob(kind(Number(s, 0, 4))) then 24 + Number(s, 16, 8) % U32 else 24
  }

  /** Which inputs hold a parameter, and which. */
  lemma DecodeOneIff(kind: Classify, s: seq<Byte>)
    ensures DecodeOne(kind, s).Some? <==> |s| >= 24 && |s| >= Reach(kind, s)
    ensures DecodeOne(kind, s).Some? ==>
      var (p, n) := DecodeOne(kind, s).value; var tag := Number(s, 0, 4);
      && n == Reach(kind, s) && p.tag == tag
      && (IsBlob(kind(tag)) ==> p.value == Blob(Number(s, 16, 8), s[24..n]))
      && (!IsBlob(kind(tag)) ==> p.value == ReadValue(kind(tag), s[..24]))
  {
    if |s| >= RECORD { HeaderShows(kind, s); }
  }

  // ---------------------------------------------------------------- round trip

  lemma RecordReads(kind: Classify, p: Param, stale: Stale)
    requires ParamFits(kind, p)
    ensures var r := Record(p, stale);
      && FromLe32(r[..4]) == p.tag
      && ReadValue(kind(p.tag), r) == if p.value.Blob? then Blob(p.value.length, []) else p.value
  {
  }

  lemma DecodeOneReads(kind: Classify, p: Param, stale: Stale, rest: seq<Byte>)
    requires ParamFits(kind, p) && |Payload(p.value)| < U32
    ensures var s := Record(p, stale) + Payload(p.value) + rest;
      DecodeOne(kind, s) == Some((p, RECORD + |Payload(p.value)|)) && s[RECORD + |Payload(p.value)|..] == rest
  {
    var s := Record(p, stale) + Payload(p.value) + rest;
    RecordReads(kind, p, stale);
    assert s[..RECORD] == Record(p, stale) && s[..4] == Record(p, stale)[..4];
    assert s[RECORD..RECORD + |Payload(p.value)|] == Payload(p.value);
  }

  lemma Regroup(a: seq<Byte>, b: seq<Byte>, c: seq<Byte>, d: seq<Byte>)
    ensures a + b + c + d == a + b + (c + d)
  {
  }

  lemma {:induction false} ParamsRoundTrip(kind: Classify, ps: seq<Param>, stales: seq<Stale>, suffix: seq<Byte>)
    requires |stales| == |ps| && AllFit(kind, ps) && ParamsSize(ps) < U32
    ensures DecodeParams(kind, EncodeParams(kind, ps, stales) + suffix, |ps|) == Some(ps)
  {
    if ps != [] {
      var rest := EncodeParams(kind, ps[1..], stales[1..]) + suffix;
      Regroup(Record(ps[0], stales[0]), Payload(ps[0].value), EncodeParams(kind, ps[1..], stales[1..]), suffix);
      DecodeOneReads(kind, ps[0], stales[0], rest);
      ParamsRoundTrip(kind, ps[1..], stales[1..], suffix);
      assert [ps[0]] + ps[1..] == ps;
    }
  }

  /** What marshal writes, whatever the stack held and whatever follows it in memory, reads
      back as the same parameters. */
  lemma RoundTrip(kind: Classify, ps: seq<Param>, stales: seq<Stale>, suffix: seq<Byte>)
    requires |stales| == |ps| < U32 && AllFit(kind, ps) && TrueSize(ps) < U32
    ensures Decode(kind, Encode(kind, ps, stales) + suffix) == Some(ps)
  {
    var s := Encode(kind, ps, stales) + suffix;
    assert s[..4] == Le32(|ps|) && s[4..] == EncodeParams(kind, ps, stales) + suffix;
    Le32RoundTrip(|ps|);
    ParamsRoundTrip(kind, ps, stales, suffix);
  }

  lemma {:induction false} EncodedLength(kind: Classify, ps: seq<Param>, stales: seq<Stale>)
    requires |stales| == |ps| && AllFit(kind, ps)
    ensures |EncodeParams(kind, ps, stales)| == ParamsSize(ps)
  {
    if ps != [] { EncodedLength(kind, ps[1..], stales[1..]); }
  }

  /** One parameter: its struct and the bytes that it points to. */
  function Entry(p: Param, stale: Stale): (s: seq<Byte>)
    requires p.tag < U32
    requires match p.value case Word(w) => w < U32 case Long(l) => l < U64 case Blob(n, _) => n < U64 case _ => true
    ensures |s| == RECORD + |Payload(p.value)|
  {
    Record(p, stale) + Payload(p.value)
  }

  predicate LiesAt(s: seq<Byte>, at: nat, part: seq<Byte>) { at + |part| <= |s| && s[at..at + |part|] == part }

  lemma LiesBehind(first: seq<Byte>, rest: seq<Byte>, at: nat, part: seq<Byte>)
    requires LiesAt(rest, at, part)
    ensures LiesAt(first + rest, |first| + at, part) && LiesAt(first + rest, 0, first)
  {
    var s := first + rest;
    assert s[|first| + at..|first| + at + |part|] == rest[at..at + |part|];
  }

  lemma EntryAndRest(kind: Classify, ps: seq<Param>, stales: seq<Stale>)
    requires |stales| == |ps| > 0 && AllFit(kind, ps)
    ensures ParamFits(kind, ps[0]) && AllFit(kind, ps[1..])
    ensures EncodeParams(kind, ps, stales) == Entry(ps[0], stales[0]) + EncodeParams(kind, ps[1..], stales[1..])
  {
  }

  lemma EncodedBehind(kind: Classify, ps: seq<Param>, stales: seq<Stale>, i: nat, one: seq<Byte>)
    requires |stales| == |ps| && AllFit(kind, ps) && 0 < i < |ps| && AllFit(kind, ps[1..])
    requires LiesAt(EncodeParams(kind, ps[1..], stales[1..]), ParamsSize(ps[1..][..i - 1]), one)
    ensures LiesAt(EncodeParams(kind, ps, stales), ParamsSize(ps[..i]), one)
  {
    EntryAndRest(kind, ps, stales);
    SizeOfTail(ps, i);
    LiesBehind(Entry(ps[0], stales[0]), EncodeParams(kind, ps[1..], stales[1..]), ParamsSize(ps[1..][..i - 1]), one);
  }

  lemma EncodedFirst(kind: Classify, ps: seq<Param>, stales: seq<Stale>)
    requires |stales| == |ps| > 0 && AllFit(kind, ps) && ParamFits(kind, ps[0])
    ensures LiesAt(EncodeParams(kind, ps, stales), ParamsSize(ps[..0]), Entry(ps[0], stales[0]))
  {
    EntryAndRest(kind, ps, stales);
    LiesBehind(Entry(ps[0], stales[0]), EncodeParams(kind, ps[1..], stales[1..]), 0, []);
  }

  /** The entries follow one another. */
  lemma {:induction false} EncodedAt(kind: Classify, ps: seq<Param>, stales: seq<Stale>, i: nat)
    requires |stales| == |ps| && AllFit(kind, ps) && i < |ps| && ParamFits(kind, ps[i])
    ensures LiesAt(EncodeParams(kind, ps, stales), ParamsSize(ps[..i]), Entry(ps[i], stales[i]))
  {
    if i == 0 {
      EncodedFirst(kind, ps, stales);
    } else {
      EntryAndRest(kind, ps, stales);
      EncodedAt(kind, ps[1..], stales[1..], i - 1);
      EncodedBehind(kind, ps, stales, i, Entry(ps[i], stales[i]));
    }
  }

  lemma SizeOfTail(ps: seq<Param>, i: nat)
    requires 0 < i < |ps|
    ensures ParamsSize(ps[..i]) == RECORD + |Payload(ps[0].value)| + ParamsSize(ps[1..][..i - 1])
  {
    assert ps[..i][1..] == ps[1..][..i - 1];
  }

  /** All that marshal writes: the number of parameters, and the parameters. */
  lemma WholeLayout(kind: Classify, ps: seq<Param>, stales: seq<Stale>)
    requires |stales| == |ps| < U32 && AllFit(kind, ps)
    ensures var s := Encode(kind, ps, stales);
      |s| == TrueSize(ps) && Shows(s, 0, 4, |ps|) && s[4..] == EncodeParams(kind, ps, stales)
  {
    EncodedLength(kind, ps, stales);
    forall k | 0 <= k < 4 ensures Le32(|ps|)[k] == ByteAt(|ps|, k) { Le32Bytes(|ps|, k); }
  }

  lemma {:induction false} ParamsPrefixRejected(kind: Classify, ps: seq<Param>, stales: seq<Stale>, k: nat)
    requires |stales| == |ps| && AllFit(kind, ps) && ParamsSize(ps) < U32
    requires k < |EncodeParams(kind, ps, stales)|
    ensures DecodeParams(kind, EncodeParams(kind, ps, stales)[..k], |ps|) == None
  {
    if ps != [] {
      var one: nat := RECORD + |Payload(ps[0].value)|;
      if k < one {
        OneCutShort(kind, ps[0], stales[0], EncodeParams(kind, ps[1..], stales[1..]), k);
      } else {
        ParamsPrefixRejected(kind, ps[1..], stales[1..], k - one);
        CutInTheRest(kind, ps, stales, k);
        NoneInTheRest(kind, EncodeParams(kind, ps, stales)[..k], |ps|);
      }
    }
  }

  lemma NoneInTheRest(kind: Classify, s: seq<Byte>, count: nat)
    requires count > 0
    requires var one := DecodeOne(kind, s); one.None? || DecodeParams(kind, s[one.value.1..], count - 1) == None
    ensures DecodeParams(kind, s, count) == None
  {
  }

  lemma CutInTheRest(kind: Classify, ps: seq<Param>, stales: seq<Stale>, k: nat)
    requires |stales| == |ps| > 0 && AllFit(kind, ps) && |Payload(ps[0].value)| < U32
    requires RECORD + |Payload(ps[0].value)| <= k <= |EncodeParams(kind, ps, stales)|
    ensures var s := EncodeParams(kind, ps, stales)[..k]; var one: nat := RECORD + |Payload(ps[0].value)|;
      && DecodeOne(kind, s) == Some((ps[0], one))
      && s[one..] == EncodeParams(kind, ps[1..], stales[1..])[..k - one]
  {
    var one: nat := RECORD + |Payload(ps[0].value)|;
    var cut := EncodeParams(kind, ps[1..], stales[1..])[..k - one];
    assert EncodeParams(kind, ps, stales)[..k] == Record(ps[0], stales[0]) + Payload(ps[0].value) + cut;
    DecodeOneReads(kind, ps[0], stales[0], cut);
  }

  lemma OneCutShort(kind: Classify, p: Param, stale: Stale, rest: seq<Byte>, k: nat)
    requires ParamFits(kind, p) && |Payload(p.value)| < U32 && k < RECORD + |Payload(p.value)|
    ensures DecodeOne(kind, (Record(p, stale) + Payload(p.value) + rest)[..k]) == None
  {
    var s := (Record(p, stale) + Payload(p.value) + rest)[..k];
    if k >= RECORD {
      RecordReads(kind, p, stale);
      assert s[..RECORD] == Record(p, stale) && s[..4] == Record(p, stale)[..4];
    }
  }

  /** No proper prefix of what marshal writes is accepted. */
  lemma PrefixRejected(kind: Classify, ps: seq<Param>, stales: seq<Stale>, k: nat)
    requires |stales| == |ps| < U32 && AllFit(kind, ps) && TrueSize(ps) < U32
    requires k < |Encode(kind, ps, stales)|
    ensures Decode(kind, Encode(kind, ps, stales)[..k]) == None
  {
    if k >= 4 {
      var s := Encode(kind, ps, stales)[..k];
      assert s[..4] == Le32(|ps|) && s[4..] == EncodeParams(kind, ps, stales)[..k - 4];
      Le32RoundTrip(|ps|);
      ParamsPrefixRejected(kind, ps, stales, k - 4);
    }
  }

  // ---------------------------------------------------------------- marshal

  /** A parameter set pointer, which may be NULL. */
  datatype ParamSet = Null | Set(params: seq<Param>)

  function Items(given: ParamSet): seq<Param>
  {
    if given.Null? then [] else given.params
  }

  lemma {:induction false} SizeSnoc(ps: seq<Param>, i: nat)
    requires i < |ps|
    ensures ParamsSize(ps[..i + 1]) == ParamsSize(ps[..i]) + RECORD + |Payload(ps[i].value)|
    decreases i
  {
    if i > 0 {
      assert ps[..i + 1][1..] == ps[1..][..i] && ps[..i][1..] == ps[1..][..i - 1];
      SizeSnoc(ps[1..], i - 1);
    }
  }

  lemma {:induction false} EncodeSnoc(kind: Classify, ps: seq<Param>, stales: seq<Stale>, i: nat)
    requires i < |ps| == |stales| && AllFit(kind, ps)
    ensures AllFit(kind, ps[..i]) && AllFit(kind, ps[..i + 1])
    ensures EncodeParams(kind, ps[..i + 1], stales[..i + 1])
            == EncodeParams(kind, ps[..i], stales[..i]) + (Record(ps[i], stales[i]) + Payload(ps[i].value))
    decreases i
  {
    if i > 0 {
      assert ps[..i + 1][1..] == ps[1..][..i] && ps[..i][1..] == ps[1..][..i - 1];
      assert stales[..i + 1][1..] == stales[1..][..i] && stales[..i][1..] == stales[1..][..i - 1];
      EncodeSnoc(kind, ps[1..], stales[1..], i - 1);
    }
  }

  lemma SumWraps(a: nat, b: nat)
    ensures (a % U32 + b) % U32 == (a + b) % U32
  {
  }

  lemma WrapsToLess(t: nat)
    ensures t % U32 <= t && (t < U32 <==> t <= t % U32)
  {
  }

  /** marshal_size: a uint32_t sum. */
  method MarshalSize(given: ParamSet) returns (size: nat)
    requires |Items(given)| < U32
    ensures size == TrueSize(Items(given)) % U32
  {
    size := 4;
    if given.Set? {
      var i := 0;
      while i < |given.params|
        invariant 0 <= i <= |given.params|
        invariant size == TrueSize(given.params[..i]) % U32
      {
        SizeSnoc(given.params, i);
        ghost var t := TrueSize(given.params[..i]);
        SumWraps(t, RECORD);
        size := (size + RECORD) % U32;
        if given.params[i].value.Blob? {
          SumWraps(t + RECORD, |given.params[i].value.data|);
          size := (size + |given.params[i].value.data|) % U32;
        }
        i := i + 1;
      }
      assert given.params[..i] == given.params;
    }
  }

  /** PACK_BYTES: the cursor does not pass the end of the buffer. */
  method Pack(buf: array<Byte>, p: nat, src: seq<Byte>) returns (ok: bool, q: nat)
    requires p <= buf.Length
    modifies buf
    ensures ok <==> p + |src| <= buf.Length
    ensures ok ==> q == p + |src| && buf[..q] == old(buf[..p]) + src
    ensures !ok ==> q == p && buf[..] == old(buf[..])
  {
    if p + |src| > buf.Length { return false, p; }
    forall k | 0 <= k < |src| { buf[p + k] := src[k]; }
    return true, p + |src|;
  }

  /** One converted struct, and the blob behind it. */
  method PackOne(buf: array<Byte>, p: nat, param: Param, stale: Stale) returns (ok: bool, q: nat)
    requires p <= buf.Length && param.tag < U32
    requires match param.value case Word(w) => w < U32 case Long(l) => l < U64 case Blob(n, _) => n < U64 case _ => true
    modifies buf
    ensures ok <==> p + RECORD + |Payload(param.value)| <= buf.Length
    ensures ok ==> q == p + RECORD + |Payload(param.value)|
                   && buf[..q] == old(buf[..p]) + (Record(param, stale) + Payload(param.value))
  {
    ghost var before := buf[..p];
    ok, q := Pack(buf, p, Record(param, stale));
    if ok && param.value.Blob? {
      ok, q := Pack(buf, q, param.value.data);
    }
    if ok {
      assert before + (Record(param, stale) + Payload(param.value))
          == before + Record(param, stale) + Payload(param.value);
    }
  }

  /** marshal; `memory` says whether malloc succeeded and `stales` what the stack held. */
  method Marshal(kind: Classify, given: ParamSet, stales: seq<Stale>, memory: bool) returns (out: array?<Byte>)
    requires |Items(given)| == |stales| < U32 && AllFit(kind, Items(given))
    ensures out != null <==> memory && TrueSize(Items(given)) < U32
    ensures out != null ==> fresh(out) && out[..] == Encode(kind, Items(given), stales)
  {
    var size := MarshalSize(given);
    if !memory { return null; }
    var buf := new Byte[size](_ => 0);
    var ps := Items(given);
    WrapsToLess(TrueSize(ps));
    var ok, p := Pack(buf, 0, Le32(|ps|));
    if !ok { return null; }
    assert buf[..4] == Le32(|ps|);
    ok, p := PackParams(kind, buf, p, ps, stales);
    if !ok || p != buf.Length { return null; }
    assert buf[..p] == buf[..];
    return buf;
  }

  lemma EncodeNext(head: seq<Byte>, kind: Classify, ps: seq<Param>, stales: seq<Stale>, i: nat)
    requires i < |ps| == |stales| && AllFit(kind, ps)
    ensures AllFit(kind, ps[..i]) && AllFit(kind, ps[..i + 1])
    ensures head + EncodeParams(kind, ps[..i + 1], stales[..i + 1])
            == head + EncodeParams(kind, ps[..i], stales[..i]) + (Record(ps[i], stales[i]) + Payload(ps[i].value))
  {
    EncodeSnoc(kind, ps, stales, i);
    assert forall x: seq<Byte>, y: seq<Byte> :: head + (x + y) == head + x + y;
  }

  /** The loop of marshal over the parameters. */
  method PackParams(kind: Classify, buf: array<Byte>, from: nat, ps: seq<Param>, stales: seq<Stale>)
    returns (ok: bool, p: nat)
    requires |ps| == |stales| && AllFit(kind, ps) && from <= buf.Length
    modifies buf
    ensures ok <==> from + ParamsSize(ps) <= buf.Length
    ensures ok ==> p == from + ParamsSize(ps) && buf[..p] == old(buf[..from]) + EncodeParams(kind, ps, stales)
  {
    ghost var head := buf[..from];
    p := from;
    var i := 0;
    assert head + EncodeParams(kind, ps[..0], stales[..0]) == head;
    while i < |ps|
      invariant 0 <= i <= |ps| && AllFit(kind, ps[..i])
      invariant p == from + ParamsSize(ps[..i]) <= buf.Length
      invariant buf[..p] == head + EncodeParams(kind, ps[..i], stales[..i])
    {
      SizeSnoc(ps, i);
      EncodeNext(head, kind, ps, stales, i);
      assert ParamFits(kind, ps[i]);
      ok, p := PackOne(buf, p, ps[i], stales[i]);
      if !ok {
        SizeMonotone(ps, i + 1);
        return;
      }
      i := i + 1;
    }
    assert ps[..i] == ps && stales[..i] == stales;
    ok := true;
  }

  lemma {:induction false} SizeMonotone(ps: seq<Param>, i: nat)
    requires i <= |ps|
    ensures ParamsSize(ps[..i]) <= ParamsSize(ps)
    decreases |ps| - i
  {
    if i < |ps| {
      SizeSnoc(ps, i);
      SizeMonotone(ps, i + 1);
    } else {
      assert ps[..i] == ps;
    }
  }

  // ---------------------------------------------------------------- unmarshal_param_set

  /** One struct and the blob behind it, off the cursor; memory says whether malloc succeeds, which
      is called for a blob. */
  method ExtractOne(kind: Classify, bytes: array<Byte>, p: nat, memory: bool) returns (r: Option<(Param, nat)>)
    requires p <= bytes.Length
    ensures var one := DecodeOne(kind, bytes[..][p..]);
      r == if one.Some? && one.value.0.value.Blob? && !memory then None else one
  {
    ghost var rest := bytes[..][p..];
    if p + RECORD > bytes.Length { return None; }
    var record := bytes[p..p + RECORD];
    assert record == rest[..RECORD] && record[..4] == rest[..4];
    var tag := FromLe32(record[..4]);
    var v := ReadValue(kind(tag), record);
    if !v.Blob? { return Some((Param(tag, v), RECORD)); }
    if !memory { return None; }
    var at, n := p + RECORD, v.length % U32;
    if at + n > bytes.Length { return None; }
    assert bytes[at..at + n] == rest[RECORD..RECORD + n];
    return Some((Param(tag, Blob(v.length, bytes[at..at + n])), RECORD + n));
  }

  /** The allocation for each blob succeeds. */
  predicate Housed(ps: seq<Param>, blobs: nat -> bool) { forall i :: 0 <= i < |ps| && ps[i].value.Blob? ==> blobs(i) }

  /** unmarshal_param_set; table and blobs say which of its allocations succeed. */
  method Unmarshal(kind: Classify, bytes: array<Byte>, table: bool, blobs: nat -> bool)
    returns (res: Option<seq<Param>>)
    ensures var all := Decode(kind, bytes[..]);
      res == if table && all.Some? && Housed(all.value, blobs) then all else None
  {
    if 4 > bytes.Length { return None; }
    assert bytes[..][..4] == bytes[..4];
    var length := FromLe32(bytes[..4]);
    if !table { return None; }
    ghost var goal := DecodeParams(kind, bytes[..][4..], length);
    ToGoStart(kind, bytes[..], 4, length);
    res := ExtractParams(kind, bytes, 4, length, blobs, goal);
  }

  /** The loop of unmarshal_param_set over the parameters. */
  method ExtractParams(kind: Classify, bytes: array<Byte>, from: nat, length: nat, blobs: nat -> bool,
      ghost goal: Option<seq<Param>>)
    returns (res: Option<seq<Param>>)
    requires ToGo(kind, bytes[..], from, length, [], goal)
    ensures res == if goal.Some? && Housed(goal.value, blobs) then goal else None
  {
    var p: nat := from;
    var params: seq<Param> := [];
    ghost var s := bytes[..];
    while |params| < length
      invariant |params| <= length && Housed(params, blobs)
      invariant ToGo(kind, s, p, length - |params|, params, goal)
    {
      var one := ExtractNext(kind, bytes, p, blobs(|params|), s, length - |params|, params, goal);
      if one.None? { return None; }
      HousedNext(params, one.value.0, blobs);
      p, params := p + one.value.1, params + [one.value.0];
    }
    ToGoEnd(kind, s, p, params, goal);
    return Some(params);
  }

  /** ExtractOne, seen as a step towards the goal. */
  method ExtractNext(kind: Classify, bytes: array<Byte>, p: nat, memory: bool, ghost s: seq<Byte>, ghost count: nat,
      ghost read: seq<Param>, ghost goal: Option<seq<Param>>)
    returns (r: Option<(Param, nat)>)
    requires s == bytes[..] && count > 0 && ToGo(kind, s, p, count, read, goal)
    ensures match r
      case None => goal == None || (|read| < |goal.value| && goal.value[|read|].value.Blob? && !memory)
      case Some(one) => p + one.1 <= bytes.Length && ToGo(kind, s, p + one.1, count - 1, read + [one.0], goal)
                        && (one.0.value.Blob? ==> memory)
  {
    ToGoStep(kind, s, p, count, read, goal);
    r := ExtractOne(kind, bytes, p, memory);
  }

  lemma HousedNext(ps: seq<Param>, p: Param, blobs: nat -> bool)
    requires Housed(ps, blobs) && (p.value.Blob? ==> blobs(|ps|))
    ensures Housed(ps + [p], blobs)
  {
  }

  /** The parameters read and the count still to be read from p on lead to the goal; the trigger has
      the verifier look inside only where a proof asks for it. */
  ghost predicate ToGo(kind: Classify, s: seq<Byte>, p: nat, count: nat, read: seq<Param>, goal: Option<seq<Param>>)
  {
    && p <= |s|
    && forall ask: bool {:trigger Leads(kind, s, p, count, read, goal, ask)} ::
         Leads(kind, s, p, count, read, goal, ask)
  }

  ghost predicate Leads(kind: Classify, s: seq<Byte>, p: nat, count: nat, read: seq<Param>, goal: Option<seq<Param>>,
      ask: bool)
    requires p <= |s|
  {
    goal == Resume(read, DecodeParams(kind, s[p..], count))
  }

  lemma ToGoStep(kind: Classify, s: seq<Byte>, p: nat, count: nat, read: seq<Param>, goal: Option<seq<Param>>)
    requires count > 0 && ToGo(kind, s, p, count, read, goal)
    ensures match DecodeOne(kind, s[p..])
      case None => goal == None
      case Some(r) =>
        && ToGo(kind, s, p + r.1, count - 1, read + [r.0], goal)
        && (goal.Some? ==> |read| < |goal.value| && goal.value[|read|] == r.0)
  {
    assert Leads(kind, s, p, count, read, goal, true);
    var one := DecodeOne(kind, s[p..]);
    if one.Some? {
      var (q, n) := one.value;
      assert s[p..][n..] == s[p + n..];
      ResumeStep(read, q, DecodeParams(kind, s[p + n..], count - 1));
    }
  }

  lemma ToGoEnd(kind: Classify, s: seq<Byte>, p: nat, read: seq<Param>, goal: Option<seq<Param>>)
    requires ToGo(kind, s, p, 0, read, goal)
    ensures goal == Some(read)
  {
    assert Leads(kind, s, p, 0, read, goal, true);
    assert read + [] == read;
  }

  lemma ToGoStart(kind: Classify, s: seq<Byte>, p: nat, count: nat)
    requires p <= |s|
    ensures ToGo(kind, s, p, count, [], DecodeParams(kind, s[p..], count))
  {
    var rest := DecodeParams(kind, s[p..], count);
    if rest.Some? { assert [] + rest.value == rest.value; }
  }

  lemma ResumeStep(read: seq<Param>, p: Param, rest: Option<seq<Param>>)
    ensures Resume(read, Resume([p], rest)) == Resume(read + [p], rest)
  {
    if rest.Some? { assert read + ([p] + rest.value) == read + [p] + rest.value; }
  }
}
