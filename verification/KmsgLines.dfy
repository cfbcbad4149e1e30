/** How the secure world's log bytes are cut into kernel messages: the byte-at-a-time rule,
    and print_to_kmsg of tee_procfs.c, which reaches it with block copies. */
module KmsgLines {

  type Byte = b: int | 0 <= b < 256

  const LINEBUF_SIZE: nat := 255

  // ---------------------------------------------------------------- the rule

  /** One byte meets the pending text: the new pending text and the lines that go out. */
  function FeedByte(pending: seq<Byte>, b: Byte): (seq<Byte>, seq<seq<Byte>>)
  {
    if b == 0 then ([], if pending == [] then [] else [pending])
    else if |pending| >= LINEBUF_SIZE then ([b], [pending])
    else (pending + [b], [])
  }

  function Feed(pending: seq<Byte>, bytes: seq<Byte>): (seq<Byte>, seq<seq<Byte>>)
    decreases |bytes|
  {
    if bytes == [] then (pending, [])
    else
      var (p, lines) := FeedByte(pending, bytes[0]);
      var (q, more) := Feed(p, bytes[1..]);
      (q, lines + more)
  }

  predicate NoNul(s: seq<Byte>) { 0 !in s }

  /** Text that may be pending: it fits the line buffer and holds no NUL. */
  predicate Text(s: seq<Byte>) { |s| <= LINEBUF_SIZE && NoNul(s) }

  /** Cutting the input anywhere makes no difference. */
  lemma {:induction false} FeedConcat(pending: seq<Byte>, a: seq<Byte>, b: seq<Byte>)
    ensures var (p, first) := Feed(pending, a); var (q, second) := Feed(p, b);
      Feed(pending, a + b) == (q, first + second)
    decreases |a|
  {
    if a == [] {
      assert a + b == b;
      assert [] + Feed(pending, b).1 == Feed(pending, b).1;
    } else {
      assert (a + b)[0] == a[0] && (a + b)[1..] == a[1..] + b;
      var (p, lines) := FeedByte(pending, a[0]);
      FeedConcat(p, a[1..], b);
      var (q, more) := Feed(p, a[1..]);
      var second := Feed(q, b).1;
      assert lines + (more + second) == lines + more + second;
    }
  }

  lemma FeedCons(pending: seq<Byte>, b: Byte, rest: seq<Byte>)
    ensures var (p, lines) := FeedByte(pending, b);
      Feed(pending, [b] + rest) == (Feed(p, rest).0, lines + Feed(p, rest).1)
  {
    assert ([b] + rest)[1..] == rest;
  }

  function Flatten(lines: seq<seq<Byte>>): seq<Byte>
  {
    if lines == [] then [] else lines[0] + Flatten(lines[1..])
  }

  lemma {:induction false} FlattenConcat(a: seq<seq<Byte>>, b: seq<seq<Byte>>)
    ensures Flatten(a + b) == Flatten(a) + Flatten(b)
  {
    if a == [] {
      assert a + b == b;
    } else {
      assert (a + b)[1..] == a[1..] + b;
      FlattenConcat(a[1..], b);
    }
  }

  function DropNul(s: seq<Byte>): seq<Byte>
  {
    if s == [] then [] else (if s[0] == 0 then [] else [s[0]]) + DropNul(s[1..])
  }

  /** Every line is printable text that fits the line buffer, and none is empty. */
  lemma {:induction false} FeedText(pending: seq<Byte>, bytes: seq<Byte>)
    requires Text(pending)
    ensures var (p, lines) := Feed(pending, bytes);
      Text(p) && forall l :: l in lines ==> Text(l) && l != []
    decreases |bytes|
  {
    if bytes != [] { FeedText(FeedByte(pending, bytes[0]).0, bytes[1..]); }
  }

  /** Every byte that is not a NUL comes out once and in order, or is still pending. */
  lemma {:induction false} FeedConserves(pending: seq<Byte>, bytes: seq<Byte>)
    ensures var (p, lines) := Feed(pending, bytes);
      Flatten(lines) + p == pending + DropNul(bytes)
    decreases |bytes|
  {
    if bytes == [] {
      assert pending + [] == pending;
    } else {
      var (p, lines) := FeedByte(pending, bytes[0]);
      FeedConserves(p, bytes[1..]);
      var (q, more) := Feed(p, bytes[1..]);
      FlattenConcat(lines, more);
      FeedByteConserves(pending, bytes[0]);
      var b := if bytes[0] == 0 then [] else [bytes[0]];
      Regroup(Flatten(lines), p, pending, b, Flatten(more), q, DropNul(bytes[1..]));
    }
  }

  lemma Regroup(x: seq<Byte>, p: seq<Byte>, y: seq<Byte>, b: seq<Byte>, m: seq<Byte>, q: seq<Byte>, d: seq<Byte>)
    requires x + p == y + b && m + q == p + d
    ensures x + m + q == y + (b + d)
  {
    assert x + m + q == x + (m + q) == x + p + d;
    assert y + (b + d) == y + b + d;
  }

  lemma FeedByteConserves(pending: seq<Byte>, b: Byte)
    ensures var (p, lines) := FeedByte(pending, b);
      Flatten(lines) + p == pending + if b == 0 then [] else [b]
  {
  }

  /** A run of text cut into pieces of the line size. */
  function Cut(run: seq<Byte>): seq<seq<Byte>>
  {
    if run == [] then []
    else if |run| <= LINEBUF_SIZE then [run]
    else [run[..LINEBUF_SIZE]] + Cut(run[LINEBUF_SIZE..])
  }

  /** Its pieces: together they are the run, and all but the last fill the line buffer. */
  lemma {:induction false} CutPieces(run: seq<Byte>)
    ensures Flatten(Cut(run)) == run
    ensures forall i :: 0 <= i < |Cut(run)| ==>
      0 < |Cut(run)[i]| <= LINEBUF_SIZE && (i < |Cut(run)| - 1 ==> |Cut(run)[i]| == LINEBUF_SIZE)
    decreases |run|
  {
    if |run| > LINEBUF_SIZE {
      CutPieces(run[LINEBUF_SIZE..]);
      assert Cut(run)[1..] == Cut(run[LINEBUF_SIZE..]);
    } else if run != [] {
      assert Cut(run) == [run] && [run][1..] == [];
    }
  }

  lemma {:induction false} FeedRun(pending: seq<Byte>, run: seq<Byte>)
    requires NoNul(run) && |pending| + |run| <= LINEBUF_SIZE
    ensures Feed(pending, run) == (pending + run, [])
    decreases |run|
  {
    if run == [] {
      assert pending + run == pending;
    } else {
      var b, rest := run[0], run[1..];
      var longer := pending + [b];
      assert b in run && run == [b] + rest;
      FeedRun(longer, rest);
      FeedCons(pending, b, rest);
      assert FeedByte(pending, b) == (longer, []);
      var none: seq<seq<Byte>> := [];
      assert none + none == none;
      assert longer + rest == pending + run;
    }
  }

  lemma FeedRunThen(pending: seq<Byte>, run: seq<Byte>, rest: seq<Byte>)
    requires NoNul(run) && |pending| + |run| <= LINEBUF_SIZE
    ensures Feed(pending, run + rest) == Feed(pending + run, rest)
  {
    FeedConcat(pending, run, rest);
    FeedRun(pending, run);
    var none: seq<seq<Byte>> := [];
    assert none + Feed(pending + run, rest).1 == Feed(pending + run, rest).1;
  }

  /** A NUL-terminated string comes out as its pieces, whatever text was pending before it. */
  lemma {:induction false} StringComesOutCut(pending: seq<Byte>, run: seq<Byte>)
    requires Text(pending) && NoNul(run)
    ensures Feed(pending, run + [0]) == ([], Cut(pending + run))
    decreases |run|
  {
    var room := LINEBUF_SIZE - |pending|;
    if |run| <= room {
      FeedRunThen(pending, run, [0]);
      FeedCons(pending + run, 0, []);
      assert [0] + [] == [0];
      var lines := FeedByte(pending + run, 0).1;
      assert lines + [] == lines;
    } else {
      var head, b, tail := run[..room], run[room], run[room + 1..];
      var full := pending + head;
      assert run + [0] == head + ([b] + (tail + [0]));
      assert b in run;
      FeedRunThen(pending, head, [b] + (tail + [0]));
      FeedCons(full, b, tail + [0]);
      StringComesOutCut([b], tail);
      assert (pending + run)[..LINEBUF_SIZE] == full && (pending + run)[LINEBUF_SIZE..] == [b] + tail;
    }
  }

  /** What is printed already, with what the rule makes of the rest, is the goal. */
  ghost predicate Owes(pending: seq<Byte>, rest: seq<Byte>, printed: seq<seq<Byte>>, goal: (seq<Byte>, seq<seq<Byte>>))
  {
    goal == (Feed(pending, rest).0, printed + Feed(pending, rest).1)
  }

  lemma NulFlushes(pending: seq<Byte>, rest: seq<Byte>, printed: seq<seq<Byte>>, goal: (seq<Byte>, seq<seq<Byte>>))
    requires Owes(pending, rest, printed, goal) && pending != [] && rest != [] && rest[0] == 0
    ensures Owes([], rest, printed + [pending], goal)
    ensures Owes([], rest[1..], printed + [pending], goal)
  {
    var tail := Feed([], rest[1..]);
    assert Feed(pending, rest) == (tail.0, [pending] + tail.1);
    assert Feed([], rest) == (tail.0, [] + tail.1);
    assert printed + ([pending] + tail.1) == printed + [pending] + tail.1;
    assert [] + tail.1 == tail.1;
  }

  lemma NulSkipped(rest: seq<Byte>, printed: seq<seq<Byte>>, goal: (seq<Byte>, seq<seq<Byte>>))
    requires Owes([], rest, printed, goal) && rest != [] && rest[0] == 0
    ensures Owes([], rest[1..], printed, goal)
  {
    assert [] + Feed([], rest[1..]).1 == Feed([], rest[1..]).1;
  }

  lemma FullFlushes(pending: seq<Byte>, rest: seq<Byte>, printed: seq<seq<Byte>>, goal: (seq<Byte>, seq<seq<Byte>>))
    requires Owes(pending, rest, printed, goal) && |pending| == LINEBUF_SIZE && rest != [] && rest[0] != 0
    ensures Owes([], rest, printed + [pending], goal)
  {
    var tail := Feed([rest[0]], rest[1..]);
    assert Feed(pending, rest) == (tail.0, [pending] + tail.1);
    assert [] + [rest[0]] == [rest[0]];
    assert Feed([], rest) == (tail.0, [] + tail.1);
    assert printed + ([pending] + tail.1) == printed + [pending] + ([] + tail.1);
  }

  /** A line that ends with a NUL or with the line buffer. */
  lemma LineEnds(line: seq<Byte>, rest: seq<Byte>, printed: seq<seq<Byte>>, goal: (seq<Byte>, seq<seq<Byte>>))
    requires Owes(line, rest, printed, goal) && line != [] && rest != [] && (rest[0] == 0 || |line| == LINEBUF_SIZE)
    ensures Owes([], if rest[0] == 0 then rest[1..] else rest, printed + [line], goal)
  {
    if rest[0] == 0 { NulFlushes(line, rest, printed, goal); } else { FullFlushes(line, rest, printed, goal); }
  }

  lemma RunTaken(pending: seq<Byte>, run: seq<Byte>, rest: seq<Byte>, printed: seq<seq<Byte>>,
      goal: (seq<Byte>, seq<seq<Byte>>))
    requires NoNul(run) && |pending| + |run| <= LINEBUF_SIZE && Owes(pending, run + rest, printed, goal)
    ensures Owes(pending + run, rest, printed, goal)
  {
    FeedRunThen(pending, run, rest);
  }

  // ---------------------------------------------------------------- print_to_kmsg

  /** What %s prints. */
  function CString(s: seq<Byte>): seq<Byte>
  {
    if s == [] || s[0] == 0 then [] else [s[0]] + CString(s[1..])
  }

  lemma {:induction false} CStringUpTo(s: seq<Byte>, k: nat)
    requires k < |s| && s[k] == 0 && NoNul(s[..k])
    ensures CString(s) == s[..k]
  {
    if k > 0 {
      assert s[..k][0] == s[0] && s[1..][..k - 1] == s[..k][1..];
      CStringUpTo(s[1..], k - 1);
    }
  }

  method Memcpy(dst: array<Byte>, at: nat, src: array<Byte>, from: nat, len: nat)
    requires dst != src && at + len <= dst.Length && from + len <= src.Length
    modifies dst
    ensures dst[..] == old(dst[..at]) + src[from..from + len] + old(dst[at + len..])
  {
    forall k | 0 <= k < len { dst[at + k] := src[from + k]; }
  }

  class Printer {
    const linebuf: array<Byte>
    var last: nat
    var console: seq<seq<Byte>>

    constructor ()
      ensures fresh(linebuf) && Valid() && Pending() == [] && console == []
    {
      linebuf := new Byte[LINEBUF_SIZE + 1](_ => 0);
      last := 0;
      console := [];
    }

    ghost predicate Valid()
      reads this, linebuf
    {
      linebuf.Length == LINEBUF_SIZE + 1 && last <= LINEBUF_SIZE && NoNul(linebuf[..last])
    }

    ghost function Pending(): seq<Byte>
      requires linebuf.Length == LINEBUF_SIZE + 1 && last <= LINEBUF_SIZE
      reads this, linebuf
    {
      linebuf[..last]
    }

    /** printk("[TKCORE] %s", linebuf) for a buffer terminated at k, and the buffer emptied. */
    method Flush(ghost k: nat)
      requires linebuf.Length == LINEBUF_SIZE + 1 && k <= LINEBUF_SIZE
      requires linebuf[k] == 0 && NoNul(linebuf[..k])
      modifies this
      ensures console == old(console) + [linebuf[..k]] && last == 0
    {
      CStringUpTo(linebuf[..], k);
      assert linebuf[..][..k] == linebuf[..k];
      console := console + [CString(linebuf[..])];
      last := 0;
    }

    /** print_to_kmsg. The scan for NULs looks at buf[count] before it compares n with count,
        so one byte past the text must be readable. */
    method PrintToKmsg(buf: array<Byte>, count: nat)
      requires Valid() && buf != linebuf && count < buf.Length
      modifies this, linebuf
      ensures Valid()
      ensures Pending() == Feed(old(Pending()), old(buf[..count])).0
      ensures console == old(console) + Feed(old(Pending()), old(buf[..count])).1
    {
      if count == 0 { return; }
      var n := 0;
      ghost var goal := (Feed(Pending(), buf[..count]).0, console + Feed(Pending(), buf[..count]).1);
      ghost var text := buf[..count];
      assert buf[0..count] == text;
      while n < count
        invariant Valid() && 0 <= n <= count && buf[..count] == text
        invariant Owes(Pending(), buf[n..count], console, goal)
        decreases count - n, last
      {
        if buf[n] == 0 && last != 0 {
          NulFlushes(Pending(), buf[n..count], console, goal);
          ghost var line := Pending();
          linebuf[last] := 0;
          assert Pending() == line;
          Flush(last);
          assert Pending() == [];
          continue;
        }
        ghost var start, pending := n, last;
        while buf[n] == 0 && n < count
          invariant Valid() && start <= n <= count && buf[..count] == text
          invariant Owes(Pending(), buf[n..count], console, goal)
          invariant last == pending && (buf[start] == 0 ==> last == 0)
          invariant n > start ==> last == 0
        {
          assert Pending() == [] && |buf[n..count]| > 0 && buf[n..count][0] == buf[n];
          NulSkipped(buf[n..count], console, goal);
          assert buf[n..count][1..] == buf[n + 1..count];
          n := n + 1;
        }
        n := Block(buf, count, n, goal);
      }
    }

    /** The scan of one block: it stops at a NUL, at a full line buffer, or at the end. */
    method Scan(buf: array<Byte>, count: nat, n: nat, room: nat) returns (i: nat)
      requires n <= count < buf.Length
      ensures n <= i <= count && i - n <= room && NoNul(buf[n..i])
      ensures i < count ==> i - n == room || buf[i] == 0
    {
      i := n;
      while i < count
        invariant n <= i <= count && i - n <= room && NoNul(buf[n..i])
      {
        if i - n == room || buf[i] == 0 { break; }
        assert buf[n..i + 1] == buf[n..i] + [buf[i]];
        i := i + 1;
      }
    }

    /** memcpy(linebuf_last, buf + n, len). */
    method Append(buf: array<Byte>, n: nat, len: nat)
      requires linebuf.Length == LINEBUF_SIZE + 1 && buf != linebuf
      requires last + len <= linebuf.Length && n + len <= buf.Length
      modifies linebuf
      ensures linebuf[..last + len] == old(linebuf[..last]) + buf[n..n + len]
    {
      Memcpy(linebuf, last, buf, n, len);
    }

    /** The text from n on: up to a NUL, or what fills the line buffer, or what is left. */
    method Block(buf: array<Byte>, count: nat, from: nat, ghost goal: (seq<Byte>, seq<seq<Byte>>)) returns (n: nat)
      requires Valid() && buf != linebuf && from <= count < buf.Length
      requires from < count ==> buf[from] != 0
      requires Owes(Pending(), buf[from..count], console, goal)
      modifies this, linebuf
      ensures Valid() && from <= n <= count
      ensures Owes(Pending(), buf[n..count], console, goal)
      ensures from < count ==> from < n || last < old(last)
    {
      n := from;
      var room := LINEBUF_SIZE - last;
      var i := Scan(buf, count, n, room);
      ghost var line := Pending() + buf[from..i];
      assert buf[from..count] == buf[from..i] + buf[i..count];
      RunTaken(Pending(), buf[from..i], buf[i..count], console, goal);
      if i == count {
        Append(buf, n, count - n);
        last := last + (count - n);
        n := count;
        return;
      }
      LineEnds(line, buf[i..count], console, goal);
      assert buf[i..count][1..] == buf[i + 1..count];
      if i - n == room {
        n := if buf[i] == 0 then i + 1 else i;
        PrintFull(buf, from, i - from);
      } else {
        n := i + 1;
        PrintString(buf, from, i - from);
      }
    }

    /** The line buffer filled up, terminated and printed. */
    method PrintFull(buf: array<Byte>, n: nat, len: nat)
      requires Valid() && buf != linebuf && n + len <= buf.Length
      requires last + len == LINEBUF_SIZE && NoNul(buf[n..n + len])
      modifies this, linebuf
      ensures Valid() && Pending() == [] && last == 0
      ensures console == old(console) + [old(Pending()) + buf[n..n + len]]
    {
      ghost var line := Pending() + buf[n..n + len];
      Append(buf, n, len);
      linebuf[LINEBUF_SIZE] := 0;
      assert linebuf[..LINEBUF_SIZE] == line;
      Flush(LINEBUF_SIZE);
    }

    /** The text up to a NUL copied with it, and printed. */
    method PrintString(buf: array<Byte>, n: nat, len: nat)
      requires Valid() && buf != linebuf && n + len < buf.Length && buf[n + len] == 0
      requires last + len < LINEBUF_SIZE && NoNul(buf[n..n + len])
      modifies this, linebuf
      ensures Valid() && Pending() == [] && last == 0
      ensures console == old(console) + [old(Pending()) + buf[n..n + len]]
    {
      ghost var line := Pending() + buf[n..n + len];
      assert buf[n..n + len + 1] == buf[n..n + len] + [0];
      Append(buf, n, len + 1);
      ghost var whole := linebuf[..|line| + 1];
      assert whole == line + [0];
      assert linebuf[..|line|] == whole[..|line|] == line && linebuf[|line|] == whole[|line|] == 0;
      Flush(|line|);
    }
  }
}
