/** The growable table of handles of handle.c, and the cookies of RPC buffers kept in it. */
module HandleTable {

  /** A pointer; 0 is NULL. */
  type Ptr = nat

  const INITIAL_MAX_PTRS: nat := 4

  // ---------------------------------------------------------------- the table as a value

  /** The least free place, |t| if there is none. */
  function FirstFree(t: seq<Ptr>): (n: nat)
    ensures n <= |t| && (n < |t| ==> t[n] == 0) && forall i :: 0 <= i < n ==> t[i] != 0
  {
    if t == [] || t[0] == 0 then 0 else 1 + FirstFree(t[1..])
  }

  function Grown(n: nat): nat { if n == 0 then INITIAL_MAX_PTRS else 2 * n }

  function Zeros(n: nat): (z: seq<Ptr>)
    ensures |z| == n && forall i :: 0 <= i < n ==> z[i] == 0
  {
    seq(n, _ => 0)
  }

  /** handle_get: the handle, or -1; memory says whether krealloc succeeds if it is called. */
  function Get(t: seq<Ptr>, p: Ptr, memory: bool): (seq<Ptr>, int)
  {
    var n := FirstFree(t);
    var none: int := -1;
    if p == 0 then (t, none)
    else if n < |t| then (t[n := p], n)
    else if !memory then (t, none)
    else ((t + Zeros(Grown(|t|) - |t|))[n := p], n)
  }

  /** handle_put. */
  function Put(t: seq<Ptr>, h: int): (seq<Ptr>, Ptr)
  {
    if 0 <= h < |t| then (t[h := 0], t[h]) else (t, 0)
  }

  /** handle_lookup. */
  function Lookup(t: seq<Ptr>, h: int): Ptr
  {
    if 0 <= h < |t| then t[h] else 0
  }

  // ---------------------------------------------------------------- a finite map from handles to pointers

  /** What can be looked up. */
  function Handles(t: seq<Ptr>): map<nat, Ptr>
  {
    map h: nat | 0 <= h < |t| && t[h] != 0 :: t[h]
  }

  lemma LookupIsMap(t: seq<Ptr>, h: int)
    ensures Lookup(t, h) == if h >= 0 && h in Handles(t) then Handles(t)[h] else 0
  {
  }

  /** A new handle is the least one that is free; every other one keeps its pointer, however often
      the table has grown; without a handle nothing changes. */
  lemma GetAddsLeast(t: seq<Ptr>, p: Ptr, memory: bool)
    ensures var (u, h) := Get(t, p, memory);
      && (h < 0 <==> p == 0 || (!memory && forall i :: 0 <= i < |t| ==> t[i] != 0))
      && (h < 0 ==> u == t)
      && (h >= 0 ==> h !in Handles(t) && forall i: nat :: i < h ==> i in Handles(t))
      && (h >= 0 ==> Handles(u) == Handles(t)[h := p])
  {
  }

  /** A handle is given back once; giving back what is not there is no change. */
  lemma PutRemoves(t: seq<Ptr>, h: int)
    ensures var (u, p) := Put(t, h);
      && p == Lookup(t, h)
      && Handles(u) == (if h >= 0 then Handles(t) - {h} else Handles(t))
      && Put(u, h) == (u, 0)
  {
    var (u, p) := Put(t, h);
    if 0 <= h < |t| {
      assert u[h := 0] == u;
      assert forall i: nat :: i < |t| && i != h ==> u[i] == t[i];
    }
  }

  /** Giving back a handle undoes its get, up to the size of the table. */
  lemma PutUndoesGet(t: seq<Ptr>, p: Ptr, memory: bool)
    ensures var (u, h) := Get(t, p, memory);
      h >= 0 ==> Put(u, h).1 == p && Handles(Put(u, h).0) == Handles(t)
  {
  }

  // ---------------------------------------------------------------- the cookies of RPC buffers

  /** A request of the secure world: a buffer is allocated (p, if not NULL) and gets a cookie, or
      the buffer of a cookie is freed. */
  datatype Request = AllocPayload(p: Ptr, memory: bool) | FreePayload(cookie: int)

  /** The table, and the buffers that the secure world owns. */
  datatype State = State(table: seq<Ptr>, owned: set<Ptr>)

  /** handle_rpc: a buffer that gets no cookie is freed at once. */
  function Serve(s: State, r: Request): State
  {
    match r
    case AllocPayload(p, memory) =>
      if p == 0 then s
      else
        var (t, cookie) := Get(s.table, p, memory);
        if cookie < 0 then s else State(t, s.owned + {p})
    case FreePayload(cookie) =>
      var (t, p) := Put(s.table, cookie);
      State(t, s.owned - {p})
  }

  /** An allocator does not hand out a buffer that is still owned. */
  predicate Fresh(s: State, r: Request) { r.AllocPayload? ==> r.p !in s.owned }

  ghost predicate LegalRequests(s: State, rs: seq<Request>)
    decreases |rs|
  {
    rs == [] || (Fresh(s, rs[0]) && LegalRequests(Serve(s, rs[0]), rs[1..]))
  }

  function ServeAll(s: State, rs: seq<Request>): State
    decreases |rs|
  {
    if rs == [] then s else ServeAll(Serve(s, rs[0]), rs[1..])
  }

  /** Cookies and owned buffers are in bijection. */
  ghost predicate Bijection(s: State)
  {
    var m := Handles(s.table);
    && (forall h :: h in m ==> m[h] in s.owned)
    && (forall p :: p in s.owned ==> HasCookie(m, p))
    && (forall h, k :: h in m && k in m && m[h] == m[k] ==> h == k)
  }

  ghost predicate HasCookie(m: map<nat, Ptr>, p: Ptr) { exists h :: h in m && m[h] == p }

  lemma AllocKeeps(s: State, p: Ptr, memory: bool)
    requires Bijection(s) && p !in s.owned
    ensures Bijection(Serve(s, AllocPayload(p, memory)))
  {
    var n := Serve(s, AllocPayload(p, memory));
    var m, m' := Handles(s.table), Handles(n.table);
    GetAddsLeast(s.table, p, memory);
    forall q | q in n.owned ensures HasCookie(m', q) {
      if q in s.owned {
        var h :| h in m && m[h] == q;
        assert h in m' && m'[h] == q;
      } else {
        assert m'[Get(s.table, p, memory).1] == q;
      }
    }
  }

  lemma FreeKeeps(s: State, cookie: int)
    requires Bijection(s)
    ensures Bijection(Serve(s, FreePayload(cookie)))
  {
    var n := Serve(s, FreePayload(cookie));
    var m, m' := Handles(s.table), Handles(n.table);
    PutRemoves(s.table, cookie);
    LookupIsMap(s.table, cookie);
    forall q | q in n.owned ensures HasCookie(m', q) {
      var h :| h in m && m[h] == q;
      assert h in m' && m'[h] == q;
    }
  }

  /** What a request does: a buffer gets the least free cookie and belongs to the secure world, unless
      it is NULL or the full table has no memory to grow; the buffer of a cookie is given up with it. */
  lemma ServeDoes(s: State, r: Request)
    requires Bijection(s) && Fresh(s, r)
    ensures match r
      case AllocPayload(p, memory) =>
        if p == 0 || (!memory && forall i :: 0 <= i < |s.table| ==> s.table[i] != 0) then Serve(s, r) == s
        else Serve(s, r).owned == s.owned + {p} && TakesLeast(Handles(s.table), Handles(Serve(s, r).table), p)
      case FreePayload(c) =>
        if c >= 0 && c in Handles(s.table)
        then Serve(s, r).owned == s.owned - {Handles(s.table)[c]}
          && Handles(Serve(s, r).table) == Handles(s.table) - {c}
        else Serve(s, r).owned == s.owned && Handles(Serve(s, r).table) == Handles(s.table)
  {
    match r
    case AllocPayload(p, memory) =>
      GetAddsLeast(s.table, p, memory);
      var h := Get(s.table, p, memory).1;
      if h >= 0 { assert TakesAt(Handles(s.table), Handles(Get(s.table, p, memory).0), p, h); }
    case FreePayload(c) =>
      PutRemoves(s.table, c);
      LookupIsMap(s.table, c);
      if !(c >= 0 && c in Handles(s.table)) { NobodyOwnsNull(s); }
  }

  predicate TakesAt(m: map<nat, Ptr>, n: map<nat, Ptr>, p: Ptr, h: nat)
  {
    h !in m && (forall i: nat :: i < h ==> i in m) && n == m[h := p]
  }

  ghost predicate TakesLeast(m: map<nat, Ptr>, n: map<nat, Ptr>, p: Ptr) { exists h: nat :: TakesAt(m, n, p, h) }

  lemma NobodyOwnsNull(s: State)
    requires Bijection(s)
    ensures 0 !in s.owned
  {
    assert 0 in s.owned ==> HasCookie(Handles(s.table), 0);
  }

  lemma ServeKeeps(s: State, r: Request)
    requires Bijection(s) && Fresh(s, r)
    ensures Bijection(Serve(s, r))
  {
    match r
    case AllocPayload(p, memory) => AllocKeeps(s, p, memory);
    case FreePayload(cookie) => FreeKeeps(s, cookie);
  }

  /** Over any run of requests. */
  lemma {:induction false} CookiesMatch(s: State, rs: seq<Request>)
    requires Bijection(s) && LegalRequests(s, rs)
    ensures Bijection(ServeAll(s, rs))
    decreases |rs|
  {
    if rs != [] {
      ServeKeeps(s, rs[0]);
      CookiesMatch(Serve(s, rs[0]), rs[1..]);
    }
  }

  /** From the empty table on, in every run of requests that are served one at a time: the cookies
      that the secure world can hold name the buffers that it owns, each buffer once. What happens
      when requests overlap is in HandleThreads and HandleOverlap. */
  lemma CookiesNameOwned(rs: seq<Request>)
    requires LegalRequests(State([], {}), rs)
    ensures Bijection(ServeAll(State([], {}), rs))
  {
    CookiesMatch(State([], {}), rs);
  }

  // ---------------------------------------------------------------- the table in place

  /** The capacities that handle_get can make: none, or 4 doubled some times. */
  ghost predicate Capacity(n: nat)
  {
    n == 0 || n == INITIAL_MAX_PTRS || (n % 2 == 0 && n > INITIAL_MAX_PTRS && Capacity(n / 2))
  }

  class HandleDb {
    var ptrs: array?<Ptr>
    var maxPtrs: nat

    ghost predicate Valid()
      reads this
    {
      (ptrs == null ==> maxPtrs == 0) && (ptrs != null ==> ptrs.Length == maxPtrs) && Capacity(maxPtrs)
    }

    ghost function View(): seq<Ptr>
      reads this, ptrs
      requires Valid()
    {
      if ptrs == null then [] else ptrs[..]
    }

    constructor ()
      ensures Valid() && View() == []
    {
      ptrs, maxPtrs := null, 0;
    }

    /** handle_get. */
    method HandleGet(ptr: Ptr, memory: bool) returns (h: int)
      requires Valid()
      modifies this, ptrs
      ensures Valid() && (ptrs == old(ptrs) || fresh(ptrs))
      ensures (View(), h) == Get(old(View()), ptr, memory)
    {
      if ptr == 0 { return -1; }
      var n := 0;
      while n < maxPtrs
        invariant 0 <= n <= maxPtrs && forall i :: 0 <= i < n ==> ptrs[i] != 0
      {
        if ptrs[n] == 0 {
          ptrs[n] := ptr;
          return n;
        }
        n := n + 1;
      }
      if !memory { return -1; }
      Grow();
      ptrs[n] := ptr;
      return n;
    }

    /** krealloc and memset. */
    method Grow()
      requires Valid()
      modifies this
      ensures Valid() && ptrs != null && fresh(ptrs)
      ensures View() == old(View()) + Zeros(Grown(old(maxPtrs)) - old(maxPtrs))
    {
      var newMaxPtrs := if maxPtrs != 0 then maxPtrs * 2 else INITIAL_MAX_PTRS;
      var p := new Ptr[newMaxPtrs](_ => 0);
      if ptrs != null {
        forall i | 0 <= i < maxPtrs { p[i] := ptrs[i]; }
      }
      ptrs, maxPtrs := p, newMaxPtrs;
    }

    /** handle_put. */
    method HandlePut(handle: int) returns (p: Ptr)
      requires Valid()
      modifies ptrs
      ensures Valid() && (View(), p) == Put(old(View()), handle)
    {
      if handle < 0 || handle >= maxPtrs { return 0; }
      p := ptrs[handle];
      ptrs[handle] := 0;
    }

    /** handle_lookup. */
    method HandleLookup(handle: int) returns (p: Ptr)
      requires Valid()
      ensures p == Lookup(View(), handle)
    {
      if handle < 0 || handle >= maxPtrs { return 0; }
      return ptrs[handle];
    }

    /** handle_db_destroy. */
    method Destroy()
      requires Valid()
      modifies this
      ensures Valid() && View() == []
    {
      ptrs, maxPtrs := null, 0;
    }
  }
}
