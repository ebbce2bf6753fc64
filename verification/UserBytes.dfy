/** User memory as a flat space of bytes, one per virtual address. */
module UserBytes {
  import opened Words
  import opened PageTables
  import opened Translation
  import opened Changes

  /** walkaddr: the frame of a user page, 0 when there is none. */
  function UserFrame(s: State, r: nat, vpn: nat): nat {
    var w := Lookup(s.mem, r, vpn);
    if vpn < MAXVPN && w.Some? && U(w.value) then Ppn(w.value) else 0
  }

  predicate Writable(s: State, r: nat, vpn: nat) {
    var w := Lookup(s.mem, r, vpn);
    UserFrame(s, r, vpn) != 0 && w.Some? && W(w.value)
  }

  /** Every user page has a frame of its own. */
  ghost predicate UserOwned(s: State, r: nat) {
    forall v :: 0 <= v < MAXVPN && UserFrame(s, r, v) != 0 ==>
      UserFrame(s, r, v) in s.owner && OwnedBy(s.owner[UserFrame(s, r, v)], r, v, 1)
  }

  /** The byte at a user address. */
  function UByte(s: State, r: nat, va: nat): Option<Byte> {
    var f := UserFrame(s, r, va / PGSIZE);
    if f == 0 || f >= |s.mem| then None else Some(Bytes(s.mem[f])[va % PGSIZE])
  }

  /** A run of user bytes equals a given sequence. */
  ghost predicate Reads(s: State, r: nat, va: nat, b: seq<Byte>) {
    forall k :: va <= k < va + |b| ==> UByte(s, r, k) == Some(b[k - va])
  }

  /** The n bytes from va on, which lie in one page, are a slice of its frame. */
  lemma PageSlice(s: State, r: nat, va: nat, n: nat)
    requires DomOk(s) && va % PGSIZE + n <= PGSIZE && UserFrame(s, r, va / PGSIZE) != 0
    requires UserFrame(s, r, va / PGSIZE) < |s.mem|
    ensures Reads(s, r, va, Bytes(s.mem[UserFrame(s, r, va / PGSIZE)])[va % PGSIZE..va % PGSIZE + n])
  {
    hide UserFrame;
    forall k | va <= k < va + n
      ensures k / PGSIZE == va / PGSIZE && k % PGSIZE == va % PGSIZE + (k - va)
    {
      SamePage(va, k - va);
    }
  }

  lemma SamePage(va: nat, d: nat)
    requires va % PGSIZE + d < PGSIZE
    ensures (va + d) / PGSIZE == va / PGSIZE && (va + d) % PGSIZE == va % PGSIZE + d
  {
  }

  lemma ReadsAppend(s: State, r: nat, va: nat, a: seq<Byte>, b: seq<Byte>)
    requires Reads(s, r, va, a) && Reads(s, r, va + |a|, b)
    ensures Reads(s, r, va, a + b)
  {
    hide UByte;
  }

  lemma OwnedFrame(s: State, r: nat, v: nat)
    requires DomOk(s) && UserOwned(s, r) && UserFrame(s, r, v) != 0
    ensures UserFrame(s, r, v) in s.owner && OwnedBy(s.owner[UserFrame(s, r, v)], r, v, 1)
    ensures UserFrame(s, r, v) < |s.mem|
  {
  }

  // ---------------------------------------------------------------- writing

  /** memmove of some bytes into a frame. */
  function Poked(s: State, f: nat, off: nat, b: seq<Byte>): State
    requires f < |s.mem| && off + |b| <= PGSIZE
  {
    Filled(s, f, FromBytes(Splice(Bytes(s.mem[f]), off, b)))
  }

  /** Between two states, only the contents of leaf frames of r differ. */
  ghost predicate OnlyLeaves(s: State, s': State, r: nat) {
    && s'.lo == s.lo && |s'.mem| == |s.mem| && s'.owner == s.owner && s'.fl == s.fl
    && (forall f :: 0 <= f < |s.mem| && !(f in s.owner && s.owner[f].Leaf? && s.owner[f].root == r) ==>
          s'.mem[f] == s.mem[f])
    && (forall q, v :: IsRoot(s, q) && 0 <= v < MAXVPN ==> Lookup(s'.mem, q, v) == Lookup(s.mem, q, v))
  }

  /** The bytes b are now at va in the space of r; every other byte of every space is as it was. */
  ghost predicate Wrote(s: State, s': State, r: nat, va: nat, b: seq<Byte>) {
    forall q, a :: IsRoot(s, q) && UserOwned(s, q) && 0 <= a ==>
      UByte(s', q, a) == if q == r && va <= a < va + |b| then Some(b[a - va]) else UByte(s, q, a)
  }

  lemma PokedLeaves(s: State, r: nat, f: nat, off: nat, b: seq<Byte>)
    requires Wf(s) && f in s.owner && s.owner[f].Leaf? && s.owner[f].root == r && off + |b| <= PGSIZE
    ensures Wf(Poked(s, f, off, b)) && OnlyLeaves(s, Poked(s, f, off, b), r)
  {
    hide FreeOk, Down, Up, LeafOk, Lookup, Missing, Bytes, FromBytes, Splice;
    var p := FromBytes(Splice(Bytes(s.mem[f]), off, b));
    FilledCore(s, f, p);
    forall q, v | IsRoot(s, q) && 0 <= v < MAXVPN
      ensures Lookup(Filled(s, f, p).mem, q, v) == Lookup(s.mem, q, v)
    {
      LookupKept(s, Filled(s, f, p).mem, q);
    }
  }

  lemma SameFrames(s: State, s': State, r: nat, q: nat)
    requires OnlyLeaves(s, s', r) && IsRoot(s, q)
    ensures forall v :: 0 <= v < MAXVPN ==>
              UserFrame(s', q, v) == UserFrame(s, q, v) && Writable(s', q, v) == Writable(s, q, v)
    ensures UserOwned(s', q) == UserOwned(s, q)
  {
    hide Lookup;
  }

  lemma SpliceAt(b: seq<Byte>, off: nat, s: seq<Byte>, k: nat)
    requires off + |s| <= |b| && k < |b|
    ensures Splice(b, off, s)[k] == if off <= k < off + |s| then s[k - off] else b[k]
  {
  }

  lemma PokedWrote(s: State, r: nat, va: nat, b: seq<Byte>)
    requires Wf(s) && IsRoot(s, r) && UserOwned(s, r) && va % PGSIZE + |b| <= PGSIZE
    requires UserFrame(s, r, va / PGSIZE) != 0
    ensures var f := UserFrame(s, r, va / PGSIZE);
            && f in s.owner && s.owner[f].Leaf? && s.owner[f].root == r
            && Wrote(s, Poked(s, f, va % PGSIZE, b), r, va, b)
  {
    hide FreeOk, Down, Up, LeafOk, Lookup, Bytes, FromBytes, Splice, UserFrame, UserOwned;
    OwnedFrame(s, r, va / PGSIZE);
    var f := UserFrame(s, r, va / PGSIZE);
    var s' := Poked(s, f, va % PGSIZE, b);
    PokedLeaves(s, r, f, va % PGSIZE, b);
    forall q, a | IsRoot(s, q) && UserOwned(s, q) && 0 <= a
      ensures UByte(s', q, a) == if q == r && va <= a < va + |b| then Some(b[a - va]) else UByte(s, q, a)
    {
      PokedByte(s, r, va, b, q, a);
    }
  }

  lemma PokedBytes(s: State, f: nat, off: nat, b: seq<Byte>, g: nat)
    requires f < |s.mem| && off + |b| <= PGSIZE && g < |s.mem|
    ensures |Poked(s, f, off, b).mem| == |s.mem|
    ensures Bytes(Poked(s, f, off, b).mem[g]) == if g == f then Splice(Bytes(s.mem[f]), off, b) else Bytes(s.mem[g])
  {
    BytesOfPage(Splice(Bytes(s.mem[f]), off, b));
    hide Bytes, FromBytes, Splice;
  }

  lemma PokedFrame(s: State, r: nat, f: nat, off: nat, b: seq<Byte>, q: nat, v: nat)
    requires Wf(s) && f in s.owner && s.owner[f].Leaf? && s.owner[f].root == r && off + |b| <= PGSIZE && IsRoot(s, q)
    ensures UserFrame(Poked(s, f, off, b), q, v) == UserFrame(s, q, v)
  {
    hide FreeOk, Down, Up, LeafOk, UserFrame, Lookup, OnlyLeaves, Poked, Writable, UserOwned;
    PokedLeaves(s, r, f, off, b);
    SameFrames(s, Poked(s, f, off, b), r, q);
    FrameBound(s, Poked(s, f, off, b), q, v);
  }

  /** A byte in frame g of page v, when the frame f of page va / PGSIZE is written. */
  lemma PokedByte(s: State, r: nat, va: nat, b: seq<Byte>, q: nat, a: nat)
    requires Wf(s) && IsRoot(s, r) && UserOwned(s, r) && va % PGSIZE + |b| <= PGSIZE
    requires UserFrame(s, r, va / PGSIZE) != 0 && UserFrame(s, r, va / PGSIZE) < |s.mem|
    requires IsRoot(s, q) && UserOwned(s, q)
    ensures UByte(Poked(s, UserFrame(s, r, va / PGSIZE), va % PGSIZE, b), q, a)
            == if q == r && va <= a < va + |b| then Some(b[a - va]) else UByte(s, q, a)
  {
    hide FreeOk, Down, Up, LeafOk, UserFrame, Lookup, Poked, UserOwned, Bytes, Splice;
    var f, g := UserFrame(s, r, va / PGSIZE), UserFrame(s, q, a / PGSIZE);
    OwnedFrame(s, r, va / PGSIZE);
    PokedFrame(s, r, f, va % PGSIZE, b, q, a / PGSIZE);
    if g != 0 {
      OwnedFrame(s, q, a / PGSIZE);
      PokedBytes(s, f, va % PGSIZE, b, g);
      if g == f {
        assert q == r && a / PGSIZE == va / PGSIZE;
        SpliceAt(Bytes(s.mem[f]), va % PGSIZE, b, a % PGSIZE);
        InRun(va, |b|, a);
      } else if q == r {
        OtherPage(va, |b|, a);
      }
    } else if q == r && a / PGSIZE != va / PGSIZE {
      OtherPage(va, |b|, a);
    }
  }

  lemma FrameBound(s: State, s': State, q: nat, v: nat)
    requires forall v :: 0 <= v < MAXVPN ==> UserFrame(s', q, v) == UserFrame(s, q, v)
    ensures UserFrame(s', q, v) == UserFrame(s, q, v)
  {
    hide Lookup;
  }

  /** In one page, addresses order as offsets do. */
  lemma InRun(va: nat, n: nat, a: nat)
    requires a / PGSIZE == va / PGSIZE && va % PGSIZE + n <= PGSIZE
    ensures va <= a < va + n <==> va % PGSIZE <= a % PGSIZE < va % PGSIZE + n
    ensures a - va == a % PGSIZE - va % PGSIZE
  {
  }

  lemma OtherPage(va: nat, n: nat, a: nat)
    requires a / PGSIZE != va / PGSIZE && va % PGSIZE + n <= PGSIZE
    ensures !(va <= a < va + n)
  {
  }

  lemma WroteNothing(s: State, r: nat, va: nat)
    ensures OnlyLeaves(s, s, r) && Wrote(s, s, r, va, [])
  {
    hide Lookup, UByte, UserOwned;
  }

  lemma WroteMore(s: State, s': State, s'': State, r: nat, va: nat, a: seq<Byte>, b: seq<Byte>)
    requires OnlyLeaves(s, s', r) && Wrote(s, s', r, va, a)
    requires OnlyLeaves(s', s'', r) && Wrote(s', s'', r, va + |a|, b)
    ensures OnlyLeaves(s, s'', r) && Wrote(s, s'', r, va, a + b)
  {
    hide Lookup, UByte, UserOwned;
    forall q | IsRoot(s, q)
      ensures IsRoot(s', q) && UserOwned(s', q) == UserOwned(s, q)
    {
      SameFrames(s, s', r, q);
    }
    hide UserFrame;
  }

  // ------------------------------------------------------ steps of the loops

  lemma ReadsNothing(s: State, r: nat, va: nat)
    ensures Reads(s, r, va, [])
  {
  }

  lemma ReadsOneMore(s: State, r: nat, va: nat, b: seq<Byte>, c: Byte)
    requires Reads(s, r, va, b) && UByte(s, r, va + |b|) == Some(c)
    ensures Reads(s, r, va, b + [c])
  {
    hide UByte;
  }

  lemma PageByte(s: State, r: nat, va: nat, d: nat)
    requires va % PGSIZE + d < PGSIZE && UserFrame(s, r, va / PGSIZE) != 0 && UserFrame(s, r, va / PGSIZE) < |s.mem|
    ensures UByte(s, r, va + d) == Some(Bytes(s.mem[UserFrame(s, r, va / PGSIZE)])[va % PGSIZE + d])
  {
    SamePage(va, d);
    hide UserFrame, Bytes;
  }

  lemma LeavesRoot(s0: State, s: State, r: nat, v: nat)
    requires OnlyLeaves(s0, s, r) && IsRoot(s0, r)
    ensures IsRoot(s, r) && UserOwned(s, r) == UserOwned(s0, r) && Writable(s, r, v) == Writable(s0, r, v)
  {
    SameFrames(s0, s, r, r);
    if v >= MAXVPN {
      NotUser(s, r, v);
      NotUser(s0, r, v);
    }
    hide UserOwned, Lookup, UserFrame, Writable;
  }

  lemma NotUser(s: State, r: nat, v: nat)
    requires v >= MAXVPN || UserFrame(s, r, v) == 0
    ensures !Writable(s, r, v)
  {
    hide Lookup;
  }

  lemma MissingUser(s: State, r: nat, v: nat)
    requires Wf(s) && IsRoot(s, r) && UserFrame(s, r, v) != 0
    ensures v < MAXVPN && Missing(s.mem, r, v) == 0
  {
    hide Wf, Lookup, Missing;
    MappedNotMissing(s, r, v);
  }

  lemma EntryWritable(s: State, r: nat, v: nat, w: nat)
    requires UserFrame(s, r, v) != 0 && (Lookup(s.mem, r, v) == if V(w) then Some(w) else None)
    ensures Writable(s, r, v) <==> W(w)
  {
    hide Lookup;
  }

  lemma RunInPage(va: nat, m: nat)
    requires va % PGSIZE + m <= PGSIZE
    ensures forall k :: va <= k < va + m ==> k / PGSIZE == va / PGSIZE
  {
    forall k | va <= k < va + m
      ensures k / PGSIZE == va / PGSIZE
    {
      SamePage(va, k - va);
    }
  }

  /** What copyout stored, copyin fetches. */
  lemma WriteThenRead(s: State, s': State, r: nat, va: nat, b: seq<Byte>, got: seq<Byte>)
    requires IsRoot(s, r) && UserOwned(s, r) && Wrote(s, s', r, va, b)
    requires Reads(s', r, va, got) && |got| == |b|
    ensures got == b
  {
    hide UByte, UserOwned;
    forall k | 0 <= k < |b|
      ensures got[k] == b[k]
    {
      assert UByte(s', r, va + k) == Some(b[k]);
    }
  }
}
