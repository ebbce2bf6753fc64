/** The memory side of fork. */
module KernelFork {
  import opened Words
  import opened PageTables
  import opened Translation
  import opened Changes
  import opened Fork
  import opened Places
  import opened UserBytes
  import opened Space
  import opened PhysicalMemory
  import opened ProcessMemory

  // struct trapframe has 36 words; a0 is word 14.
  const TF_WORDS: nat := 36
  const TF_A0: nat := 14

  /** The child's trapframe page: the parent's registers, with a0 = 0, and its own rest. */
  function ForkedFrame(parent: Page, child: Page): Page {
    (parent[..TF_WORDS] + child[TF_WORDS..])[TF_A0 := 0]
  }

  /** A space that owns its pages can be copied into an empty one. */
  lemma ForkReady(s: State, kroot: nat, ps: nat, p: nat, ptf: nat, cs: nat, c: nat, ctf: nat, tramp: nat, sz: nat)
    requires ProcOk(s, kroot, ps, p, ptf, tramp, sz) && ProcOk(s, kroot, cs, c, ctf, tramp, 0) && p != c
    ensures CanCopy(s, p, c, Pages(sz))
  {
    hide Wf, Lookup, OwnPage;
  }

  /** The child's space is complete after the copy. */
  lemma ForkedSpace(s0: State, s: State, p: nat, c: nat, tf: nat, tramp: nat, sz: nat)
    requires SpaceOk(s0, c, tf, tramp, 0) && Pages(sz) <= TRAPFRAME
    requires Copied(s0, s, p, c, Pages(sz)) && Wf(s)
    ensures SpaceOk(s, c, tf, tramp, sz)
  {
    hide Wf, Lookup, OwnPage, PageCopied, SameButTables, Pages, Pte;
    CopiedRoots(s0, s, p, c, Pages(sz));
    CopiedOwn(s0, s, p, c, Pages(sz));
    assert Pages(0) == 0 by { NoPages(); }
    assert OwnNone(s, c, TRAPFRAME, 2);
  }

  lemma NoPages()
    ensures Pages(0) == 0
  {
  }

  lemma UndoneSpace(s0: State, s: State, c: nat, tf: nat, tramp: nat)
    requires SpaceOk(s0, c, tf, tramp, 0) && CopyUndone(s0, s, c) && Wf(s)
    ensures SpaceOk(s, c, tf, tramp, 0) && Local(s0, s, c, {})
  {
    hide Wf, Lookup, OwnPage, Pte;
    NoPages();
  }

  /** Byte for byte, the child reads what the parent read. */
  lemma ForkedBytes(s0: State, s: State, p: nat, c: nat, n: nat)
    requires CanCopy(s0, p, c, n) && Copied(s0, s, p, c, n) && Wf(s)
    ensures forall a :: 0 <= a < n * PGSIZE ==> UByte(s, c, a) == UByte(s0, p, a)
  {
    hide FreeOk, Down, Up, LeafOk, Lookup, SameButTables, CopyOwners, OthersKept, UByte;
    forall a | 0 <= a < n * PGSIZE
      ensures UByte(s, c, a) == UByte(s0, p, a)
    {
      assert PageCopied(s0, s, p, c, a / PGSIZE);
      ForkedByte(s0, s, p, c, a);
    }
  }

  /** The first n pages are mapped for c in s as they were for p in s0, with the same flags. */
  ghost predicate SameFlags(s0: State, s: State, p: nat, c: nat, n: nat) {
    forall v :: 0 <= v < n ==>
      var w, w' := Lookup(s0.mem, p, v), Lookup(s.mem, c, v);
      (w.None? <==> w'.None?) && (w.Some? && w'.Some? ==> w'.value % 1024 == w.value % 1024)
  }

  lemma ForkedFlags(s0: State, s: State, p: nat, c: nat, n: nat)
    requires Copied(s0, s, p, c, n)
    ensures SameFlags(s0, s, p, c, n)
  {
    hide Lookup, SameButTables, CopyOwners, OthersKept, OwnPage;
    forall v | 0 <= v < n
      ensures var w, w' := Lookup(s0.mem, p, v), Lookup(s.mem, c, v);
              (w.None? <==> w'.None?) && (w.Some? && w'.Some? ==> w'.value % 1024 == w.value % 1024)
    {
      assert PageCopied(s0, s, p, c, v);
    }
  }

  lemma FilledFlags(s0: State, s: State, f: nat, page: Page, p: nat, c: nat, n: nat)
    requires Wf(s) && IsRoot(s, c) && n <= MAXVPN && SameFlags(s0, s, p, c, n)
    requires f in s.owner && IsData(s.owner[f])
    ensures SameFlags(s0, Filled(s, f, page), p, c, n)
  {
    hide FreeOk, Down, Up, LeafOk, Lookup;
    FilledLookup(s, f, page);
  }

  lemma ForkedByte(s0: State, s: State, p: nat, c: nat, a: nat)
    requires DomOk(s0) && DomOk(s) && PageCopied(s0, s, p, c, a / PGSIZE)
    requires Lookup(s0.mem, p, a / PGSIZE).Some? ==> OwnPage(s0, p, a / PGSIZE)
    ensures UByte(s, c, a) == UByte(s0, p, a)
  {
    hide Lookup, Bytes, Flags, Ppn;
    if Lookup(s0.mem, p, a / PGSIZE).Some? {
      UserFlag(Lookup(s0.mem, p, a / PGSIZE).value, Lookup(s.mem, c, a / PGSIZE).value);
    }
  }

  /** The user bit is one of the flags. */
  lemma UserFlag(w: nat, w': nat)
    requires Flags(w) == Flags(w')
    ensures U(w) == U(w')
  {
    FlagBit(w);
    FlagBit(w');
  }

  lemma FlagBit(w: nat)
    ensures U(w) == U(Flags(w))
  {
    Sixteenth(w / 1024, w % 1024);
  }

  lemma Sixteenth(high: nat, low: nat)
    ensures (high * 1024 + low) / 16 == high * 64 + low / 16
  {
  }

  /** After a fork, what one process writes the other does not see. */
  lemma ForkIsolates(s0: State, s: State, s': State, p: nat, c: nat, n: nat, w: nat, va: nat, b: seq<Byte>)
    requires CanCopy(s0, p, c, n) && Copied(s0, s, p, c, n) && Wf(s)
    requires UserOwned(s, p) && UserOwned(s, c) && Wrote(s, s', w, va, b)
    ensures w == p ==> forall a :: 0 <= a < n * PGSIZE ==> UByte(s', c, a) == UByte(s0, p, a)
    ensures w == c ==> forall a :: 0 <= a ==> UByte(s', p, a) == UByte(s, p, a)
  {
    hide Wf, UserOwned, Lookup, UByte, Copied;
    ForkedBytes(s0, s, p, c, n);
    CopiedRoots(s0, s, p, c, n);
    hide CanCopy;
  }

  lemma CopiedProcess(s0: State, s: State, kroot: nat, p: nat, slot: nat, c: nat, tf: nat, tramp: nat, sz: nat)
    requires ProcOk(s0, kroot, slot, c, tf, tramp, 0) && Pages(sz) <= TRAPFRAME && Copied(s0, s, p, c, Pages(sz))
    requires Wf(s)
    ensures ProcOk(s, kroot, slot, c, tf, tramp, sz) && Local(s0, s, c, {})
    ensures tf in s.owner && s.owner[tf].Trapframe?
  {
    hide Wf, Copied, SpaceOk, Local, Pages, Lookup, OwnPage;
    ForkedSpace(s0, s, p, c, tf, tramp, sz);
    CopiedLocal(s0, s, p, c, Pages(sz));
    SpaceWf(s0, c, tf, tramp, 0);
    OtherKernel(s0, s, c, {}, kroot, slot, c, tf, tramp, sz);
  }

  lemma SpaceWf(s: State, r: nat, tf: nat, tramp: nat, sz: nat)
    requires SpaceOk(s, r, tf, tramp, sz)
    ensures Wf(s) && IsRoot(s, r) && Pages(sz) <= TRAPFRAME
  {
    hide Wf, Lookup, OwnPage;
  }

  lemma UndoneProcess(s0: State, s: State, kroot: nat, slot: nat, c: nat, tf: nat, tramp: nat)
    requires ProcOk(s0, kroot, slot, c, tf, tramp, 0) && CopyUndone(s0, s, c) && Wf(s)
    ensures ProcOk(s, kroot, slot, c, tf, tramp, 0) && Local(s0, s, c, {})
  {
    hide Wf, CopyUndone, SpaceOk, Local, Lookup, OwnPage;
    UndoneSpace(s0, s, c, tf, tramp);
    SpaceWf(s0, c, tf, tramp, 0);
    OtherKernel(s0, s, c, {}, kroot, slot, c, tf, tramp, 0);
  }

  /** The trapframe of another slot is not touched by work on space c. */
  lemma ParentFrame(s0: State, s: State, c: nat, kroot: nat, ps: nat, p: nat, ptf: nat, tramp: nat, sz: nat)
    requires ProcOk(s0, kroot, ps, p, ptf, tramp, sz) && Local(s0, s, c, {})
    ensures ptf < |s0.mem| && ptf < |s.mem| && s.mem[ptf] == s0.mem[ptf] && ptf in s.owner
    ensures s.owner[ptf] == Trapframe(ps)
  {
    hide FreeOk, Down, Up, LeafOk, Lookup, OwnPage;
  }

  /** kfork's memory: the child, fresh from allocproc, becomes a copy of the parent. */
  method KFork(pm: PhysMem, kroot: nat, ghost tramp: nat, parent: Proc, child: Proc) returns (ok: bool)
    requires pm.Valid() && parent.Live(pm.S(), kroot, tramp) && child.Live(pm.S(), kroot, tramp)
    requires child.sz == 0 && parent.pagetable != child.pagetable && parent.slot != child.slot
    modifies child`sz, pm, pm.mem
    ensures pm.Valid() && child.Live(pm.S(), kroot, tramp)
    ensures OthersOk(old(pm.S()), pm.S(), kroot, child.slot, child.pagetable, tramp)
    ensures Local(old(pm.S()), pm.S(), child.pagetable, {child.trapframe})
    ensures ok <==> Needed(old(pm.S()), parent.pagetable, child.pagetable, Pages(parent.sz)) <= |old(pm.fl)|
    ensures !ok ==> child.sz == 0
    ensures ok ==> child.sz == parent.sz
    ensures ok ==> forall a :: 0 <= a < Pages(parent.sz) * PGSIZE ==>
              UByte(pm.S(), child.pagetable, a) == UByte(old(pm.S()), parent.pagetable, a)
    ensures ok ==> SameFlags(old(pm.S()), pm.S(), parent.pagetable, child.pagetable, Pages(parent.sz))
    ensures ok ==> child.trapframe < pm.mem.Length && parent.trapframe < pm.mem.Length
                   && pm.mem[child.trapframe][36..] == old(pm.mem[..])[child.trapframe][36..]
                   && pm.mem[child.trapframe][..36] == old(pm.mem[..])[parent.trapframe][..36][14 := 0]
  {
    hide FreeOk, Down, Up, LeafOk, Lookup, Missing, OthersOk, Local, ProcOk, CanCopy, Copied, CopyUndone, Pages,
        UByte, UserOwned, UserFrame, Needed, SameFlags;
    ghost var s0, c, tf, z := pm.S(), child.pagetable, child.trapframe, parent.sz;
    ForkReady(s0, kroot, parent.slot, parent.pagetable, parent.trapframe, child.slot, c, tf, tramp, z);
    PagesIs(z);
    ParentSize(s0, kroot, parent.slot, parent.pagetable, parent.trapframe, tramp, z);
    ok := pm.Uvmcopy(parent.pagetable, child.pagetable, parent.sz);
    ghost var s1 := pm.S();
    if !ok {
      UndoneProcess(s0, s1, kroot, child.slot, c, tf, tramp);
      LocalMore(s0, s1, c, {}, {tf});
      ChildFacts(s0, kroot, child.slot, c, tf, tramp, 0);
      OthersLocal(s0, s1, {}, kroot, child.slot, c, tramp);
      return;
    }
    CopiedProcess(s0, s1, kroot, parent.pagetable, child.slot, c, tf, tramp, z);
    ForkedBytes(s0, s1, parent.pagetable, c, Pages(z));
    ForkedFlags(s0, s1, parent.pagetable, c, Pages(z));
    ParentFrame(s0, s1, c, kroot, parent.slot, parent.pagetable, parent.trapframe, tramp, z);
    ParentFrame(s0, s1, c, kroot, child.slot, c, tf, tramp, 0);
    ChildFacts(s1, kroot, child.slot, c, tf, tramp, z);
    child.sz := parent.sz;
    ghost var page := ForkedFrame(pm.mem[parent.trapframe], pm.mem[child.trapframe]);
    FilledProcess(s1, tf, page, kroot, child.slot, c, tf, tramp, z);
    FilledBytes(s1, tf, page, c);
    FilledFlags(s0, s1, tf, page, parent.pagetable, c, Pages(z));
    FilledLocal(s1, c, tf, page);
    LocalMore(s0, s1, c, {}, {tf});
    LocalTrans(s0, s1, Filled(s1, tf, page), c, {tf});
    ChildFacts(s0, kroot, child.slot, c, tf, tramp, 0);
    pm.FillPage(child.trapframe, ForkedFrame(pm.mem[parent.trapframe], pm.mem[child.trapframe]));
    OthersLocal(s0, pm.S(), {tf}, kroot, child.slot, c, tramp);
  }

  lemma PagesIs(sz: nat)
    ensures Pages(sz) == (sz + PGSIZE - 1) / PGSIZE
  {
  }

  lemma ParentSize(s: State, kroot: nat, slot: nat, r: nat, tf: nat, tramp: nat, sz: nat)
    requires ProcOk(s, kroot, slot, r, tf, tramp, sz)
    ensures Pages(sz) <= TRAPFRAME && sz <= MAXVA
  {
    hide Wf, Lookup, OwnPage;
  }

  lemma ChildFacts(s: State, kroot: nat, slot: nat, r: nat, tf: nat, tramp: nat, sz: nat)
    requires ProcOk(s, kroot, slot, r, tf, tramp, sz)
    ensures Wf(s) && IsRoot(s, r) && UserOwned(s, r) && r != kroot && tf in s.owner && s.owner[tf] == Trapframe(slot)
    ensures tf < |s.mem|
  {
    hide FreeOk, Down, Up, LeafOk, Lookup, OwnPage, Pages, UserOwned;
    SpaceUserOwned(s, r, tf, tramp, sz);
  }
}
