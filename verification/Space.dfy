/** What belongs to a process, and how work on one address space leaves all others alone. */
module Space {
  import opened Words
  import opened PageTables
  import opened Translation
  import opened Changes
  import opened Fork
  import opened Teardown
  import opened UserBytes

  predicate InSpace(o: Owner, r: nat) {
    (o.Node? && o.root == r) || (o.Leaf? && o.root == r)
  }

  /** Besides the frames in x, only free frames and frames of space r are touched. */
  ghost predicate Local(s: State, s': State, r: nat, x: set<nat>) {
    && s'.lo == s.lo && |s'.mem| == |s.mem| && s'.owner.Keys == s.owner.Keys
    && (forall f :: f in s.owner && f in s'.owner && f !in x ==>
          || s'.owner[f] == s.owner[f]
          || ((s.owner[f].Free? || InSpace(s.owner[f], r)) && (s'.owner[f].Free? || InSpace(s'.owner[f], r))))
    && (forall f :: 0 <= f < |s.mem| && f !in x && (f in s.owner ==> !s.owner[f].Free? && !InSpace(s.owner[f], r))
          ==> s'.mem[f] == s.mem[f])
  }

  lemma LocalTrans(s: State, s': State, s'': State, r: nat, x: set<nat>)
    requires Local(s, s', r, x) && Local(s', s'', r, x)
    ensures Local(s, s'', r, x)
  {
  }

  lemma LocalRefl(s: State, r: nat, x: set<nat>)
    ensures Local(s, s, r, x)
  {
  }

  lemma LocalMore(s: State, s': State, r: nat, x: set<nat>, y: set<nat>)
    requires Local(s, s', r, x) && x <= y
    ensures Local(s, s', r, y)
  {
  }

  /** A frame that was free and has become part of r, or free again, is no exception. */
  lemma LocalDrop(s: State, s': State, r: nat, x: set<nat>, g: nat)
    requires Local(s, s', r, x) && g in s.owner && g in s'.owner
    requires s.owner[g].Free? && (s'.owner[g].Free? || InSpace(s'.owner[g], r))
    ensures Local(s, s', r, x - {g})
  {
  }

  lemma LocalLookup(s: State, s': State, r: nat, x: set<nat>, q: nat)
    requires Wf(s) && Local(s, s', r, x) && IsRoot(s, q) && q != r
    requires forall f :: f in x && f in s.owner ==> !s.owner[f].Node?
    ensures forall v :: 0 <= v < MAXVPN ==>
              Lookup(s'.mem, q, v) == Lookup(s.mem, q, v) && Missing(s'.mem, q, v) == Missing(s.mem, q, v)
    ensures IsRoot(s', q)
  {
    assert UpAt(s, q);
    hide FreeOk, Down, Up, LeafOk, Lookup, Missing;
    LookupKept(s, s'.mem, q);
  }

  // --------------------------------------------- the operations are local

  lemma PoppedLocal(s: State, r: nat)
    requires DomOk(s) && FreeOk(s) && s.fl != []
    ensures Local(s, Popped(s), r, {s.fl[0]})
  {
  }

  lemma PushedLocal(s: State, r: nat, f: nat)
    requires DomOk(s) && f in s.owner
    ensures Local(s, Pushed(s, f), r, {f})
  {
  }

  lemma FilledLocal(s: State, r: nat, f: nat, p: Page)
    requires f < |s.mem|
    ensures Local(s, Filled(s, f, p), r, {f})
  {
  }

  lemma ClearedLocal(s: State, s': State, r: nat, v0: nat, k: nat, free: bool)
    requires PagesCleared(s, s', r, v0, k, free) && (free || OwnNone(s, r, v0, k))
    ensures Local(s, s', r, {})
  {
    hide Wf, MapsNone;
  }

  lemma MappedLocal(s: State, s': State, r: nat, vpn: nat, frame: nat, perm: nat, own: bool)
    requires PageMapped(s, s', r, vpn, frame, perm, own)
    ensures Local(s, s', r, if own then {frame} else {})
  {
    hide Wf, MapsTo;
  }

  lemma GrownLocal(s: State, s': State, r: nat)
    requires Grown(s, s', r)
    ensures Local(s, s', r, {})
  {
    hide Lookup;
  }

  lemma LeavesLocal(s: State, s': State, r: nat)
    requires OnlyLeaves(s, s', r)
    ensures Local(s, s', r, {})
  {
    hide Lookup;
  }

  lemma CopiedLocal(s0: State, s: State, p: nat, c: nat, n: nat)
    requires Copied(s0, s, p, c, n)
    ensures Local(s0, s, c, {})
  {
    hide PageCopied, OthersKept;
  }

  lemma GoneLocal(s: State, s': State, r: nat)
    requires TreeGone(s, s', r)
    ensures Local(s, s', r, {})
  {
    hide Wf, Lookup, Missing;
  }

  // -------------------------------------------------------------- processes

  function Pages(sz: nat): nat { (sz + PGSIZE - 1) / PGSIZE }

  /** The frames of a process: trapframe, page tables, user pages, kernel stack. */
  predicate Belongs(o: Owner, kroot: nat, slot: nat, r: nat) {
    InSpace(o, r) || o == Trapframe(slot) || (slot < NPROC && OwnedBy(o, kroot, KStack(slot), 1))
  }

  /** The user part of the space: pages below sz, each with a frame of its own, and the two shared pages. */
  ghost predicate SpaceOk(s: State, r: nat, tf: nat, tramp: nat, sz: nat) {
    && Wf(s) && IsRoot(s, r) && Pages(sz) <= TRAPFRAME
    && Lookup(s.mem, r, TRAPFRAME) == Some(Pte(tf, PTE_R + PTE_W))
    && Lookup(s.mem, r, TRAMPOLINE) == Some(Pte(tramp, PTE_R + PTE_X))
    && OwnNone(s, r, TRAPFRAME, 2)
    && (forall v :: 0 <= v < Pages(sz) ==> OwnPage(s, r, v))
    && (forall v :: Pages(sz) <= v < TRAPFRAME ==> Lookup(s.mem, r, v) == None)
  }

  /** The kernel's part: trapframe and kernel stack. */
  ghost predicate KernelPartOk(s: State, kroot: nat, slot: nat, tf: nat) {
    && IsRoot(s, kroot) && slot < NPROC
    && tf in s.owner && (forall f :: f in s.owner ==> (s.owner[f] == Trapframe(slot) <==> f == tf))
    && Lookup(s.mem, kroot, KStack(slot)).Some? && OwnPage(s, kroot, KStack(slot))
  }

  ghost predicate ProcOk(s: State, kroot: nat, slot: nat, r: nat, tf: nat, tramp: nat, sz: nat) {
    SpaceOk(s, r, tf, tramp, sz) && KernelPartOk(s, kroot, slot, tf) && r != kroot
  }

  /** Work on another space does not disturb a process. */
  lemma OtherProcess(s: State, s': State, q: nat, x: set<nat>, kroot: nat, slot: nat, r: nat, tf: nat, tramp: nat,
      sz: nat)
    requires ProcOk(s, kroot, slot, r, tf, tramp, sz) && Wf(s') && Local(s, s', q, x) && q != r && q != kroot
    requires forall f :: f in x && f in s.owner ==> !s.owner[f].Node? && !Belongs(s.owner[f], kroot, slot, r)
    requires forall f :: f in x && f in s'.owner ==> !Belongs(s'.owner[f], kroot, slot, r)
    ensures ProcOk(s', kroot, slot, r, tf, tramp, sz)
    ensures forall a :: 0 <= a < MAXVA ==> UByte(s', r, a) == UByte(s, r, a)
  {
    OtherSpace(s, s', q, x, kroot, slot, r, tf, tramp, sz);
    OtherKernel(s, s', q, x, kroot, slot, r, tf, tramp, sz);
    OtherBytes(s, s', q, x, kroot, slot, r, tf, tramp, sz);
    hide SpaceOk, KernelPartOk, Local;
  }

  lemma OtherSpace(s: State, s': State, q: nat, x: set<nat>, kroot: nat, slot: nat, r: nat, tf: nat, tramp: nat,
      sz: nat)
    requires SpaceOk(s, r, tf, tramp, sz) && Wf(s') && Local(s, s', q, x) && q != r
    requires forall f :: f in x && f in s.owner ==> !s.owner[f].Node? && !Belongs(s.owner[f], kroot, slot, r)
    requires forall f :: f in x && f in s'.owner ==> !Belongs(s'.owner[f], kroot, slot, r)
    ensures SpaceOk(s', r, tf, tramp, sz)
  {
    hide FreeOk, Down, Up, LeafOk, Lookup, Missing, Pages;
    LocalLookup(s, s', q, x, r);
    forall v | 0 <= v < Pages(sz)
      ensures OwnPage(s', r, v)
    {
      assert OwnPage(s, r, v);
    }
  }

  lemma OtherKernel(s: State, s': State, q: nat, x: set<nat>, kroot: nat, slot: nat, r: nat, tf: nat, tramp: nat,
      sz: nat)
    requires Wf(s) && KernelPartOk(s, kroot, slot, tf) && Local(s, s', q, x) && q != kroot
    requires forall f :: f in x && f in s.owner ==> !s.owner[f].Node? && !Belongs(s.owner[f], kroot, slot, r)
    requires forall f :: f in x && f in s'.owner ==> !Belongs(s'.owner[f], kroot, slot, r)
    ensures KernelPartOk(s', kroot, slot, tf)
  {
    hide FreeOk, Down, Up, LeafOk, Lookup, Missing;
    LocalLookup(s, s', q, x, kroot);
  }

  lemma OtherBytes(s: State, s': State, q: nat, x: set<nat>, kroot: nat, slot: nat, r: nat, tf: nat, tramp: nat,
      sz: nat)
    requires SpaceOk(s, r, tf, tramp, sz) && Wf(s') && Local(s, s', q, x) && q != r
    requires forall f :: f in x && f in s.owner ==> !s.owner[f].Node? && !Belongs(s.owner[f], kroot, slot, r)
    ensures forall a :: 0 <= a < MAXVA ==> UByte(s', r, a) == UByte(s, r, a)
  {
    LocalLookup(s, s', q, x, r);
    SpaceUserOwned(s, r, tf, tramp, sz);
    hide Wf, Lookup, Missing, SpaceOk, Local, UserOwned;
    forall a | 0 <= a < MAXVA
      ensures UByte(s', r, a) == UByte(s, r, a)
    {
      OtherByte(s, s', q, x, r, a);
    }
  }

  lemma OtherByte(s: State, s': State, q: nat, x: set<nat>, r: nat, a: nat)
    requires Wf(s) && UserOwned(s, r) && Local(s, s', q, x) && q != r && a < MAXVA
    requires forall f :: f in x && f in s.owner ==> !OwnedBy(s.owner[f], r, a / PGSIZE, 1)
    requires Lookup(s'.mem, r, a / PGSIZE) == Lookup(s.mem, r, a / PGSIZE)
    ensures UByte(s', r, a) == UByte(s, r, a)
  {
    hide FreeOk, Down, Up, LeafOk, Lookup, UserOwned, Bytes;
    if UserFrame(s, r, a / PGSIZE) != 0 {
      OwnedFrame(s, r, a / PGSIZE);
    }
  }

  /** The pages a process reaches in user mode are its own. */
  lemma SpaceUserOwned(s: State, r: nat, tf: nat, tramp: nat, sz: nat)
    requires SpaceOk(s, r, tf, tramp, sz)
    ensures UserOwned(s, r)
  {
    hide Wf, Lookup, Pages;
    NotUserPte(tf, PTE_R + PTE_W);
    NotUserPte(tramp, PTE_R + PTE_X);
    forall v | 0 <= v < MAXVPN && UserFrame(s, r, v) != 0
      ensures OwnPage(s, r, v) && v < Pages(sz)
    {
    }
  }

  lemma NotUserPte(frame: nat, perm: nat)
    requires perm < 16
    ensures !U(Pte(frame, perm))
  {
    assert (frame * 1024 + perm) / 16 == frame * 64;
    assert perm % 2 == 0 ==> (frame * 1024 + perm + 1) / 16 == frame * 64;
  }

  // ----------------------------------------- writing to a trapframe or buffer

  lemma FilledLookup(s: State, f: nat, p: Page)
    requires Wf(s) && f in s.owner && IsData(s.owner[f])
    ensures Wf(Filled(s, f, p)) && Filled(s, f, p).owner == s.owner && |Filled(s, f, p).mem| == |s.mem|
    ensures forall q, v :: IsRoot(s, q) && 0 <= v < MAXVPN ==> Lookup(Filled(s, f, p).mem, q, v) == Lookup(s.mem, q, v)
  {
    hide FreeOk, Down, Up, LeafOk, Lookup, Missing;
    FilledCore(s, f, p);
    forall q, v | IsRoot(s, q) && 0 <= v < MAXVPN
      ensures Lookup(Filled(s, f, p).mem, q, v) == Lookup(s.mem, q, v)
    {
      LookupKept(s, Filled(s, f, p).mem, q);
    }
  }

  lemma FilledProcess(s: State, f: nat, p: Page, kroot: nat, slot: nat, r: nat, tf: nat, tramp: nat, sz: nat)
    requires ProcOk(s, kroot, slot, r, tf, tramp, sz) && f in s.owner && IsData(s.owner[f])
    ensures ProcOk(Filled(s, f, p), kroot, slot, r, tf, tramp, sz)
  {
    hide FreeOk, Down, Up, LeafOk, Lookup, Pages, Filled, Pte, Ppn;
    FilledLookup(s, f, p);
    forall v | 0 <= v < Pages(sz)
      ensures OwnPage(Filled(s, f, p), r, v)
    {
      assert OwnPage(s, r, v);
    }
  }

  lemma FilledBytes(s: State, f: nat, p: Page, r: nat)
    requires Wf(s) && IsRoot(s, r) && UserOwned(s, r) && f in s.owner && (s.owner[f].Held? || s.owner[f].Trapframe?)
    ensures forall a :: 0 <= a ==> UByte(Filled(s, f, p), r, a) == UByte(s, r, a)
  {
    hide FreeOk, Down, Up, LeafOk, Lookup, UserOwned, Bytes;
    FilledLookup(s, f, p);
    forall a | 0 <= a
      ensures UByte(Filled(s, f, p), r, a) == UByte(s, r, a)
    {
      if UserFrame(s, r, a / PGSIZE) != 0 {
        OwnedFrame(s, r, a / PGSIZE);
      }
    }
  }
}
