/** The memory of a process from allocproc to freeproc. */
module ProcessMemory {
  import opened Words
  import opened PageTables
  import opened Translation
  import opened Changes
  import opened Fork
  import opened Teardown
  import opened UserBytes
  import opened Space
  import opened PhysicalMemory

  // ------------------------------------------------------------- freeproc

  /** An address space whose user pages can be unmapped and freed. */
  ghost predicate Unmappable(s: State, r: nat, sz: nat) {
    && Wf(s) && IsRoot(s, r) && Pages(sz) <= TRAPFRAME
    && OwnNone(s, r, TRAPFRAME, 2)
    && (forall v :: 0 <= v < Pages(sz) ==> OwnPage(s, r, v))
    && (forall v :: Pages(sz) <= v < TRAPFRAME ==> Lookup(s.mem, r, v) == None)
  }

  lemma UnmappableKept(s: State, f: nat, r: nat, tf: nat, tramp: nat, sz: nat)
    requires SpaceOk(s, r, tf, tramp, sz) && f in s.owner && s.owner[f].Trapframe?
    ensures Unmappable(Pushed(s, f), r, sz)
  {
    hide FreeOk, Down, Up, LeafOk, Lookup, Missing, Pages, Pushed;
    PushedLookup(s, f);
    PushedOwner(s, f);
    forall v | 0 <= v < Pages(sz)
      ensures OwnPage(Pushed(s, f), r, v)
    {
      assert OwnPage(s, r, v);
    }
  }

  lemma UnmappableCleared(s: State, s': State, r: nat, sz: nat, v: nat)
    requires Unmappable(s, r, sz) && TRAPFRAME <= v < MAXVPN && PagesCleared(s, s', r, v, 1, false)
    ensures Unmappable(s', r, sz) && Lookup(s'.mem, r, v) == None
    ensures forall u :: TRAPFRAME <= u < MAXVPN && Lookup(s.mem, r, u) == None ==> Lookup(s'.mem, r, u) == None
  {
    hide FreeOk, Down, Up, LeafOk, Lookup, Missing, Pages;
    forall u | 0 <= u < Pages(sz)
      ensures OwnPage(s', r, u)
    {
      assert OwnPage(s, r, u);
    }
  }

  lemma AllCleared(s: State, s': State, r: nat, sz: nat)
    requires Unmappable(s, r, sz) && PagesCleared(s, s', r, 0, Pages(sz), true)
    requires Lookup(s.mem, r, TRAPFRAME) == None && Lookup(s.mem, r, TRAMPOLINE) == None
    ensures Wf(s') && IsRoot(s', r)
    ensures forall v :: 0 <= v < MAXVPN ==> Lookup(s'.mem, r, v) == None
  {
    hide FreeOk, Down, Up, LeafOk, Lookup, Missing, Pages;
  }

  /** With no page mapped, no frame is a leaf of the space. */
  lemma NoLeafLeft(s: State, r: nat)
    requires Wf(s) && forall v :: 0 <= v < MAXVPN ==> Lookup(s.mem, r, v) == None
    ensures forall f :: f in s.owner && s.owner[f].Leaf? ==> s.owner[f].root != r
  {
    hide Core, Lookup;
    forall f | f in s.owner && s.owner[f].Leaf? && s.owner[f].root == r
      ensures false
    {
      OwnedMapped(s, f);
    }
  }

  /** All that belonged to the process is free now; every other frame has the owner it had. */
  ghost predicate Released(s: State, s': State, kroot: nat, slot: nat, r: nat) {
    && s'.lo == s.lo && |s'.mem| == |s.mem| && s'.owner.Keys == s.owner.Keys
    && forall f :: f in s.owner && f in s'.owner ==>
         s'.owner[f] == if Belongs(s.owner[f], kroot, slot, r) then Free else s.owner[f]
  }

  /** Between the steps of freeproc: the trapframe is free, and the first n pages too. */
  ghost predicate Falling(s0: State, s: State, r: nat, tf: nat, n: nat) {
    && Local(s0, s, r, {tf})
    && forall f :: f in s0.owner && f in s.owner ==>
         s.owner[f] == if f == tf || OwnedBy(s0.owner[f], r, 0, n) then Free else s0.owner[f]
  }

  ghost predicate StackMapped(s: State, kroot: nat, slot: nat) {
    && slot < NPROC && IsRoot(s, kroot)
    && Lookup(s.mem, kroot, KStack(slot)).Some? && OwnPage(s, kroot, KStack(slot))
  }

  lemma FallFirst(s: State, kroot: nat, slot: nat, r: nat, tf: nat, tramp: nat, sz: nat)
    requires ProcOk(s, kroot, slot, r, tf, tramp, sz)
    ensures tf in s.owner && s.owner[tf] == Trapframe(slot) && Wf(s) && IsRoot(s, r) && r != kroot
    ensures Unmappable(Pushed(s, tf), r, sz) && Falling(s, Pushed(s, tf), r, tf, 0)
    ensures StackMapped(s, kroot, slot)
  {
    hide FreeOk, Down, Up, LeafOk, Lookup, Pages;
    UnmappableKept(s, tf, r, tf, tramp, sz);
    PushedLocal(s, r, tf);
    hide Unmappable, Local, Pushed;
    assert Pushed(s, tf).owner == s.owner[tf := Free] by { PushedOwner(s, tf); }
  }

  lemma PushedOwner(s: State, f: nat)
    requires f < |s.mem|
    ensures Pushed(s, f).owner == s.owner[f := Free]
  {
  }

  lemma FallNext(s0: State, s: State, s': State, r: nat, tf: nat, v0: nat, k: nat, free: bool)
    requires Falling(s0, s, r, tf, 0) && PagesCleared(s, s', r, v0, k, free)
    requires (if free then v0 == 0 else OwnNone(s, r, v0, k))
    ensures Falling(s0, s', r, tf, if free then k else 0)
  {
    hide Local, MapsNone, Wf, SameButTables, Lookup;
    ClearedLocal(s, s', r, v0, k, free);
    LocalMore(s, s', r, {}, {tf});
    LocalTrans(s0, s, s', r, {tf});
    assert s.owner.Keys == s'.owner.Keys by { ClearedWf(s, s', r, v0, k, free); }
  }

  lemma FallLast(s0: State, s: State, s': State, r: nat, tf: nat, n: nat)
    requires Falling(s0, s, r, tf, n) && TreeGone(s, s', r) && s.owner.Keys == s0.owner.Keys
    ensures Local(s0, s', r, {tf}) && (tf in s'.owner ==> s'.owner[tf] == Free)
  {
    GoneLocal(s, s', r);
    LocalMore(s, s', r, {}, {tf});
    LocalTrans(s0, s, s', r, {tf});
    hide Local, Lookup, Missing, Wf;
  }

  lemma ReleasedAll(s0: State, s4: State, s5: State, s6: State, kroot: nat, slot: nat, r: nat, tf: nat, tramp: nat,
      sz: nat)
    requires ProcOk(s0, kroot, slot, r, tf, tramp, sz) && Falling(s0, s4, r, tf, Pages(sz))
    requires s4.owner.Keys == s0.owner.Keys && s4.lo == s0.lo && |s4.mem| == |s0.mem|
    requires forall f :: f in s4.owner && s4.owner[f].Leaf? ==> s4.owner[f].root != r
    requires TreeGone(s4, s5, r) && PagesCleared(s5, s6, kroot, KStack(slot), 1, true)
    ensures Released(s0, s6, kroot, slot, r)
  {
    hide Wf, Lookup, Missing, Pages, MapsNone, Local;
  }

  /** At the kernel stack: what the kernel's table needs while the user's is taken down. */
  lemma KernelStackKept(s: State, s': State, q: nat, x: set<nat>, kroot: nat, slot: nat)
    requires Wf(s) && StackMapped(s, kroot, slot) && Local(s, s', q, x) && q != kroot
    requires forall f :: f in x && f in s.owner ==> s.owner[f].Trapframe?
    ensures StackMapped(s', kroot, slot)
  {
    LocalLookup(s, s', q, x, kroot);
    hide Wf, Lookup, Missing;
  }

  // ------------------------------------------------------- other processes

  /** Every other live process is undisturbed. */
  ghost predicate OthersOk(s: State, s': State, kroot: nat, slot: nat, r: nat, tramp: nat) {
    forall slot', r', tf', sz' ::
      slot' != slot && r' != r && ProcOk(s, kroot, slot', r', tf', tramp, sz') ==>
          ProcOk(s', kroot, slot', r', tf', tramp, sz')
  }

  lemma OthersLocal(s: State, s': State, x: set<nat>, kroot: nat, slot: nat, r: nat, tramp: nat)
    requires Wf(s') && Local(s, s', r, x) && r != kroot
    requires forall f :: f in x && f in s.owner ==>
               s.owner[f].Free? || s.owner[f].Held? || s.owner[f] == Trapframe(slot)
    requires forall f :: f in x && f in s'.owner ==>
               s'.owner[f].Free? || s'.owner[f].Held? || s'.owner[f] == Trapframe(slot)
    ensures OthersOk(s, s', kroot, slot, r, tramp)
  {
    hide Wf, Local, ProcOk;
    forall slot', r', tf', sz' | slot' != slot && r' != r && ProcOk(s, kroot, slot', r', tf', tramp, sz')
      ensures ProcOk(s', kroot, slot', r', tf', tramp, sz')
    {
      OtherProcess(s, s', r, x, kroot, slot', r', tf', tramp, sz');
    }
  }

  /** A change at one kernel stack page leaves all other processes as they are. */
  ghost predicate StackOnly(s: State, s': State, kroot: nat, slot: nat) {
    && Wf(s') && s'.owner.Keys == s.owner.Keys && slot < NPROC
    && (forall f :: f in s.owner && f in s'.owner ==>
          || s'.owner[f] == s.owner[f]
          || ((s.owner[f].Free? || s.owner[f].Held? || OwnedBy(s.owner[f], kroot, KStack(slot), 1))
              && (s'.owner[f].Free? || OwnedBy(s'.owner[f], kroot, KStack(slot), 1))))
    && (forall q, v :: IsRoot(s, q) && 0 <= v < MAXVPN && !(q == kroot && v == KStack(slot)) ==>
          Lookup(s'.mem, q, v) == Lookup(s.mem, q, v))
  }

  lemma StackOther(s: State, s': State, kroot: nat, slot: nat, slot': nat, r': nat, tf': nat, tramp: nat, sz': nat)
    requires StackOnly(s, s', kroot, slot) && slot' != slot && ProcOk(s, kroot, slot', r', tf', tramp, sz')
    ensures ProcOk(s', kroot, slot', r', tf', tramp, sz')
  {
    hide FreeOk, Down, Up, LeafOk, Lookup, Pages;
    assert SpaceOk(s', r', tf', tramp, sz') by {
      forall v | 0 <= v < Pages(sz')
        ensures OwnPage(s', r', v)
      {
        assert OwnPage(s, r', v);
      }
    }
  }

  lemma OthersStack(s: State, s': State, kroot: nat, slot: nat, r: nat, tramp: nat)
    requires StackOnly(s, s', kroot, slot)
    ensures OthersOk(s, s', kroot, slot, r, tramp)
  {
    hide StackOnly, ProcOk;
    forall slot', r', tf', sz' | slot' != slot && r' != r && ProcOk(s, kroot, slot', r', tf', tramp, sz')
      ensures ProcOk(s', kroot, slot', r', tf', tramp, sz')
    {
      StackOther(s, s', kroot, slot, slot', r', tf', tramp, sz');
    }
  }

  lemma ClearedStack(s: State, s': State, kroot: nat, slot: nat)
    requires slot < NPROC && PagesCleared(s, s', kroot, KStack(slot), 1, true)
    ensures StackOnly(s, s', kroot, slot)
  {
    hide Wf, Lookup, Missing;
  }

  lemma OthersTrans(s: State, s': State, s'': State, kroot: nat, slot: nat, r: nat, tramp: nat)
    requires OthersOk(s, s', kroot, slot, r, tramp) && OthersOk(s', s'', kroot, slot, r, tramp)
    ensures OthersOk(s, s'', kroot, slot, r, tramp)
  {
    hide ProcOk;
  }

  /** Kernel stacks lie below the trampoline with a page on either side that is none: page 0x3fffffd for slot 0,
      and two further down for each slot. */
  lemma StacksApart(i: nat, j: nat)
    requires i < NPROC && j < NPROC
    ensures KStack(i) == 0x3ff_fffd - 2 * i && KStack(i) + 1 != KStack(j) && (i != j ==> KStack(i) != KStack(j))
    ensures KStack(i) + 1 != 0x3ff_ffff
  {
  }

  // ------------------------------------------------------------ allocproc

  /** Nothing in memory belongs to the slot yet, and the kernel's table reaches up to the trampoline. */
  ghost predicate SlotFree(s: State, kroot: nat, slot: nat) {
    && Wf(s) && IsRoot(s, kroot) && slot < NPROC
    && (forall f :: f in s.owner ==> s.owner[f] != Trapframe(slot))
    && Lookup(s.mem, kroot, KStack(slot)) == None
    && Missing(s.mem, kroot, TRAMPOLINE) == 0
  }

  /** Only free frames changed owner, and they belong to the process now. */
  ghost predicate Acquired(s: State, s': State, kroot: nat, slot: nat, r: nat) {
    && s'.lo == s.lo && |s'.mem| == |s.mem| && s'.owner.Keys == s.owner.Keys
    && forall f :: f in s.owner && f in s'.owner ==>
         s'.owner[f] == s.owner[f] || (s.owner[f].Free? && Belongs(s'.owner[f], kroot, slot, r))
  }

  /** A held frame becomes the trapframe of the slot. */
  function Claimed(s: State, f: nat, slot: nat): State {
    State(s.lo, s.mem, s.owner[f := Trapframe(slot)], s.fl)
  }

  lemma ClaimedWf(s: State, f: nat, slot: nat)
    requires Wf(s) && f in s.owner && s.owner[f] == Held
    ensures Wf(Claimed(s, f, slot))
  {
    KeptTrees(s, Claimed(s, f, slot));
    hide Down, Up, LeafOk;
  }

  /** The state with the trapframe taken. */
  ghost predicate WithTrapframe(s0: State, s: State, slot: nat, tf: nat) {
    && Wf(s) && tf in s0.owner && s0.owner[tf] == Free && |s.mem| == |s0.mem| && s.lo == s0.lo
    && s.owner == s0.owner[tf := Trapframe(slot)] && |s.fl| == |s0.fl| - 1
    && (forall f :: 0 <= f < |s.mem| && f != tf ==> s.mem[f] == s0.mem[f])
  }

  lemma TrapframeTaken(s0: State, slot: nat)
    requires Wf(s0) && s0.fl != []
    ensures WithTrapframe(s0, Claimed(Popped(s0), s0.fl[0], slot), slot, s0.fl[0])
  {
    assert s0.owner[s0.fl[0]] == Free;
    PoppedCore(s0);
    ClaimedWf(Popped(s0), s0.fl[0], slot);
    hide FreeOk, Down, Up, LeafOk;
  }

  lemma RootedLocal(s: State)
    requires Wf(s) && s.fl != []
    ensures Local(s, Rooted(Popped(s), s.fl[0]), s.fl[0], {})
  {
    assert s.owner[s.fl[0]] == Free;
    hide FreeOk, Down, Up, LeafOk;
  }

  lemma TableLocal(s2: State, s3: State, s4: State, s5: State, r: nat, tf: nat, tramp: nat)
    requires s2.fl != [] && r == s2.fl[0] && Wf(s2) && s3 == Rooted(Popped(s2), r)
    requires PageMapped(s3, s4, r, TRAMPOLINE, tramp, PTE_R + PTE_X, false)
    requires PageMapped(s4, s5, r, TRAPFRAME, tf, PTE_R + PTE_W, false)
    ensures Local(s2, s5, r, {})
  {
    RootedLocal(s2);
    MappedLocal(s3, s4, r, TRAMPOLINE, tramp, PTE_R + PTE_X, false);
    MappedLocal(s4, s5, r, TRAPFRAME, tf, PTE_R + PTE_W, false);
    hide PageMapped, Local, Wf, Popped, Rooted;
    LocalTrans(s2, s3, s4, r, {});
    LocalTrans(s2, s4, s5, r, {});
  }

  /** Owners after the table is built: its frames were free. */
  ghost predicate TableOwners(s2: State, s5: State, r: nat) {
    && s5.owner.Keys == s2.owner.Keys && r in s2.owner && s2.owner[r].Free?
    && forall f :: f in s2.owner && f in s5.owner ==>
         s5.owner[f] == s2.owner[f] || (s2.owner[f].Free? && s5.owner[f].Node? && s5.owner[f].root == r)
  }

  lemma TableOwned(s2: State, s3: State, s4: State, s5: State, r: nat, tf: nat, tramp: nat)
    requires s2.fl != [] && r == s2.fl[0] && Wf(s2) && s3 == Rooted(Popped(s2), r)
    requires PageMapped(s3, s4, r, TRAMPOLINE, tramp, PTE_R + PTE_X, false)
    requires PageMapped(s4, s5, r, TRAPFRAME, tf, PTE_R + PTE_W, false)
    ensures TableOwners(s2, s5, r)
  {
    hide Down, Up, LeafOk, Lookup, PageMapped;
    assert s2.owner[r] == Free;
    MappedWf(s3, s4, r, TRAMPOLINE, tramp, PTE_R + PTE_X, false);
    MappedWf(s4, s5, r, TRAPFRAME, tf, PTE_R + PTE_W, false);
    MappedOnly(s3, s4, r, TRAMPOLINE, tramp, PTE_R + PTE_X, false);
    MappedOnly(s4, s5, r, TRAPFRAME, tf, PTE_R + PTE_W, false);
  }

  /** The new table with its two fixed pages. */
  lemma TableBuilt(s3: State, s4: State, s5: State, r: nat, tf: nat, tramp: nat)
    requires Wf(s3) && IsRoot(s3, r) && forall v :: 0 <= v < MAXVPN ==> Lookup(s3.mem, r, v) == None
    requires PageMapped(s3, s4, r, TRAMPOLINE, tramp, PTE_R + PTE_X, false)
    requires PageMapped(s4, s5, r, TRAPFRAME, tf, PTE_R + PTE_W, false)
    ensures SpaceOk(s5, r, tf, tramp, 0)
  {
    hide Wf, Lookup, PageMapped, Pte, OwnPage;
    NoLeafLeft(s3, r);
    MappedWf(s3, s4, r, TRAMPOLINE, tramp, PTE_R + PTE_X, false);
    MappedWf(s4, s5, r, TRAPFRAME, tf, PTE_R + PTE_W, false);
    MappedOnly(s3, s4, r, TRAMPOLINE, tramp, PTE_R + PTE_X, false);
    MappedOnly(s4, s5, r, TRAPFRAME, tf, PTE_R + PTE_W, false);
    StillNoLeaf(s3, s4, s5, r);
  }

  lemma StillNoLeaf(s3: State, s4: State, s5: State, r: nat)
    requires s4.owner.Keys == s3.owner.Keys && s5.owner.Keys == s3.owner.Keys
    requires OwnersGrown(s3, s4, r) && OwnersGrown(s4, s5, r)
    requires forall f :: f in s3.owner && s3.owner[f].Leaf? ==> s3.owner[f].root != r
    ensures OwnNone(s5, r, TRAPFRAME, 2)
  {
  }

  lemma TrapframeLocal(s0: State, s2: State, s5: State, slot: nat, r: nat, tf: nat)
    requires WithTrapframe(s0, s2, slot, tf) && Local(s2, s5, r, {})
    ensures Local(s0, s5, r, {tf}) && tf in s5.owner && s5.owner[tf] == Trapframe(slot)
  {
    hide Wf;
    LocalMore(s2, s5, r, {}, {tf});
    assert Local(s0, s2, r, {tf});
    LocalTrans(s0, s2, s5, r, {tf});
  }

  /** The kernel stack: one frame, and no new table, since its page shares the trampoline's. */
  lemma StackMade(s5: State, s7: State, kroot: nat, slot: nat, ks: nat)
    requires Wf(s5) && s5.fl != [] && ks == s5.fl[0] && slot < NPROC
    requires PageMapped(Popped(s5), s7, kroot, KStack(slot), ks, PTE_R + PTE_W, true)
    requires s7.owner.Keys == s5.owner.Keys
    requires forall f :: f in s7.owner && f != ks ==> s7.owner[f] == Popped(s5).owner[f]
    ensures StackOnly(s5, s7, kroot, slot) && s5.owner[ks] == Free && ks in s7.owner
    ensures IsRoot(s5, kroot) ==> StackMapped(s7, kroot, slot)
  {
    hide Down, Up, LeafOk, Lookup, Missing, PageMapped, Pte, Ppn;
    assert s5.owner[ks] == Free;
    PoppedLookup(s5);
    PteParts(ks, PTE_R + PTE_W);
    MappedOnly(Popped(s5), s7, kroot, KStack(slot), ks, PTE_R + PTE_W, true);
    MappedWf(Popped(s5), s7, kroot, KStack(slot), ks, PTE_R + PTE_W, true);
    StackOwner(Popped(s5), s7, kroot, slot, ks);
  }

  lemma StackSpace(s: State, s': State, kroot: nat, slot: nat, r: nat, tf: nat, tramp: nat, sz: nat)
    requires StackOnly(s, s', kroot, slot) && SpaceOk(s, r, tf, tramp, sz) && r != kroot
    ensures SpaceOk(s', r, tf, tramp, sz)
  {
    hide FreeOk, Down, Up, LeafOk, Lookup, Pages;
    forall v | 0 <= v < Pages(sz)
      ensures OwnPage(s', r, v)
    {
      assert OwnPage(s, r, v);
    }
  }

  lemma TrapframeUnique(s0: State, s2: State, s5: State, s7: State, kroot: nat, slot: nat, r: nat, tf: nat)
    requires forall f :: f in s0.owner ==> s0.owner[f] != Trapframe(slot)
    requires tf in s0.owner && s2.owner == s0.owner[tf := Trapframe(slot)] && TableOwners(s2, s5, r)
    requires StackOnly(s5, s7, kroot, slot)
    ensures tf in s7.owner && forall f :: f in s7.owner ==> (s7.owner[f] == Trapframe(slot) <==> f == tf)
    ensures forall f :: f in s0.owner && f in s7.owner ==>
              || s7.owner[f] == s0.owner[f]
              || f == tf
              || (s2.owner[f].Free? && InSpace(s7.owner[f], r))
              || OwnedBy(s7.owner[f], kroot, KStack(slot), 1)
              || s7.owner[f].Free?
  {
    hide Wf, Lookup;
  }

  /** No frame was left for the kernel stack, and its page maps physical page 0. */
  lemma StackLost(s5: State, s7: State, kroot: nat, slot: nat)
    requires Wf(s5) && slot < NPROC && PageMapped(s5, s7, kroot, KStack(slot), 0, PTE_R + PTE_W, false)
    requires s7.owner.Keys == s5.owner.Keys && forall f :: f in s7.owner ==> s7.owner[f] == s5.owner[f]
    ensures StackOnly(s5, s7, kroot, slot)
  {
    hide Wf, Lookup, PageMapped;
    MappedOnly(s5, s7, kroot, KStack(slot), 0, PTE_R + PTE_W, false);
    MappedWf(s5, s7, kroot, KStack(slot), 0, PTE_R + PTE_W, false);
  }

  /** Such a process is not sound: page 0 is no frame of its own. */
  lemma NotLive(s: State, kroot: nat, slot: nat, r: nat, tf: nat, tramp: nat, sz: nat)
    requires slot < NPROC && Wf(s) && Lookup(s.mem, kroot, KStack(slot)) == Some(Pte(0, PTE_R + PTE_W))
    ensures !ProcOk(s, kroot, slot, r, tf, tramp, sz)
  {
    hide FreeOk, Down, Up, LeafOk, Lookup, SpaceOk;
    PteParts(0, PTE_R + PTE_W);
  }

  /** The table is begun, but memory runs out. */
  lemma TableBegun(s2: State, s3: State, s4: State, r: nat)
    requires Wf(s2) && s2.fl != [] && r == s2.fl[0] && s3 == Rooted(Popped(s2), r) && Grown(s3, s4, r)
    ensures Local(s2, s4, r, {}) && TableOwners(s2, s4, r)
  {
    assert s2.owner[r] == Free;
    RootedLocal(s2);
    GrownLocal(s3, s4, r);
    GrownKeys(s3, s4, r);
    hide Wf, Local, Grown, Lookup;
    LocalTrans(s2, s3, s4, r, {});
  }

  /** Of the frames in use, none has another owner. */
  lemma TableAcquired(s0: State, s2: State, s5: State, slot: nat, q: nat, tf: nat)
    requires WithTrapframe(s0, s2, slot, tf) && TableOwners(s2, s5, q)
    ensures s5.owner.Keys == s0.owner.Keys
    ensures forall f :: f in s0.owner && f in s5.owner && !s0.owner[f].Free? ==> s5.owner[f] == s0.owner[f]
  {
    hide Wf;
  }

  lemma OthersSame(s: State, kroot: nat, slot: nat, tramp: nat)
    ensures forall r :: OthersOk(s, s, kroot, slot, r, tramp)
  {
    hide ProcOk;
  }

  /** A root that was a free frame was no process's, so no process is left out. */
  lemma OthersFresh(s: State, s': State, kroot: nat, slot: nat, q: nat, r: nat, tramp: nat)
    requires OthersOk(s, s', kroot, slot, q, tramp) && q in s.owner && s.owner[q].Free?
    ensures OthersOk(s, s', kroot, slot, r, tramp)
  {
    hide Wf, Lookup, OwnPage, KernelPartOk;
    forall slot', r', tf', sz' | slot' != slot && r' != r && ProcOk(s, kroot, slot', r', tf', tramp, sz')
      ensures ProcOk(s', kroot, slot', r', tf', tramp, sz')
    {
      assert IsRoot(s, r') && r' != q;
    }
  }

  /** Only the trapframe was to be had. */
  lemma ClaimedOnly(s0: State, s2: State, slot: nat, tf: nat, kroot: nat, tramp: nat)
    requires SlotFree(s0, kroot, slot) && WithTrapframe(s0, s2, slot, tf)
    ensures OthersOk(s0, s2, kroot, slot, 0, tramp) && s2.owner.Keys == s0.owner.Keys
    ensures forall f :: f in s0.owner && f in s2.owner && !s0.owner[f].Free? ==> s2.owner[f] == s0.owner[f]
  {
    hide Down, Up, LeafOk, FreeOk, Lookup, Missing;
    assert Local(s0, s2, tf, {tf});
    OthersLocal(s0, s2, {tf}, kroot, slot, tf, tramp);
    OthersFresh(s0, s2, kroot, slot, tf, 0, tramp);
  }

  /** The process is complete. */
  lemma ProcessBuilt(s0: State, s2: State, s5: State, s7: State, kroot: nat, slot: nat, r: nat, tf: nat, tramp: nat)
    requires SlotFree(s0, kroot, slot) && WithTrapframe(s0, s2, slot, tf) && TableOwners(s2, s5, r) && r != kroot
    requires SpaceOk(s5, r, tf, tramp, 0) && StackOnly(s5, s7, kroot, slot) && StackMapped(s7, kroot, slot)
    ensures ProcOk(s7, kroot, slot, r, tf, tramp, 0)
  {
    StackSpace(s5, s7, kroot, slot, r, tf, tramp, 0);
    hide Wf, Lookup, Missing, SpaceOk;
    TrapframeUnique(s0, s2, s5, s7, kroot, slot, r, tf);
    hide StackOnly, TableOwners;
  }

  lemma ProcessAcquired(s0: State, s2: State, s5: State, s7: State, kroot: nat, slot: nat, r: nat, tf: nat, ks: nat)
    requires WithTrapframe(s0, s2, slot, tf) && TableOwners(s2, s5, r) && slot < NPROC
    requires s7.owner.Keys == s5.owner.Keys && s7.lo == s0.lo && |s7.mem| == |s0.mem|
    requires ks in s5.owner && s5.owner[ks] == Free && ks in s7.owner && OwnedBy(s7.owner[ks], kroot, KStack(slot), 1)
    requires forall f :: f in s7.owner && f != ks ==> s7.owner[f] == s5.owner[f]
    ensures Acquired(s0, s7, kroot, slot, r)
  {
    hide Wf;
  }

  lemma TakenFacts(s0: State, s2: State, slot: nat, tf: nat)
    requires WithTrapframe(s0, s2, slot, tf)
    ensures Wf(s2) && |s2.fl| == |s0.fl| - 1 && tf in s0.owner && s0.owner[tf] == Free
  {
    hide Wf;
  }

  /** The new root is not the kernel's, whose table is as it was. */
  lemma RootFresh(s0: State, s2: State, s5: State, kroot: nat, slot: nat, r: nat, tf: nat)
    requires SlotFree(s0, kroot, slot) && WithTrapframe(s0, s2, slot, tf) && TableOwners(s2, s5, r)
    requires Local(s0, s5, r, {tf})
    ensures r != kroot && r in s0.owner && s0.owner[r].Free?
    ensures IsRoot(s5, kroot) && Lookup(s5.mem, kroot, KStack(slot)) == None
    ensures Missing(s5.mem, kroot, TRAMPOLINE) == 0
  {
    hide Wf, Lookup, Missing, Local;
    assert r != kroot;
    LocalLookup(s0, s5, r, {tf}, kroot);
  }

  /** The trapframe's page shares the table that was built for the trampoline. */
  lemma FixedNext(s3: State, s4: State, r: nat, tramp: nat)
    requires Wf(s3) && IsRoot(s3, r) && forall v :: 0 <= v < MAXVPN ==> Lookup(s3.mem, r, v) == None
    requires PageMapped(s3, s4, r, TRAMPOLINE, tramp, PTE_R + PTE_X, false)
    ensures Wf(s4) && IsRoot(s4, r) && Lookup(s4.mem, r, TRAPFRAME) == None && Missing(s4.mem, r, TRAPFRAME) == 0
  {
    hide Wf, Lookup, Missing, PageMapped, Pte, OwnersGrown;
    MappedWf(s3, s4, r, TRAMPOLINE, tramp, PTE_R + PTE_X, false);
    MappedOnly(s3, s4, r, TRAMPOLINE, tramp, PTE_R + PTE_X, false);
    MappedNotMissing(s4, r, TRAMPOLINE);
    MissingShared(s4, r, TRAMPOLINE, TRAPFRAME);
  }

  lemma StackOwner(s: State, s': State, kroot: nat, slot: nat, ks: nat)
    requires slot < NPROC && PageMapped(s, s', kroot, KStack(slot), ks, PTE_R + PTE_W, true)
    ensures ks in s'.owner && OwnedBy(s'.owner[ks], kroot, KStack(slot), 1)
  {
    hide Wf, SameButTables, MapsTo;
  }

  // ------------------------------------------------------ the whole life

  /** A process that acquired its frames from s0 and released them leaves the owners of s0. */
  lemma LifeConserves(s0: State, s: State, s': State, kroot: nat, slot: nat, r: nat)
    requires Acquired(s0, s, kroot, slot, r) && Released(s, s', kroot, slot, r)
    requires forall f :: f in s0.owner ==> !Belongs(s0.owner[f], kroot, slot, r)
    ensures s'.owner == s0.owner
  {
  }

  class Proc {
    const slot: nat
    // The frames of the root table and of the trapframe, 0 when there is none.
    var pagetable: nat
    var trapframe: nat
    var sz: nat

    constructor (slot: nat)
      ensures this.slot == slot && pagetable == 0 && trapframe == 0 && sz == 0
    {
      this.slot := slot;
      pagetable, trapframe, sz := 0, 0, 0;
    }

    /** The process owns its memory, in the state of the physical memory. */
    ghost predicate Live(s: State, kroot: nat, tramp: nat)
      reads this
    {
      ProcOk(s, kroot, slot, pagetable, trapframe, tramp, sz) && pagetable != 0 && trapframe != 0
    }

    /** freeproc: every frame of the process is free again, and no other frame changes owner. */
    method FreeProc(pm: PhysMem, kroot: nat, ghost tramp: nat)
      requires pm.Valid() && Live(pm.S(), kroot, tramp)
      modifies this, pm, pm.mem
      ensures pm.Valid() && Released(old(pm.S()), pm.S(), kroot, slot, old(pagetable))
      ensures OthersOk(old(pm.S()), pm.S(), kroot, slot, old(pagetable), tramp)
      ensures pagetable == 0 && trapframe == 0 && sz == 0
    {
      hide Wf, Lookup, Missing, OthersOk, Local, Released, PagesCleared, TreeGone, Falling, ProcOk, Pages;
      ghost var s0, r, tf, z := pm.S(), pagetable, trapframe, sz;
      ghost var s4 := TakeDown(pm, kroot, tramp);
      ghost var s5 := pm.S();
      pm.Uvmunmap(kroot, KStack(slot) * PGSIZE, PGSIZE, true);
      ClearedStack(s5, pm.S(), kroot, slot);
      OthersStack(s5, pm.S(), kroot, slot, r, tramp);
      OthersTrans(s0, s5, pm.S(), kroot, slot, r, tramp);
      ReleasedAll(s0, s4, s5, pm.S(), kroot, slot, r, tf, tramp, z);
      pagetable, sz := 0, 0;
    }

    /** The part of freeproc before the kernel stack: trapframe, user pages, tables. */
    method TakeDown(pm: PhysMem, kroot: nat, ghost tramp: nat) returns (ghost s4: State)
      requires pm.Valid() && Live(pm.S(), kroot, tramp)
      modifies this`trapframe, pm, pm.mem
      ensures pm.Valid() && trapframe == 0
      ensures StackMapped(pm.S(), kroot, slot)
      ensures OthersOk(old(pm.S()), pm.S(), kroot, slot, pagetable, tramp)
      ensures Falling(old(pm.S()), s4, pagetable, old(trapframe), Pages(sz)) && TreeGone(s4, pm.S(), pagetable)
      ensures s4.owner.Keys == old(pm.S()).owner.Keys && s4.lo == pm.lo && |s4.mem| == pm.mem.Length
      ensures forall f :: f in s4.owner && s4.owner[f].Leaf? ==> s4.owner[f].root != pagetable
    {
      hide FreeOk, Down, Up, LeafOk, Lookup, Missing, OthersOk, Local, PagesCleared, TreeGone, Falling, Pages, ProcOk,
          StackMapped;
      ghost var s0, r, tf := pm.S(), pagetable, trapframe;
      FallFirst(s0, kroot, slot, r, tf, tramp, sz);
      pm.Kfree(trapframe);
      trapframe := 0;
      UnmapAll(pm, s0, tf);
      s4 := pm.S();
      NoLeafLeft(s4, r);
      pm.FreeTree(pagetable);
      FallLast(s0, s4, pm.S(), r, tf, Pages(sz));
      GoneWf(s4, pm.S(), r);
      OthersLocal(s0, pm.S(), {tf}, kroot, slot, r, tramp);
      KernelStackKept(s0, pm.S(), r, {tf}, kroot, slot);
    }

    /** The three uvmunmap calls of freeproc on the user's table. */
    method UnmapAll(pm: PhysMem, ghost s0: State, ghost tf: nat)
      requires pm.Valid() && Unmappable(pm.S(), pagetable, sz) && Falling(s0, pm.S(), pagetable, tf, 0)
      modifies pm, pm.mem
      ensures pm.Valid() && IsRoot(pm.S(), pagetable) && Falling(s0, pm.S(), pagetable, tf, Pages(sz))
      ensures forall v :: 0 <= v < MAXVPN ==> Lookup(pm.mem[..], pagetable, v) == None
    {
      hide FreeOk, Down, Up, LeafOk, Lookup, Missing, PagesCleared, Falling;
      ghost var s1 := pm.S();
      pm.Uvmunmap(pagetable, TRAMPOLINE * PGSIZE, PGSIZE, false);
      ghost var s2 := pm.S();
      UnmappableCleared(s1, s2, pagetable, sz, TRAMPOLINE);
      FallNext(s0, s1, s2, pagetable, tf, TRAMPOLINE, 1, false);
      pm.Uvmunmap(pagetable, TRAPFRAME * PGSIZE, PGSIZE, false);
      ghost var s3 := pm.S();
      UnmappableCleared(s2, s3, pagetable, sz, TRAPFRAME);
      FallNext(s0, s2, s3, pagetable, tf, TRAPFRAME, 1, false);
      if sz > 0 {
        pm.Uvmunmap(pagetable, 0, (sz + PGSIZE - 1) / PGSIZE * PGSIZE, true);
      } else {
        ClearedRefl(s3, pagetable, 0, true);
      }
      AllCleared(s3, pm.S(), pagetable, sz);
      FallNext(s0, s3, pm.S(), pagetable, tf, 0, Pages(sz), true);
    }

    /** allocproc's memory. With five free frames it is a whole process; with none, nothing. In between the
        code gives nothing back: with less than four the frames are lost, and with four it reports success
        for a process whose kernel stack is physical page 0. stack is the frame of the kernel stack. */
    method AllocProc(pm: PhysMem, kroot: nat, tramp: nat) returns (ok: bool, stack: nat)
      requires pm.Valid() && SlotFree(pm.S(), kroot, slot) && pagetable == 0 && trapframe == 0 && sz == 0
      modifies this, pm, pm.mem
      ensures pm.Valid() && sz == 0 && |pm.fl| == |old(pm.fl)| - Min(5, |old(pm.fl)|)
      ensures ok <==> |old(pm.fl)| >= 4
      ensures stack != 0 <==> |old(pm.fl)| >= 5
      ensures Live(pm.S(), kroot, tramp) <==> |old(pm.fl)| >= 5
      ensures old(pm.fl) == [] ==> pm.S() == old(pm.S()) && pagetable == 0 && trapframe == 0
      ensures stack != 0 ==> Acquired(old(pm.S()), pm.S(), kroot, slot, pagetable)
      ensures ok ==> pagetable in old(pm.owner) && old(pm.owner)[pagetable].Free?
      ensures !ok ==> pagetable == 0
      ensures OthersOk(old(pm.S()), pm.S(), kroot, slot, pagetable, tramp)
      ensures pm.owner.Keys == old(pm.owner).Keys
      ensures forall f :: f in old(pm.owner) && f in pm.owner && !old(pm.owner)[f].Free? ==>
                pm.owner[f] == old(pm.owner)[f]
      ensures ok && stack == 0 ==> Lookup(pm.mem[..], kroot, KStack(slot)) == Some(Pte(0, PTE_R + PTE_W))
    {
      hide FreeOk, Down, Up, LeafOk, Lookup, Missing, OthersOk, Local, ProcOk, WithTrapframe, TableOwners, Acquired,
          StackOnly, StackMapped, SpaceOk;
      ghost var s0 := pm.S();
      OthersSame(s0, kroot, slot, tramp);
      trapframe := pm.Kalloc();
      if trapframe == 0 {
        return false, 0;
      }
      TrapframeTaken(s0, slot);
      pm.Claim(trapframe, slot);
      ghost var s2 := pm.S();
      assert s2 == Claimed(Popped(s0), s0.fl[0], slot);
      TakenFacts(s0, s2, slot, trapframe);
      var table;
      ghost var q;
      table, q := NewTable(pm, tramp);
      ghost var s5 := pm.S();
      if s2.fl == [] {
        ClaimedOnly(s0, s2, slot, trapframe, kroot, tramp);
      } else {
        TrapframeLocal(s0, s2, s5, slot, q, trapframe);
        RootFresh(s0, s2, s5, kroot, slot, q, trapframe);
        OthersLocal(s0, s5, {trapframe}, kroot, slot, q, tramp);
        TableAcquired(s0, s2, s5, slot, q, trapframe);
        OthersFresh(s0, s5, kroot, slot, q, pagetable, tramp);
      }
      if table == 0 {
        return false, 0;
      }
      pagetable := table;
      ghost var ks;
      stack, ks := NewStack(pm, kroot);
      OthersStack(s5, pm.S(), kroot, slot, pagetable, tramp);
      OthersTrans(s0, s5, pm.S(), kroot, slot, pagetable, tramp);
      ok := true;
      if stack == 0 {
        NotLive(pm.S(), kroot, slot, pagetable, trapframe, tramp, 0);
        return;
      }
      ProcessBuilt(s0, s2, s5, pm.S(), kroot, slot, pagetable, trapframe, tramp);
      ProcessAcquired(s0, s2, s5, pm.S(), kroot, slot, pagetable, trapframe, ks);
    }

    /** uvmcreate and the two fixed pages: 0 when there are less than three frames, which are lost then. q
        is the new root even so. */
    method NewTable(pm: PhysMem, tramp: nat) returns (r: nat, ghost q: nat)
      requires pm.Valid()
      modifies pm, pm.mem
      ensures pm.Valid() && |pm.fl| == |old(pm.fl)| - Min(3, |old(pm.fl)|)
      ensures r != 0 <==> |old(pm.fl)| >= 3
      ensures old(pm.fl) == [] ==> pm.S() == old(pm.S())
      ensures old(pm.fl) != [] ==> Local(old(pm.S()), pm.S(), q, {}) && TableOwners(old(pm.S()), pm.S(), q)
      ensures r != 0 ==> r == q && SpaceOk(pm.S(), r, trapframe, tramp, 0)
    {
      hide FreeOk, Down, Up, LeafOk, Lookup, Missing, Local, TableOwners, SpaceOk, PageMapped, Rooted, Popped, Grown;
      ghost var s2 := pm.S();
      r := pm.Uvmcreate();
      q := r;
      if r == 0 {
        return;
      }
      ghost var s3 := pm.S();
      var done := pm.MapPage(r, tramp, TRAMPOLINE, PTE_R + PTE_X, false);
      ghost var s4 := pm.S();
      if !done {
        TableBegun(s2, s3, s4, r);
        return 0, q;
      }
      FixedNext(s3, s4, r, tramp);
      done := pm.MapPage(r, trapframe, TRAPFRAME, PTE_R + PTE_W, false);
      ghost var s5 := pm.S();
      TableLocal(s2, s3, s4, s5, r, trapframe, tramp);
      TableOwned(s2, s3, s4, s5, r, trapframe, tramp);
      TableBuilt(s3, s4, s5, r, trapframe, tramp);
    }

    /** The kernel stack, in the table the trampoline already has. Without a free frame it is page 0. */
    method NewStack(pm: PhysMem, kroot: nat) returns (stack: nat, ghost ks: nat)
      requires pm.Valid() && IsRoot(pm.S(), kroot) && slot < NPROC
      requires Missing(pm.mem[..], kroot, TRAMPOLINE) == 0 && Lookup(pm.mem[..], kroot, KStack(slot)) == None
      modifies pm, pm.mem
      ensures pm.Valid() && |pm.fl| == |old(pm.fl)| - Min(1, |old(pm.fl)|)
      ensures stack != 0 <==> old(pm.fl) != []
      ensures StackOnly(old(pm.S()), pm.S(), kroot, slot) && (stack != 0 ==> StackMapped(pm.S(), kroot, slot))
      ensures stack != 0 ==> ks == stack && ks in old(pm.owner) && old(pm.owner)[ks] == Free && ks in pm.owner
      ensures stack != 0 ==> OwnedBy(pm.owner[ks], kroot, KStack(slot), 1)
      ensures pm.owner.Keys == old(pm.owner).Keys && forall f :: f in pm.owner && !(stack != 0 && f == ks) ==>
                pm.owner[f] == old(pm.owner)[f]
      ensures Lookup(pm.mem[..], kroot, KStack(slot)) == Some(Pte(stack, PTE_R + PTE_W))
    {
      hide FreeOk, Down, Up, LeafOk, Lookup, Missing, StackOnly, StackMapped, PageMapped;
      ghost var s5 := pm.S();
      if s5.fl != [] { PoppedLookup(s5); }
      stack := pm.Kalloc();
      ghost var s6 := pm.S();
      MissingShared(s6, kroot, TRAMPOLINE, KStack(slot));
      // mappages does not look at the frame it is given
      ghost var own := stack != 0;
      var done := pm.MapPage(kroot, stack, KStack(slot), PTE_R + PTE_W, own);
      MappedOnly(s6, pm.S(), kroot, KStack(slot), stack, PTE_R + PTE_W, own);
      ks := stack;
      if stack == 0 {
        StackLost(s5, pm.S(), kroot, slot);
      } else {
        StackMade(s5, pm.S(), kroot, slot, stack);
        StackOwner(Popped(s5), pm.S(), kroot, slot, stack);
      }
    }
  }
}
