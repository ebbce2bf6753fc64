/** exec: the address space is replaced, and the arguments cross from the old one to the new. */
module Exec {
  import opened Words
  import opened PageTables
  import opened Translation
  import opened Changes
  import opened Fork
  import opened Places
  import opened UserBytes
  import opened Space
  import opened ExecLayout
  import opened PhysicalMemory
  import opened ProcessMemory

  const USER_ALL: nat := PTE_U + PTE_R + PTE_W + PTE_X

  // Words of the trapframe.
  const TF_EPC: nat := 3
  const TF_SP: nat := 6
  const TF_A1: nat := 15

  // ------------------------------------------------ the space, step by step

  lemma SpaceCleared(s: State, s': State, r: nat, tf: nat, tramp: nat, z: nat)
    requires SpaceOk(s, r, tf, tramp, z) && PagesCleared(s, s', r, 0, Pages(z), true)
    ensures SpaceOk(s', r, tf, tramp, 0)
  {
    hide Wf, Lookup, Missing, OwnPage, Pte, SameButTables;
    ClearedWf(s, s', r, 0, Pages(z), true);
    assert Pages(0) == 0;
    assert OwnNone(s', r, TRAPFRAME, 2);
    hide Pages, OwnersCleared, OwnNone;
  }

  lemma SpaceMapped(s: State, s': State, r: nat, tf: nat, tramp: nat, g: nat)
    requires SpaceOk(s, r, tf, tramp, 0) && PageMapped(s, s', r, 0, g, USER_ALL, true)
    ensures SpaceOk(s', r, tf, tramp, PGSIZE) && Lookup(s'.mem, r, 0) == Some(Pte(g, USER_ALL))
  {
    hide Wf, Lookup, Pte, Ppn, PageMapped;
    MappedWf(s, s', r, 0, g, USER_ALL, true);
    MappedOnly(s, s', r, 0, g, USER_ALL, true);
    MappedOwner(s, s', r, g);
    PteParts(g, USER_ALL);
    assert Pages(0) == 0 && Pages(PGSIZE) == 1;
  }

  lemma MappedOwner(s: State, s': State, r: nat, g: nat)
    requires PageMapped(s, s', r, 0, g, USER_ALL, true) && OwnNone(s, r, TRAPFRAME, 2)
    ensures g in s'.owner && OwnedBy(s'.owner[g], r, 0, 1) && OwnNone(s', r, TRAPFRAME, 2)
  {
    hide Wf, MapsTo;
  }

  /** A larger size only allows more. */
  lemma SpaceWiden(s: State, r: nat, tf: nat, tramp: nat, z: nat, z': nat)
    requires SpaceOk(s, r, tf, tramp, z) && Pages(z) <= Pages(z') <= TRAPFRAME
    ensures SpaceOk(s, r, tf, tramp, z')
  {
    hide Wf, Lookup, Pte, Pages;
  }

  lemma SpaceLeaves(s: State, s': State, r: nat, tf: nat, tramp: nat, z: nat)
    requires SpaceOk(s, r, tf, tramp, z) && OnlyLeaves(s, s', r) && Wf(s')
    ensures SpaceOk(s', r, tf, tramp, z)
  {
    hide Wf, Lookup, Pte, Pages;
    forall v | 0 <= v < Pages(z)
      ensures OwnPage(s', r, v)
    {
      assert OwnPage(s, r, v);
    }
  }

  lemma SpaceGrown(s: State, s': State, r: nat, tf: nat, tramp: nat)
    requires SpaceOk(s, r, tf, tramp, 0) && Grown(s, s', r) && Wf(s')
    ensures SpaceOk(s', r, tf, tramp, 0)
  {
    hide Wf, Lookup, Pte, OwnPage;
    GrownKeys(s, s', r);
    hide SameButTables;
    assert Pages(0) == 0;
  }

  /** Taking, filling or giving back a frame of no space keeps the space. */
  lemma SpaceApart(s: State, s': State, q: nat, g: nat, kroot: nat, slot: nat, r: nat, tf: nat, tramp: nat, z: nat)
    requires SpaceOk(s, r, tf, tramp, z) && Wf(s') && Local(s, s', q, {g}) && q != r
    requires g in s.owner && (s.owner[g].Free? || s.owner[g].Held?)
    requires g in s'.owner && (s'.owner[g].Free? || s'.owner[g].Held?)
    ensures SpaceOk(s', r, tf, tramp, z)
  {
    hide Wf, SpaceOk, Local;
    OtherSpace(s, s', q, {g}, kroot, slot, r, tf, tramp, z);
  }

  /** The kernel's part of the process through any step on its space. */
  lemma KernelApart(s: State, s': State, r: nat, g: nat, kroot: nat, slot: nat, tf: nat)
    requires Wf(s) && KernelPartOk(s, kroot, slot, tf) && Local(s, s', r, {g}) && r != kroot
    requires g in s.owner && g in s'.owner && (s.owner[g].Free? || s.owner[g].Held?)
    requires s'.owner[g].Free? || s'.owner[g].Held? || OwnedBy(s'.owner[g], r, 0, 1)
    ensures KernelPartOk(s', kroot, slot, tf)
  {
    hide FreeOk, Down, Up, LeafOk, Lookup, Missing;
    LocalLookup(s, s', r, {g}, kroot);
  }

  // --------------------------------------------------- the image that goes

  /** Nothing is left of what r had below the trapframe in s: at most page 0 is mapped, with all five flags,
      to a frame that was free, and no frame of the old image belongs to a page of r. */
  ghost predicate ImageGone(s: State, s': State, r: nat) {
    && (forall v :: 0 <= v < TRAPFRAME && Lookup(s'.mem, r, v).Some? ==>
          v == 0 && Lookup(s'.mem, r, v).value % 1024 == 31 && Lookup(s'.mem, r, v).value / 1024 in s.fl)
    && forall f :: f in s.owner && f in s'.owner && s.owner[f].Leaf? && s.owner[f].root == r ==>
         !(s'.owner[f].Leaf? && s'.owner[f].root == r)
  }

  lemma GoneWhenEmpty(s: State, s': State, r: nat, tf: nat, tramp: nat)
    requires SpaceOk(s', r, tf, tramp, 0)
    ensures ImageGone(s, s', r) && IsRoot(s', r)
  {
    hide Lookup, Pte, OwnPage;
    assert Pages(0) == 0;
    forall f | f in s'.owner && s'.owner[f].Leaf? && s'.owner[f].root == r
      ensures false
    {
      OwnedMapped(s', f);
    }
  }

  lemma GoneWhenNew(s: State, s': State, r: nat, tf: nat, tramp: nat, g: nat)
    requires DomOk(s) && FreeOk(s) && g in s.fl && SpaceOk(s', r, tf, tramp, PGSIZE)
    requires Lookup(s'.mem, r, 0) == Some(Pte(g, USER_ALL))
    ensures ImageGone(s, s', r) && IsRoot(s', r)
  {
    hide Lookup, OwnPage, Down, Up, LeafOk;
    assert Pages(PGSIZE) == 1;
    PteParts(g, USER_ALL);
    assert Pte(g, USER_ALL) == g * 1024 + 31;
    forall f | f in s'.owner && s'.owner[f].Leaf? && s'.owner[f].root == r
      ensures f == g
    {
      OwnedMapped(s', f);
    }
  }

  // -------------------------------------------------------- the first page

  /** The page of a program: its code, then zeros. */
  function ProgramPage(prog: seq<Byte>): (b: seq<Byte>)
    requires |prog| <= PGSIZE
    ensures |b| == PGSIZE
  {
    prog + seq(PGSIZE - |prog|, i => 0)
  }

  /** Once the page is mapped at 0, user mode reads the program there. */
  lemma CodeReads(s: State, r: nat, g: nat, prog: seq<Byte>)
    requires |prog| <= PGSIZE && 0 < g < |s.mem| && s.mem[g] == FromBytes(ProgramPage(prog))
    requires Lookup(s.mem, r, 0) == Some(Pte(g, USER_ALL))
    ensures Reads(s, r, 0, prog) && Writable(s, r, 0)
  {
    hide Lookup, Pte, Bytes, FromBytes;
    PteParts(g, USER_ALL);
    UserAllBits(g);
    BytesOfPage(ProgramPage(prog));
    hide Ppn, U, W;
    forall k | 0 <= k < |prog|
      ensures UByte(s, r, k) == Some(prog[k])
    {
      assert k / PGSIZE == 0;
    }
  }

  lemma UserAllBits(g: nat)
    ensures U(Pte(g, USER_ALL)) && W(Pte(g, USER_ALL))
  {
    hide V, R, X, Ppn;
    OddPart(g * 32, 16, 31);
    OddPart(g * 128, 4, 7);
  }

  lemma OddPart(h: nat, d: nat, low: nat)
    requires (d == 16 && low == 31) || (d == 4 && low == 7)
    ensures (h * (2 * d) + low) / d % 2 == 1
  {
    if d == 16 {
      assert (h * 32 + 31) / 16 == 2 * h + 1;
    } else {
      assert (h * 8 + 7) / 4 == 2 * h + 1;
    }
  }

  // ------------------------------------------------------------- the arguments

  /** argv as user mode sees it: strings behind non-null pointers, then a null pointer. */
  ghost predicate ArgsAt(s: State, r: nat, uargv: nat, strs: seq<seq<Byte>>, ptrs: seq<nat>) {
    && |ptrs| == |strs|
    && (forall i :: 0 <= i < |strs| ==>
          && 0 < ptrs[i] < TWO64 && 0 !in strs[i]
          && Reads(s, r, (uargv + 8 * i) % TWO64, ToLE(ptrs[i], 8)) && Reads(s, r, ptrs[i], strs[i] + [0]))
    && Reads(s, r, (uargv + 8 * |strs|) % TWO64, ToLE(0, 8))
  }

  lemma ReadsPart(s: State, r: nat, a: nat, x: seq<Byte>, i: nat, n: nat)
    requires Reads(s, r, a, x) && i + n <= |x|
    ensures Reads(s, r, a + i, x[i..i + n])
  {
    hide UByte;
  }

  /** The laid-out page gives every argument back. */
  lemma ImageArgs(s: State, r: nat, prog: seq<Byte>, strs: seq<seq<Byte>>, ptrs: seq<nat>, a1: nat)
    requires Image(s, r, prog, strs, ptrs) && |prog| <= PGSIZE
    requires Reads(s, r, a1, PtrBytes(ptrs + [0])) && a1 + 8 * (|ptrs| + 1) <= Top(ptrs)
    requires forall i :: 0 <= i < |strs| ==> 0 !in strs[i]
    ensures ArgsAt(s, r, a1, strs, ptrs)
  {
    hide Reads, Stacked, PtrBytes, ToLE;
    TopInPage(|prog|, strs, ptrs);
    assert |ptrs| == |strs| by { StackedLen(|prog|, strs, ptrs); }
    var q := ptrs + [0];
    forall i | 0 <= i < |q|
      ensures Reads(s, r, (a1 + 8 * i) % TWO64, ToLE(q[i], 8))
    {
      PtrBytesAt(q, i);
      ReadsPart(s, r, a1, PtrBytes(q), 8 * i, 8);
    }
    forall i | 0 <= i < |ptrs|
      ensures 0 < ptrs[i] < TWO64
    {
      TopBelow(|prog|, strs, ptrs, i);
      StackedBelow(|prog|, strs, ptrs, i);
    }
    assert q[|ptrs|] == 0;
    assert forall i :: 0 <= i < |ptrs| ==> q[i] == ptrs[i];
  }

  lemma StackedLen(size: nat, strs: seq<seq<Byte>>, ptrs: seq<nat>)
    requires Stacked(size, strs, ptrs)
    ensures |ptrs| == |strs|
  {
  }

  lemma LeavesTrans(s: State, s': State, s'': State, r: nat)
    requires OnlyLeaves(s, s', r) && OnlyLeaves(s', s'', r)
    ensures OnlyLeaves(s, s'', r)
  {
    hide Lookup;
    assert forall q :: IsRoot(s, q) ==> IsRoot(s', q);
  }

  lemma LeavesRefl(s: State, r: nat)
    ensures OnlyLeaves(s, s, r)
  {
    hide Lookup;
  }

  /** There is a frame for the program's page and, with the old pages given back, for the tables that
      are missing on the way to it. */
  ghost predicate PageCanCome(s: State, r: nat, z: nat) {
    s.fl != [] && Missing(s.mem, r, 0) <= |s.fl| - 1 + |PagesOf(s, r, Pages(z))|
  }

  lemma FrameCounts(s0: State, s1: State, r: nat, z: nat, page: Page)
    requires Wf(s0) && IsRoot(s0, r) && s0.fl != [] && s0.fl[0] < |s0.mem| && Pages(z) <= MAXVPN
    requires s1 == Filled(Popped(s0), s0.fl[0], page)
    ensures |s1.fl| == |s0.fl| - 1 && Missing(s1.mem, r, 0) == Missing(s0.mem, r, 0)
    ensures PagesOf(s1, r, Pages(z)) == PagesOf(s0, r, Pages(z))
  {
    hide FreeOk, Down, Up, LeafOk, Lookup, Missing, Pages, MappedIn;
    PreparedMissing(s0, page, r);
    PreparedIs(s0, page);
    MappedSame(s0, s1, r, 0, Pages(z));
  }

  lemma ClearedMissing(s1: State, s2: State, r: nat, z: nat)
    requires IsRoot(s1, r) && PagesCleared(s1, s2, r, 0, z / PGSIZE, true)
    ensures Missing(s2.mem, r, 0) == Missing(s1.mem, r, 0)
  {
    hide Wf, Lookup, Missing;
  }

  /** kexec up to mappages: the old pages go, and the program's page comes. */
  method Replace(pm: PhysMem, p: Proc, kroot: nat, ghost tramp: nat, prog: seq<Byte>) returns (ok: bool)
    requires pm.Valid() && p.Live(pm.S(), kroot, tramp) && |prog| <= PGSIZE && p.sz % PGSIZE == 0
    modifies pm, pm.mem
    ensures pm.Valid() && Local(old(pm.S()), pm.S(), p.pagetable, {})
    ensures KernelPartOk(pm.S(), kroot, p.slot, p.trapframe)
    ensures ok ==> SpaceOk(pm.S(), p.pagetable, p.trapframe, tramp, PGSIZE)
    ensures ok ==> Reads(pm.S(), p.pagetable, 0, prog) && Writable(pm.S(), p.pagetable, 0)
    ensures !ok ==> SpaceOk(pm.S(), p.pagetable, p.trapframe, tramp, p.sz)
    ensures old(pm.fl) == [] ==> pm.S() == old(pm.S())
    ensures ok ==> old(pm.fl) != [] && Lookup(pm.mem[..], p.pagetable, 0) == Some(Pte(old(pm.fl)[0], USER_ALL))
    ensures !ok && old(pm.fl) != [] ==> SpaceOk(pm.S(), p.pagetable, p.trapframe, tramp, 0)
    ensures ok <==> PageCanCome(old(pm.S()), p.pagetable, p.sz)
  {
    hide FreeOk, Down, Up, LeafOk, Lookup, Missing, SpaceOk, KernelPartOk, Local, PagesCleared, PageMapped, Grown,
        FromBytes, Reads, Writable, MappedIn, GrownFor;
    ghost var s0, r, tf, z := pm.S(), p.pagetable, p.trapframe, p.sz;
    SpaceIsWf(s0, r, tf, tramp, z);
    var mem := pm.Kalloc();
    if mem == 0 {
      LocalRefl(s0, r, {});
      return false;
    }
    pm.FillPage(mem, FromBytes(ProgramPage(prog)));
    ghost var s1 := pm.S();
    FrameReady(s0, s1, kroot, p.slot, r, tf, tramp, z, FromBytes(ProgramPage(prog)));
    FrameCounts(s0, s1, r, z, FromBytes(ProgramPage(prog)));
    if p.pagetable != 0 && p.sz > 0 {
      SpaceOwns(s1, r, tf, tramp, z);
      pm.Uvmunmap(p.pagetable, 0, p.sz, true);
    } else {
      ClearedRefl(s1, r, 0, true);
      MappedNone(s1, r, 0);
    }
    ghost var s2 := pm.S();
    ClearedMissing(s1, s2, r, z);
    PageCleared0(s0, s1, s2, mem, kroot, p.slot, r, tf, tramp, z);
    ok := pm.MapPage(p.pagetable, mem, 0, USER_ALL, true);
    ghost var s3 := pm.S();
    if ok {
      PageLoaded(s0, s2, s3, mem, kroot, p.slot, r, tf, tramp, prog);
    } else {
      PageLost(s0, s2, s3, mem, kroot, p.slot, r, tf, tramp, z);
      pm.Kfree(mem);
    }
  }

  /** A frame g is taken and filled, outside every space. */
  lemma FrameReady(s0: State, s1: State, kroot: nat, slot: nat, r: nat, tf: nat, tramp: nat, z: nat, page: Page)
    requires ProcOk(s0, kroot, slot, r, tf, tramp, z) && s0.fl != [] && s0.fl[0] < |s0.mem| && Wf(s1)
    requires s1 == Filled(Popped(s0), s0.fl[0], page)
    ensures var g := s0.fl[0];
            && g in s0.owner && s0.owner[g].Free? && g in s1.owner && s1.owner[g].Held? && s1.mem[g] == page
            && Local(s0, s1, r, {g}) && SpaceOk(s1, r, tf, tramp, z) && KernelPartOk(s1, kroot, slot, tf)
  {
    hide Down, Up, LeafOk, Lookup, Missing, SpaceOk, KernelPartOk;
    var g := s0.fl[0];
    SpaceIsWf(s0, r, tf, tramp, z);
    assert s0.owner[g] == Free;
    assert Local(s0, s1, r, {g}) && Local(s0, s1, kroot, {g});
    hide FreeOk, Local;
    SpaceApart(s0, s1, kroot, g, kroot, slot, r, tf, tramp, z);
    KernelApart(s0, s1, r, g, kroot, slot, tf);
  }

  lemma SpaceIsWf(s: State, r: nat, tf: nat, tramp: nat, z: nat)
    requires SpaceOk(s, r, tf, tramp, z)
    ensures Wf(s) && IsRoot(s, r) && Pages(z) <= TRAPFRAME
  {
    hide Wf, Lookup, OwnPage, Pte;
  }

  lemma SpaceOwns(s: State, r: nat, tf: nat, tramp: nat, z: nat)
    requires SpaceOk(s, r, tf, tramp, z) && z % PGSIZE == 0
    ensures IsRoot(s, r) && z <= MAXVA && z / PGSIZE == Pages(z)
    ensures forall v :: 0 <= v < Pages(z) ==> OwnPage(s, r, v)
  {
    hide Wf, Lookup, OwnPage, Pte;
  }

  lemma PageCleared0(s0: State, s1: State, s2: State, g: nat, kroot: nat, slot: nat, r: nat, tf: nat, tramp: nat,
      z: nat)
    requires Wf(s1) && Local(s0, s1, r, {g}) && SpaceOk(s1, r, tf, tramp, z) && KernelPartOk(s1, kroot, slot, tf)
    requires r != kroot
    requires g in s1.owner && s1.owner[g].Held? && z % PGSIZE == 0
    requires PagesCleared(s1, s2, r, 0, z / PGSIZE, true)
    ensures Wf(s2) && Local(s0, s2, r, {g}) && SpaceOk(s2, r, tf, tramp, 0) && KernelPartOk(s2, kroot, slot, tf)
    ensures IsRoot(s2, r) && Lookup(s2.mem, r, 0) == None
    ensures g in s2.owner && s2.owner[g].Held? && (g < |s1.mem| ==> g < |s2.mem| && s2.mem[g] == s1.mem[g])
  {
    hide Wf, Lookup, Missing, SpaceOk, KernelPartOk, PagesCleared, Local;
    SpaceOwns(s1, r, tf, tramp, z);
    ClearedWf(s1, s2, r, 0, z / PGSIZE, true);
    SpaceCleared(s1, s2, r, tf, tramp, z);
    ClearedLocal(s1, s2, r, 0, z / PGSIZE, true);
    LocalHeld(s1, s2, r, {}, g);
    LocalMore(s1, s2, r, {}, {g});
    LocalTrans(s0, s1, s2, r, {g});
    KernelApart(s1, s2, r, g, kroot, slot, tf);
    EmptyAt0(s2, r, tf, tramp);
  }

  lemma EmptyAt0(s: State, r: nat, tf: nat, tramp: nat)
    requires SpaceOk(s, r, tf, tramp, 0)
    ensures IsRoot(s, r) && Lookup(s.mem, r, 0) == None
  {
    hide Wf, Lookup, OwnPage, Pte;
    assert Pages(0) == 0;
  }

  /** A held frame outside the exceptions keeps owner and contents. */
  lemma LocalHeld(s: State, s': State, r: nat, x: set<nat>, g: nat)
    requires Local(s, s', r, x) && g !in x && g in s.owner && s.owner[g].Held?
    ensures g in s'.owner && s'.owner[g].Held? && (g < |s.mem| ==> g < |s'.mem| && s'.mem[g] == s.mem[g])
  {
  }

  lemma PageLoaded(s0: State, s2: State, s3: State, g: nat, kroot: nat, slot: nat, r: nat, tf: nat, tramp: nat,
      prog: seq<Byte>)
    requires Wf(s2) && Local(s0, s2, r, {g}) && SpaceOk(s2, r, tf, tramp, 0) && KernelPartOk(s2, kroot, slot, tf)
    requires r != kroot
    requires g in s0.owner && s0.owner[g].Free? && g in s2.owner && s2.owner[g].Held? && 0 < g < |s2.mem|
    requires |prog| <= PGSIZE && s2.mem[g] == FromBytes(ProgramPage(prog))
    requires PageMapped(s2, s3, r, 0, g, USER_ALL, true)
    ensures Local(s0, s3, r, {}) && SpaceOk(s3, r, tf, tramp, PGSIZE) && KernelPartOk(s3, kroot, slot, tf)
    ensures Reads(s3, r, 0, prog) && Writable(s3, r, 0) && Lookup(s3.mem, r, 0) == Some(Pte(g, USER_ALL))
  {
    hide FreeOk, Down, Up, LeafOk, Lookup, Missing, SpaceOk, KernelPartOk, PageMapped, Local, FromBytes, Pte, Reads,
        Writable;
    MappedLocal(s2, s3, r, 0, g, USER_ALL, true);
    LocalTrans(s0, s2, s3, r, {g});
    SpaceMapped(s2, s3, r, tf, tramp, g);
    MappedFrame(s2, s3, r, g);
    KernelApart(s2, s3, r, g, kroot, slot, tf);
    LocalDrop(s0, s3, r, {g}, g);
    assert {g} - {g} == {};
    CodeReads(s3, r, g, prog);
  }

  lemma MappedFrame(s: State, s': State, r: nat, g: nat)
    requires DomOk(s) && PageMapped(s, s', r, 0, g, USER_ALL, true) && g < |s.mem|
    ensures g in s'.owner && OwnedBy(s'.owner[g], r, 0, 1) && g < |s'.mem| && s'.mem[g] == s.mem[g]
  {
    hide Wf, MapsTo;
  }

  lemma PageLost(s0: State, s2: State, s3: State, g: nat, kroot: nat, slot: nat, r: nat, tf: nat, tramp: nat, z: nat)
    requires Wf(s2) && Local(s0, s2, r, {g}) && SpaceOk(s2, r, tf, tramp, 0) && KernelPartOk(s2, kroot, slot, tf)
    requires r != kroot
    requires g in s0.owner && s0.owner[g].Free? && g in s2.owner && s2.owner[g].Held? && Pages(z) <= TRAPFRAME
    requires Grown(s2, s3, r) && Wf(s3)
    ensures g in s3.owner && s3.owner[g].Held? && g < |s3.mem| && Local(s0, Pushed(s3, g), r, {})
    ensures Wf(Pushed(s3, g)) ==>
              && SpaceOk(Pushed(s3, g), r, tf, tramp, z) && KernelPartOk(Pushed(s3, g), kroot, slot, tf)
              && SpaceOk(Pushed(s3, g), r, tf, tramp, 0)
  {
    hide FreeOk, Down, Up, LeafOk, Lookup, Missing, SpaceOk, KernelPartOk, Grown, Local, Pte, Pages, Pushed;
    GrownLocal(s2, s3, r);
    LocalHeld(s2, s3, r, {}, g);
    LocalMore(s2, s3, r, {}, {g});
    LocalTrans(s0, s2, s3, r, {g});
    KernelApart(s2, s3, r, g, kroot, slot, tf);
    SpaceGrown(s2, s3, r, tf, tramp);
    assert g < |s3.mem|;
    var s4 := Pushed(s3, g);
    PushedOwner(s3, g);
    PushedLocal(s3, r, g);
    PushedLocal(s3, kroot, g);
    LocalTrans(s0, s3, s4, r, {g});
    LocalDrop(s0, s4, r, {g}, g);
    assert {g} - {g} == {};
    if Wf(s4) {
      SpaceApart(s3, s4, kroot, g, kroot, slot, r, tf, tramp, 0);
      KernelApart(s3, s4, r, g, kroot, slot, tf);
      assert Pages(0) <= Pages(z) by { PagesZero(z); }
      SpaceWiden(s4, r, tf, tramp, 0, z);
    }
  }

  lemma PagesZero(z: nat)
    ensures Pages(0) == 0 && (z > 0 ==> Pages(PGSIZE) <= Pages(z))
  {
  }

  // ---------------------------------------------------------- pushing argv

  /** One round of the argv loop; a string that would wrap around the page is refused by copyout. */
  method PushString(pm: PhysMem, r: nat, ghost prog: seq<Byte>, size: nat, ghost strs: seq<seq<Byte>>, ptrs: seq<nat>,
      top: nat, str: seq<Byte>)
    returns (ok: bool, sp: nat)
    requires pm.Valid() && IsRoot(pm.S(), r) && UserOwned(pm.S(), r) && Image(pm.S(), r, prog, strs, ptrs)
    requires size == |prog| <= PGSIZE && top == Top(ptrs) && |str| < 0x7fff_ffff && Writable(pm.S(), r, 0)
    modifies pm, pm.mem
    ensures pm.Valid() && OnlyLeaves(old(pm.S()), pm.S(), r)
    ensures ok ==> Image(pm.S(), r, prog, strs + [str], ptrs + [sp]) && sp == Below(top, |str| + 1, 8)
    ensures ok <==> size <= Below(top, |str| + 1, 8)
  {
    hide FreeOk, Down, Up, LeafOk, Lookup, Missing, UserOwned, Image, OnlyLeaves, Wrote, Writable, Reads, Stacked,
        UserFrame;
    ghost var s := pm.S();
    ImageStacked(s, r, prog, strs, ptrs);
    TopInPage(size, strs, ptrs);
    NextSp(top, |str| + 1);
    sp := AlignDown(SubWrap(top, |str| + 1), 8);
    LeavesRefl(s, r);
    if sp < size {
      if |str| + 1 <= top { BelowIs(top, |str| + 1, 8); }
      return false, sp;
    }
    ghost var n;
    ok, n := pm.Copyout(r, sp, str + [0]);
    if ok {
      assert (str + [0])[..n] == str + [0];
      if |str| + 1 > top {
        NotUser(s, r, sp / PGSIZE);
        assert false;
      }
      BelowIs(top, |str| + 1, 8);
      ImageMore(s, pm.S(), r, prog, strs, ptrs, str, sp);
    } else if |str| + 1 <= top {
      // page 0 is writable
      assert false;
    }
  }

  lemma ImageStacked(s: State, r: nat, prog: seq<Byte>, strs: seq<seq<Byte>>, ptrs: seq<nat>)
    requires Image(s, r, prog, strs, ptrs)
    ensures Stacked(|prog|, strs, ptrs)
  {
    hide Reads, Stacked;
  }

  lemma ImageNone(s: State, r: nat, prog: seq<Byte>)
    requires Reads(s, r, 0, prog)
    ensures Image(s, r, prog, [], [])
  {
    hide Reads;
  }

  /** Frames outside the space keep contents and owner while user memory is written. */
  lemma LeavesHeld(s: State, s': State, r: nat, g: nat)
    requires OnlyLeaves(s, s', r) && g in s.owner && s.owner[g].Held? && g < |s.mem|
    ensures g in s'.owner && s'.owner[g].Held? && g < |s'.mem| && s'.mem[g] == s.mem[g]
  {
    hide Lookup;
  }

  lemma LeavesUser(s: State, s': State, r: nat)
    requires OnlyLeaves(s, s', r) && IsRoot(s, r)
    ensures IsRoot(s', r) && UserOwned(s', r) == UserOwned(s, r)
  {
    hide Lookup, UserOwned, Writable, UserFrame;
    LeavesRoot(s, s', r, 0);
  }

  /** The argv loop of kexec over the strings in the argument buffer. */
  method PushStrings(pm: PhysMem, r: nat, ghost prog: seq<Byte>, size: nat, ab: nat, n: nat)
    returns (ok: bool, sp: nat, ptrs: seq<nat>, ghost strs: seq<seq<Byte>>)
    requires pm.Valid() && IsRoot(pm.S(), r) && UserOwned(pm.S(), r) && Reads(pm.S(), r, 0, prog)
    requires size == |prog| <= PGSIZE && Writable(pm.S(), r, 0)
    requires ab in pm.owner && pm.owner[ab].Held? && ab < pm.mem.Length
    modifies pm, pm.mem
    ensures pm.Valid() && OnlyLeaves(old(pm.S()), pm.S(), r)
    ensures ok ==> Image(pm.S(), r, prog, strs, ptrs) && sp == Top(ptrs) == StackTop(strs) && |strs| == |ptrs| == n
    ensures ok ==> strs == BufStrs(Bytes(old(pm.mem[..])[ab]), n)
    ensures ok <==> n <= MAXARG && size <= StackTop(BufStrs(Bytes(old(pm.mem[..])[ab]), n))
  {
    hide FreeOk, Down, Up, LeafOk, Lookup, Missing, UserOwned, Image, OnlyLeaves, Reads, Bytes, StrAt, Writable,
        Below, StackTop;
    ghost var s0 := pm.S();
    ghost var all := BufStrs(Bytes(pm.mem[ab]), n);
    StackNone();
    LeavesRefl(s0, r);
    ImageNone(s0, r, prog);
    var argc := 0;
    sp, ptrs, strs := PGSIZE, [], [];
    while argc < n
      invariant argc <= n && |strs| == |ptrs| == argc && sp == Top(ptrs) == StackTop(strs) && argc <= MAXARG
      invariant pm.Valid() && IsRoot(pm.S(), r) && UserOwned(pm.S(), r) && Writable(pm.S(), r, 0)
      invariant OnlyLeaves(s0, pm.S(), r) && Image(pm.S(), r, prog, strs, ptrs)
      invariant ab < pm.mem.Length && pm.mem[ab] == s0.mem[ab]
      invariant strs == BufStrs(Bytes(s0.mem[ab]), argc) && size <= sp
    {
      if argc >= MAXARG {
        return false, sp, ptrs, strs;
      }
      ghost var s := pm.S();
      var str := StrAt(Bytes(pm.mem[ab]), MAXPATH * argc);
      StrShort(Bytes(pm.mem[ab]), MAXPATH * argc);
      var top := sp;
      StackPush(strs, str);
      ok, sp := PushString(pm, r, prog, size, strs, ptrs, top, str);
      LeavesTrans(s0, s, pm.S(), r);
      LeavesUser(s, pm.S(), r);
      LeavesHeld(s0, pm.S(), r, ab);
      LeavesRoot(s, pm.S(), r, 0);
      if !ok {
        StackFalls(all, argc + 1);
        BufStrsPrefix(Bytes(s0.mem[ab]), n, argc + 1);
        return false, sp, ptrs, strs;
      }
      strs, ptrs := strs + [str], ptrs + [sp];
      argc := argc + 1;
    }
    ok := true;
  }

  lemma StackNone()
    ensures StackTop([]) == PGSIZE
  {
  }

  lemma StackPush(strs: seq<seq<Byte>>, str: seq<Byte>)
    ensures StackTop(strs + [str]) == Below(StackTop(strs), |str| + 1, 8)
  {
    assert (strs + [str])[..|strs|] == strs;
  }

  lemma StrShort(b: seq<Byte>, off: nat)
    ensures |StrAt(b, off)| <= |b|
  {
  }

  /** The page is laid out: code, strings, and the pointer array on top of the free space. */
  ghost predicate Laid(s: State, r: nat, prog: seq<Byte>, strs: seq<seq<Byte>>, ptrs: seq<nat>, a1: nat) {
    && Image(s, r, prog, strs, ptrs) && Reads(s, r, a1, PtrBytes(ptrs + [0]))
    && a1 % 16 == 0 && |prog| <= a1 && a1 + 8 * (|ptrs| + 1) <= Top(ptrs)
  }

  /** The last copyout of kexec: the pointer array. */
  method PushTable(pm: PhysMem, r: nat, ghost prog: seq<Byte>, size: nat, ghost strs: seq<seq<Byte>>, ptrs: seq<nat>,
      top: nat)
    returns (ok: bool, sp: nat)
    requires pm.Valid() && IsRoot(pm.S(), r) && UserOwned(pm.S(), r) && Image(pm.S(), r, prog, strs, ptrs)
    requires size == |prog| <= PGSIZE && top == Top(ptrs) && |ptrs| <= MAXARG && Writable(pm.S(), r, 0)
    modifies pm, pm.mem
    ensures pm.Valid() && OnlyLeaves(old(pm.S()), pm.S(), r)
    ensures ok ==> Laid(pm.S(), r, prog, strs, ptrs, sp)
    ensures ok <==> size <= Below(top, 8 * (|ptrs| + 1), 16)
  {
    hide FreeOk, Down, Up, LeafOk, Lookup, Missing, UserOwned, Image, OnlyLeaves, Wrote, Writable, Reads, Stacked,
        UserFrame, PtrBytes;
    ghost var s := pm.S();
    ImageStacked(s, r, prog, strs, ptrs);
    TopInPage(size, strs, ptrs);
    LastSp(top, |ptrs| + 1);
    sp := AlignDown(SubWrap(top, (|ptrs| + 1) * 8), 16);
    LeavesRefl(s, r);
    if 8 * (|ptrs| + 1) <= top {
      BelowIs(top, 8 * (|ptrs| + 1), 16);
    }
    if sp < size {
      return false, sp;
    }
    var table := PtrBytes(ptrs + [0]);
    ghost var n;
    ok, n := pm.Copyout(r, sp, table);
    if ok {
      assert table[..n] == table;
      if 8 * (|ptrs| + 1) > top {
        NotUser(s, r, sp / PGSIZE);
        assert false;
      }
      ImageKept(s, pm.S(), r, prog, strs, ptrs, sp, table);
      ReadsWrote(s, pm.S(), r, sp, table);
    } else if 8 * (|ptrs| + 1) <= top {
      assert false;
    }
  }

  /** kexec. The strings of argv lie MAXPATH bytes apart in the frame ab. Without a program of that
      name, or with one larger than a page, nothing changes. */
  method KExec(pm: PhysMem, p: Proc, kroot: nat, ghost tramp: nat, prog: Option<seq<Byte>>, ab: nat, n: nat)
    returns (rc: int, ghost strs: seq<seq<Byte>>, ghost ptrs: seq<nat>)
    requires pm.Valid() && p.Live(pm.S(), kroot, tramp) && p.sz % PGSIZE == 0
    requires ab in pm.owner && pm.owner[ab].Held? && ab < pm.mem.Length
    modifies p`sz, pm, pm.mem
    ensures pm.Valid() && Local(old(pm.S()), pm.S(), p.pagetable, {p.trapframe})
    ensures rc == -1 || rc == n == |strs| <= MAXARG
    ensures rc == -1 ==> p.sz == old(p.sz)
    ensures rc >= 0 || old(p.sz) > 0 ==> p.Live(pm.S(), kroot, tramp) && p.sz % PGSIZE == 0
    ensures prog.None? || |prog.value| > PGSIZE || old(pm.fl) == [] ==> rc == -1 && pm.S() == old(pm.S())
    ensures prog.Some? && |prog.value| <= PGSIZE && old(pm.fl) != [] ==> ImageGone(old(pm.S()), pm.S(), p.pagetable)
    ensures IsRoot(pm.S(), p.pagetable)
    ensures rc == -1 ==> p.trapframe < pm.mem.Length && pm.mem[p.trapframe] == old(pm.mem[..])[p.trapframe]
    ensures rc >= 0 ==>
              && prog.Some? && p.sz == PGSIZE && p.trapframe < pm.mem.Length
              && Laid(pm.S(), p.pagetable, prog.value, strs, ptrs, pm.mem[p.trapframe][TF_A1])
              && RegistersAt(old(pm.mem[..])[p.trapframe], pm.mem[p.trapframe], pm.mem[p.trapframe][TF_A1])
    ensures rc >= 0 ==> strs == BufStrs(Bytes(old(pm.mem[..])[ab]), n)
    ensures rc >= 0 <==>
              && prog.Some? && |prog.value| <= PGSIZE && n <= MAXARG
              && ArgsFit(|prog.value|, BufStrs(Bytes(old(pm.mem[..])[ab]), n))
              && PageCanCome(old(pm.S()), p.pagetable, old(p.sz))
  {
    hide FreeOk, Down, Up, LeafOk, Lookup, Missing, UserOwned, SpaceOk, KernelPartOk, OnlyLeaves, Reads, Bytes, StrAt,
        Local, RegistersAt, Writable, Laid, Image, ImageGone, Pages, PageCanCome, ArgsFit, BufStrs;
    ghost var s0, r, tf := pm.S(), p.pagetable, p.trapframe;
    rc, strs, ptrs := -1, [], [];
    LocalRefl(s0, r, {tf});
    LocalRefl(s0, r, {});
    TrapframeSame(s0, s0, kroot, p.slot, r, tf);
    SpaceIsWf(s0, r, tf, tramp, p.sz);
    if prog.None? || |prog.value| > PGSIZE {
      return;
    }
    var ok := Replace(pm, p, kroot, tramp, prog.value);
    ghost var s1 := pm.S();
    LocalMore(s0, s1, r, {}, {tf});
    TrapframeSame(s0, s1, kroot, p.slot, r, tf);
    if !ok {
      if s0.fl != [] { GoneWhenEmpty(s0, s1, r, tf, tramp); }
      return;
    }
    LocalHeld(s0, s1, r, {}, ab);
    SpaceIsWf(s1, r, tf, tramp, PGSIZE);
    SpaceUserOwned(s1, r, tf, tramp, PGSIZE);
    var sp, ps;
    ok, sp, ps, strs := PushArgs(pm, p.pagetable, prog.value, ab, n);
    ghost var s2 := pm.S();
    ptrs := ps;
    LeavesProcess(s0, s1, s2, kroot, p.slot, r, tf, tramp);
    GoneWhenNew(s0, s2, r, tf, tramp, s0.fl[0]);
    TrapframeSame(s0, s2, kroot, p.slot, r, tf);
    PagesZero(p.sz);
    if p.sz > 0 {
      SpaceWiden(s2, r, tf, tramp, PGSIZE, p.sz);
    }
    if !ok {
      return;
    }
    KernelFrame(s2, kroot, p.slot, tf);
    LeavesUser(s1, s2, r);
    SetRegisters(pm, p.trapframe, sp);
    RegisterA1(s0.mem[tf], pm.mem[tf], sp);
    RegistersSet(s0, s2, pm.S(), pm.mem[tf], kroot, p.slot, r, tf, tramp, prog.value, strs, ptrs, sp);
    GoneWhenNew(s0, pm.S(), r, tf, tramp, s0.fl[0]);
    p.sz := PGSIZE;
    rc := n;
  }

  /** The saved registers: word 3, epc, is 0, words 6 and 15, sp and a1, are sp, and all others as they were. */
  predicate RegistersAt(was: Page, now: Page, sp: nat) {
    now[3] == 0 && now[6] == sp && now[15] == sp
    && forall i :: 0 <= i < 512 && i != 3 && i != 6 && i != 15 ==> now[i] == was[i]
  }

  /** kexec's stores to epc, sp and a1. */
  method SetRegisters(pm: PhysMem, tf: nat, sp: nat)
    requires pm.Valid() && tf in pm.owner && pm.owner[tf].Trapframe?
    modifies pm.mem
    ensures pm.Valid() && tf < pm.mem.Length && pm.S() == Filled(old(pm.S()), tf, pm.mem[tf])
    ensures RegistersAt(old(pm.mem[..])[tf], pm.mem[tf], sp)
  {
    hide FreeOk, Down, Up, LeafOk;
    pm.FillPage(tf, pm.mem[tf][TF_EPC := 0][TF_SP := sp][TF_A1 := sp]);
  }

  lemma RegisterA1(was: Page, now: Page, sp: nat)
    requires RegistersAt(was, now, sp)
    ensures now[TF_A1] == sp
  {
  }

  /** The strings and the pointer array. */
  method PushArgs(pm: PhysMem, r: nat, prog: seq<Byte>, ab: nat, n: nat)
    returns (ok: bool, sp: nat, ptrs: seq<nat>, ghost strs: seq<seq<Byte>>)
    requires pm.Valid() && IsRoot(pm.S(), r) && UserOwned(pm.S(), r) && Reads(pm.S(), r, 0, prog) && |prog| <= PGSIZE
    requires Writable(pm.S(), r, 0)
    requires ab in pm.owner && pm.owner[ab].Held? && ab < pm.mem.Length
    modifies pm, pm.mem
    ensures pm.Valid() && OnlyLeaves(old(pm.S()), pm.S(), r)
    ensures ok ==> Laid(pm.S(), r, prog, strs, ptrs, sp) && |strs| == n
    ensures ok ==> strs == BufStrs(Bytes(old(pm.mem[..])[ab]), n)
    ensures ok <==> n <= MAXARG && ArgsFit(|prog|, BufStrs(Bytes(old(pm.mem[..])[ab]), n))
  {
    hide FreeOk, Down, Up, LeafOk, Lookup, Missing, UserOwned, Image, OnlyLeaves, Reads, Bytes, StrAt, Laid, Writable,
        StackTop;
    ghost var s0 := pm.S();
    ok, sp, ptrs, strs := PushStrings(pm, r, prog, |prog|, ab, n);
    ghost var s1 := pm.S();
    if ok {
      LeavesUser(s0, s1, r);
      LeavesRoot(s0, s1, r, 0);
      ok, sp := PushTable(pm, r, prog, |prog|, strs, ptrs, sp);
      LeavesTrans(s0, s1, pm.S(), r);
    }
  }

  lemma LeavesProcess(s0: State, s1: State, s2: State, kroot: nat, slot: nat, r: nat, tf: nat, tramp: nat)
    requires Local(s0, s1, r, {}) && SpaceOk(s1, r, tf, tramp, PGSIZE) && KernelPartOk(s1, kroot, slot, tf)
    requires r != kroot
    requires OnlyLeaves(s1, s2, r) && Wf(s2)
    ensures Local(s0, s2, r, {tf}) && SpaceOk(s2, r, tf, tramp, PGSIZE) && KernelPartOk(s2, kroot, slot, tf)
    ensures Local(s0, s2, r, {}) && Lookup(s2.mem, r, 0) == Lookup(s1.mem, r, 0)
  {
    hide Wf, Lookup, Missing, SpaceOk, KernelPartOk, Local;
    SpaceIsWf(s1, r, tf, tramp, PGSIZE);
    assert Lookup(s2.mem, r, 0) == Lookup(s1.mem, r, 0);
    hide OnlyLeaves;
    SpaceLeaves(s1, s2, r, tf, tramp, PGSIZE);
    LeavesLocal(s1, s2, r);
    LocalTrans(s0, s1, s2, r, {});
    LocalMore(s0, s2, r, {}, {tf});
    OtherKernel(s1, s2, r, {}, kroot, slot, r, tf, tramp, PGSIZE);
  }

  /** Work on the space leaves the trapframe alone. */
  lemma TrapframeSame(s: State, s': State, kroot: nat, slot: nat, r: nat, tf: nat)
    requires DomOk(s) && KernelPartOk(s, kroot, slot, tf) && Local(s, s', r, {})
    ensures tf < |s.mem| && tf < |s'.mem| && s'.mem[tf] == s.mem[tf]
  {
    hide Lookup, OwnPage;
  }

  lemma KernelFrame(s: State, kroot: nat, slot: nat, tf: nat)
    requires KernelPartOk(s, kroot, slot, tf)
    ensures tf in s.owner && s.owner[tf] == Trapframe(slot)
  {
    hide Lookup, OwnPage;
  }

  lemma ReadsSame(s: State, s': State, r: nat, a: nat, x: seq<Byte>)
    requires Reads(s, r, a, x) && forall k :: 0 <= k ==> UByte(s', r, k) == UByte(s, r, k)
    ensures Reads(s', r, a, x)
  {
    hide UByte;
  }

  lemma LaidSame(s: State, s': State, r: nat, prog: seq<Byte>, strs: seq<seq<Byte>>, ptrs: seq<nat>, a1: nat)
    requires Laid(s, r, prog, strs, ptrs, a1) && forall k :: 0 <= k ==> UByte(s', r, k) == UByte(s, r, k)
    ensures Laid(s', r, prog, strs, ptrs, a1)
  {
    hide UByte, Reads, PtrBytes, Stacked;
    ReadsSame(s, s', r, 0, prog);
    ReadsSame(s, s', r, a1, PtrBytes(ptrs + [0]));
    StackedLen(|prog|, strs, ptrs);
    forall i | 0 <= i < |ptrs|
      ensures Reads(s', r, ptrs[i], strs[i] + [0])
    {
      ReadsSame(s, s', r, ptrs[i], strs[i] + [0]);
    }
  }

  /** Writing the trapframe leaves the process and the laid-out page as they are. */
  lemma RegistersSet(s0: State, s2: State, s3: State, page: Page, kroot: nat, slot: nat, r: nat, tf: nat, tramp: nat,
                     prog: seq<Byte>, strs: seq<seq<Byte>>, ptrs: seq<nat>, sp: nat)
    requires Local(s0, s2, r, {tf}) && SpaceOk(s2, r, tf, tramp, PGSIZE) && KernelPartOk(s2, kroot, slot, tf)
    requires r != kroot
    requires Laid(s2, r, prog, strs, ptrs, sp) && tf < |s2.mem| && s3 == Filled(s2, tf, page)
    ensures Local(s0, s3, r, {tf}) && ProcOk(s3, kroot, slot, r, tf, tramp, PGSIZE) && Laid(s3, r, prog, strs, ptrs, sp)
    ensures SpaceOk(s3, r, tf, tramp, PGSIZE) && Lookup(s3.mem, r, 0) == Lookup(s2.mem, r, 0)
  {
    hide Wf, Lookup, Missing, SpaceOk, KernelPartOk, Local, Laid, Filled, UserOwned, UByte;
    SpaceIsWf(s2, r, tf, tramp, PGSIZE);
    SpaceUserOwned(s2, r, tf, tramp, PGSIZE);
    KernelFrame(s2, kroot, slot, tf);
    FilledProcess(s2, tf, page, kroot, slot, r, tf, tramp, PGSIZE);
    FilledBytes(s2, tf, page, r);
    FilledLocal(s2, r, tf, page);
    FilledLocal(s2, kroot, tf, page);
    LocalLookup(s2, s3, kroot, {tf}, r);
    LocalTrans(s0, s2, s3, r, {tf});
    LaidSame(s2, s3, r, prog, strs, ptrs, sp);
  }
}
