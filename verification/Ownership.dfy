/** Each frame has one role, and a process gives back exactly what it took. */
module Ownership {
  import opened Words
  import opened PageTables
  import opened Translation
  import opened Changes
  import opened Places
  import opened UserBytes
  import opened Space
  import opened PhysicalMemory
  import opened ProcessMemory
  import opened KernelFork
  import opened SystemExec

  /** A table at any level, the root included, that memory leads to is on no free list and at no other
      place of any tree. */
  lemma TableOnce(s: State, r: nat, v: nat, l: nat, r': nat, v': nat, l': nat, t: nat)
    requires Wf(s) && IsRoot(s, r) && IsRoot(s, r') && v < MAXVPN && v' < MAXVPN && l <= 2 && l' <= 2
    requires TableAt(s.mem, r, 2, v, l) == Some(t) && TableAt(s.mem, r', 2, v', l') == Some(t)
    ensures r == r' && l == l' && Pre(l, v) == Pre(l, v') && t !in s.fl
  {
    RootOnPath(s, r, v);
    RootOnPath(s, r', v');
    AtOnPath(s, r, r, v, l);
    AtOnPath(s, r', r', v', l');
  }

  /** A frame that two pages own is one page's; it is not free and no table. */
  lemma LeafOnce(s: State, r: nat, v: nat, r': nat, v': nat)
    requires Wf(s) && OwnPage(s, r, v) && OwnPage(s, r', v')
    requires Lookup(s.mem, r, v).Some? && Lookup(s.mem, r', v').Some?
    requires Ppn(Lookup(s.mem, r, v).value) == Ppn(Lookup(s.mem, r', v').value)
    ensures r == r' && v == v' && Ppn(Lookup(s.mem, r, v).value) !in s.fl
    ensures forall q :: IsRoot(s, q) ==> !Reaches(s.mem, q, Ppn(Lookup(s.mem, r, v).value))
  {
    hide Down, Up, LeafOk, Lookup, Reaches;
    forall q | IsRoot(s, q)
      ensures !Reaches(s.mem, q, Ppn(Lookup(s.mem, r, v).value))
    {
      ReachedTables(s, q, Ppn(Lookup(s.mem, r, v).value));
    }
  }

  /** The free list has no repetition and closes no circle: every frame on it is passed once. */
  lemma {:induction false} FreeListEnds(s: State, i: nat)
    requires Core(s) && i <= |s.fl|
    ensures Follow(s.mem, HeadPtr(s.fl[i..]), |s.fl| - i) == Some(s.fl[i..])
    decreases |s.fl| - i
  {
    if i < |s.fl| {
      hide FreeOk, Down, Up, LeafOk, Follow;
      FreeListEnds(s, i + 1);
      FreeListStep(s, i);
      FollowStep(s.mem, s.fl[i], s.fl[i + 1..], |s.fl| - i);
    }
  }

  lemma FollowStep(mem: seq<Page>, f: nat, rest: seq<nat>, n: nat)
    requires 0 < f < |mem| && n > 0 && Follow(mem, mem[f][0], n - 1) == Some(rest)
    ensures Follow(mem, f * PGSIZE, n) == Some([f] + rest)
  {
  }

  lemma FreeListStep(s: State, i: nat)
    requires DomOk(s) && FreeOk(s) && i < |s.fl|
    ensures s.fl[i..] == [s.fl[i]] + s.fl[i + 1..]
    ensures 0 < s.fl[i] < |s.mem| && HeadPtr(s.fl[i..]) == s.fl[i] * PGSIZE
    ensures s.mem[s.fl[i]][0] == HeadPtr(s.fl[i + 1..])
  {
    assert s.mem[s.fl[i]][0] == NextPtr(s.fl, i);
  }

  /** The frames met from an address on, if the list ends after n of them. */
  function Follow(mem: seq<Page>, addr: nat, n: nat): Option<seq<nat>>
    decreases n
  {
    if addr == 0 then if n == 0 then Some([]) else None
    else if n == 0 || addr / PGSIZE >= |mem| then None
    else
      var rest := Follow(mem, mem[addr / PGSIZE][0], n - 1);
      if rest.None? then None else Some([addr / PGSIZE] + rest.value)
  }

  /** exec and fork keep the account of what the process took from s0. */
  lemma AccountKept(s0: State, s: State, s': State, kroot: nat, slot: nat, r: nat, tf: nat, tramp: nat, z: nat, z': nat)
    requires Acquired(s0, s, kroot, slot, r) && Local(s, s', r, {tf})
    requires ProcOk(s, kroot, slot, r, tf, tramp, z) && ProcOk(s', kroot, slot, r, tf, tramp, z')
    requires forall f :: f in s0.owner ==> !Belongs(s0.owner[f], kroot, slot, r)
    ensures Acquired(s0, s', kroot, slot, r)
  {
    hide Wf, SpaceOk, Lookup, OwnPage;
  }

  lemma NothingYet(s0: State, s: State, kroot: nat, slot: nat, r: nat, tf: nat, tramp: nat, z: nat)
    requires SlotFree(s0, kroot, slot) && ProcOk(s, kroot, slot, r, tf, tramp, z)
    requires Acquired(s0, s, kroot, slot, r) && r in s0.owner && s0.owner[r].Free?
    ensures forall f :: f in s0.owner ==> !Belongs(s0.owner[f], kroot, slot, r)
  {
    hide SpaceOk, KernelPartOk, Acquired;
    forall f | f in s0.owner && Belongs(s0.owner[f], kroot, slot, r)
      ensures false
    {
      NoFrameYet(s0, kroot, slot, r, f);
    }
  }

  lemma NoFrameYet(s0: State, kroot: nat, slot: nat, r: nat, f: nat)
    requires SlotFree(s0, kroot, slot) && r in s0.owner && s0.owner[r].Free? && f in s0.owner
    ensures !Belongs(s0.owner[f], kroot, slot, r)
  {
    hide FreeOk, Down, Up, LeafOk, Lookup, Missing;
    if s0.owner[f].Leaf? {
      OwnedMapped(s0, f);
    } else if s0.owner[f].Node? && s0.owner[f].root == r {
      NodeReachesRoot(s0, f);
    }
  }

  /** The whole life of a process: allocproc, fork from a parent, any execs that succeed or fail,
      freeproc. Every frame ends with the owner it began with exactly when allocproc finds no free frame or
      all five that it needs: in between it loses what it took. */
  method Life(pm: PhysMem, kroot: nat, tramp: nat, parent: Proc, child: Proc,
      execs: seq<(Option<seq<Byte>>, nat)>) returns (ran: bool)
    requires pm.Valid() && SlotFree(pm.S(), kroot, child.slot) && parent.Live(pm.S(), kroot, tramp)
    requires child.pagetable == 0 && child.trapframe == 0 && child.sz == 0
    requires parent.slot != child.slot && parent.sz > 0 && parent.sz % PGSIZE == 0
    modifies child, pm, pm.mem
    ensures pm.Valid()
    ensures pm.owner == old(pm.owner) <==> |old(pm.fl)| == 0 || |old(pm.fl)| >= 5
    ensures 0 < |old(pm.fl)| < 5 ==> pm.fl == []
    ensures ran <==> |old(pm.fl)| >= 5
    ensures ran ==> child.pagetable == 0 && child.trapframe == 0
    ensures parent.Live(pm.S(), kroot, tramp)
  {
    hide Wf, Lookup, Missing, ProcOk, Acquired, Released, Local, OthersOk;
    ghost var s0, q := pm.S(), parent.pagetable;
    var ok, stack := child.AllocProc(pm, kroot, tramp);
    ran := stack != 0;
    if !ran {
      ParentKept(s0, pm.S(), kroot, child.slot, child.pagetable, parent.slot, q, parent.trapframe, tramp, parent.sz);
      AllTaken(s0, pm.S());
      return;
    }
    ghost var r, tf := child.pagetable, child.trapframe;
    ParentApart(s0, pm.S(), kroot, child.slot, r, parent.slot, q, parent.trapframe, tramp, parent.sz);
    NothingYet(s0, pm.S(), kroot, child.slot, r, tf, tramp, 0);
    ghost var s1 := pm.S();
    var forked := KFork(pm, kroot, tramp, parent, child);
    AccountKept(s0, s1, pm.S(), kroot, child.slot, r, tf, tramp, 0, child.sz);
    StillApart(s1, pm.S(), kroot, child.slot, r, parent.slot, q, parent.trapframe, tramp, parent.sz);
    var i := 0;
    while forked && i < |execs|
      invariant pm.Valid() && child.Live(pm.S(), kroot, tramp) && child.pagetable == r && child.trapframe == tf
      invariant forked ==> child.sz > 0 && child.sz % PGSIZE == 0
      invariant Acquired(s0, pm.S(), kroot, child.slot, r)
      invariant ProcOk(pm.S(), kroot, parent.slot, q, parent.trapframe, tramp, parent.sz)
    {
      ghost var s, z := pm.S(), child.sz;
      var rc;
      ghost var strs, uptrs, ptrs;
      rc, strs, uptrs, ptrs := SysExec(pm, child, kroot, tramp, execs[i].0, execs[i].1);
      AccountKept(s0, s, pm.S(), kroot, child.slot, r, tf, tramp, z, child.sz);
      ChildFacts(s, kroot, child.slot, r, tf, tramp, z);
      ChildFacts(pm.S(), kroot, child.slot, r, tf, tramp, child.sz);
      OthersLocal(s, pm.S(), {tf}, kroot, child.slot, r, tramp);
      StillApart(s, pm.S(), kroot, child.slot, r, parent.slot, q, parent.trapframe, tramp, parent.sz);
      i := i + 1;
    }
    ghost var s2 := pm.S();
    child.FreeProc(pm, kroot, tramp);
    StillApart(s2, pm.S(), kroot, child.slot, r, parent.slot, q, parent.trapframe, tramp, parent.sz);
    LifeConserves(s0, s2, pm.S(), kroot, child.slot, r);
  }

  /** A process that could not be made leaves the parent as it was. */
  lemma ParentKept(s0: State, s: State, kroot: nat, slot: nat, r: nat, ps: nat, q: nat, ptf: nat, tramp: nat, z: nat)
    requires ProcOk(s0, kroot, ps, q, ptf, tramp, z) && ps != slot && OthersOk(s0, s, kroot, slot, r, tramp)
    requires r == 0 || (r in s0.owner && s0.owner[r].Free?)
    ensures ProcOk(s, kroot, ps, q, ptf, tramp, z)
  {
    hide FreeOk, Down, Up, LeafOk, Lookup, OwnPage, KernelPartOk;
    assert IsRoot(s0, q);
  }

  /** With the free list gone, free frames have become something else. */
  lemma AllTaken(s0: State, s: State)
    requires Wf(s0) && Wf(s) && s.fl == [] && s.owner.Keys == s0.owner.Keys
    ensures s0.fl != [] ==> s.owner != s0.owner
  {
    hide Down, Up, LeafOk;
    if s0.fl != [] {
      assert s0.owner[s0.fl[0]] == Free;
    }
  }

  /** A new process has a root of its own, and the parent is as it was. */
  lemma ParentApart(s0: State, s: State, kroot: nat, slot: nat, r: nat, ps: nat, q: nat, ptf: nat, tramp: nat, z: nat)
    requires ProcOk(s0, kroot, ps, q, ptf, tramp, z) && ps != slot && r in s0.owner && s0.owner[r].Free?
    requires OthersOk(s0, s, kroot, slot, r, tramp)
    ensures q != r && ProcOk(s, kroot, ps, q, ptf, tramp, z)
  {
    hide Wf, Lookup, OwnPage, KernelPartOk;
    assert IsRoot(s0, q);
  }

  lemma StillApart(s: State, s': State, kroot: nat, slot: nat, r: nat, ps: nat, q: nat, ptf: nat, tramp: nat, z: nat)
    requires ProcOk(s, kroot, ps, q, ptf, tramp, z) && ps != slot && q != r && OthersOk(s, s', kroot, slot, r, tramp)
    ensures ProcOk(s', kroot, ps, q, ptf, tramp, z)
  {
    hide ProcOk;
  }
}
