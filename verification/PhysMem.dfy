/** The page allocator and the page-table operations over raw frames. */
module PhysicalMemory {
  import opened Words
  import opened PageTables
  import opened Translation
  import opened Changes
  import opened Fork
  import opened Places
  import opened Teardown
  import opened UserBytes

  function Frames(lo: nat, hi: nat): (fs: set<nat>)
    ensures forall f :: f in fs <==> lo <= f < hi
    decreases hi - lo
  {
    if lo >= hi then {} else {lo} + Frames(lo + 1, hi)
  }

  /** Before kinit has freed anything, all managed frames count as held. */
  function Boot(lo: nat, mem: seq<Page>): State {
    State(lo, mem, map f | f in Frames(lo, |mem|) :: Held, [])
  }

  lemma BootCore(lo: nat, mem: seq<Page>)
    requires 0 < lo <= |mem|
    ensures Core(Boot(lo, mem))
    ensures forall f :: f in Boot(lo, mem).owner <==> lo <= f < |mem|
  {
  }

  class PhysMem {
    // PGROUNDUP(end_address) / PGSIZE: the first frame the allocator manages.
    const lo: nat
    // All of physical memory up to PHYSTOP, by frame number.
    const mem: array<Page>
    // free_mem_list: the address of the first free frame, 0 when there is none.
    var freeList: nat
    ghost var owner: map<nat, Owner>
    ghost var fl: seq<nat>

    ghost function S(): State
      reads this, mem
    {
      State(lo, mem[..], owner, fl)
    }

    ghost predicate CoreValid()
      reads this, mem
    {
      Core(S()) && freeList == HeadPtr(fl)
    }

    ghost predicate Valid()
      reads this, mem
    {
      Wf(S()) && freeList == HeadPtr(fl)
    }

    /** A store to memory; every other frame keeps its contents. */
    method StorePage(f: nat, p: Page)
      requires f < mem.Length
      modifies mem
      ensures mem[..] == old(mem[..])[f := p]
    {
      mem[f] := p;
    }

    /** A page-table entry is written. */
    method StoreEntry(t: nat, i: nat, w: nat)
      requires t < mem.Length && i < 512
      modifies mem
      ensures S() == Stored(old(S()), t, i, w)
    {
      StorePage(t, mem[t][i := w]);
    }

    /** A pointer to the new table g is written into table t. */
    method LinkTable(t: nat, i: nat, g: nat)
      requires t < mem.Length && t in owner && owner[t].Node? && owner[t].level > 0 && i < 512
      modifies this`owner, mem
      ensures S() == Linked(old(S()), t, i, g)
    {
      StorePage(t, mem[t][i := Pte(g, 0)]);
      owner := owner[g := Node(owner[t].root, owner[t].level - 1, owner[t].pre * 512 + i, t)];
    }

    /** kinit: every whole page between end and the top of memory goes to the free list. */
    constructor (ram: array<Page>, end: nat)
      requires 0 < end <= ram.Length * PGSIZE
      modifies ram
      ensures Valid() && mem == ram
      ensures lo == (end + PGSIZE - 1) / PGSIZE
      ensures forall f :: f in owner <==> lo <= f < ram.Length
      ensures forall f :: f in owner ==> owner[f] == Free
    {
      lo := (end + PGSIZE - 1) / PGSIZE;
      mem := ram;
      freeList := 0;
      fl := [];
      owner := Boot((end + PGSIZE - 1) / PGSIZE, ram[..]).owner;
      new;
      BootCore(lo, mem[..]);
      assert S() == Boot(lo, mem[..]);
      Kinit();
    }

    /** The loop of kinit. */
    method Kinit()
      requires CoreValid() && forall f :: f in owner ==> owner[f] == Held
      modifies this, mem
      ensures CoreValid() && S().owner.Keys == old(S().owner.Keys)
      ensures forall f :: f in owner ==> owner[f] == Free
    {
      hide FreeOk, Down, Up, LeafOk;
      var p := lo;
      while (p + 1) * PGSIZE <= mem.Length * PGSIZE
        invariant lo <= p <= mem.Length
        invariant CoreValid() && owner.Keys == old(owner.Keys)
        invariant forall f :: f in owner ==> owner[f] == if f < p then Free else Held
      {
        Kfree(p);
        p := p + 1;
      }
    }

    method Kfree(f: nat)
      requires CoreValid() && f in owner && Freeable(owner[f])
      modifies this, mem
      ensures CoreValid() && S() == Pushed(old(S()), f)
      ensures old(Valid()) ==> Valid()
    {
      PushedCore(S(), f);
      StorePage(f, mem[f][0 := freeList]);
      freeList := f * PGSIZE;
      owner := owner[f := Free];
      fl := [f] + fl;
    }

    /** A zeroed frame, or 0 exactly when none is left. */
    method Kalloc() returns (f: nat)
      requires Valid()
      modifies this, mem
      ensures Valid()
      ensures f == 0 <==> old(fl) == []
      ensures f == 0 ==> S() == old(S())
      ensures f != 0 ==> f == old(fl)[0] && S() == Popped(old(S()))
      ensures f != 0 ==> f in owner && old(owner)[f] == Free && owner[f] == Held && mem[f] == ZeroPage()
    {
      hide FreeOk, Down, Up, LeafOk, HeadPtr;
      HeadFacts(S());
      f := freeList / PGSIZE;
      if f != 0 {
        PoppedCore(S());
        freeList := mem[f][0];
        StorePage(f, ZeroPage());
        owner := owner[f := Held];
        fl := fl[1..];
      }
    }

    /** The round of walk that allocates: a new table under entry i of t, or 0. */
    method Grow(ghost r: nat, ghost vpn: nat, t: nat, i: nat) returns (g: nat)
      requires Valid() && IsRoot(S(), r) && OnPath(S(), r, t, vpn) && vpn < MAXVPN
      requires owner[t].level > 0 && i == PX(owner[t].level, vpn) && !V(mem[t][i])
      modifies this, mem
      ensures Valid() && Grown(old(S()), S(), r)
      ensures g == 0 <==> old(fl) == []
      ensures g == 0 ==> S() == old(S())
      ensures g != 0 ==> OnPath(S(), r, g, vpn) && owner[g].level == old(owner[t].level) - 1 && |fl| == old(|fl|) - 1
      ensures g != 0 ==> MissingFrom(mem[..], g, owner[g].level, vpn) == owner[g].level
      ensures GrownFor(old(S()), S(), r, vpn)
    {
      hide Down, Up, LeafOk, Grown, Linked, GrownFor;
      ghost var s := S();
      GrownRefl(s, r);
      GrownForRefl(s, r, vpn);
      g := Kalloc();
      if g != 0 {
        ExtendedGrown(s, r, t, vpn);
        ExtendedFor(s, r, t, vpn);
        LinkTable(t, i, g);
      }
    }

    /** The level-0 table that holds the entry of va, or 0. */
    method Walk(r: nat, va: nat, alloc: bool) returns (t: nat)
      requires Valid() && IsRoot(S(), r) && va < MAXVA
      modifies this, mem
      ensures Valid()
      ensures !alloc ==> S() == old(S()) && (t == 0 <==> Missing(mem[..], r, va / PGSIZE) > 0)
      ensures alloc ==> Grown(old(S()), S(), r)
      ensures alloc ==> (t == 0 <==> Missing(old(mem[..]), r, va / PGSIZE) > old(|fl|))
      ensures alloc ==> |fl| == old(|fl|) - Min(Missing(old(mem[..]), r, va / PGSIZE), old(|fl|))
      ensures Missing(old(mem[..]), r, va / PGSIZE) == 0 ==> S() == old(S())
      ensures t != 0 ==> t in owner && owner[t].Node? && owner[t].root == r && owner[t].level == 0
      ensures t != 0 ==> owner[t].pre == va / PGSIZE / 512
      ensures GrownFor(old(S()), S(), r, va / PGSIZE)
    {
      hide FreeOk, Down, Up, LeafOk, Grown, GrownFor, OnPath, MissingFrom, LookupFrom, V;
      ghost var vpn := va / PGSIZE;
      GrownRefl(S(), r);
      GrownForRefl(S(), r, vpn);
      t := r;
      var level := 2;
      RootOnPath(S(), r, vpn);
      while level > 0
        invariant level <= 2
        invariant Valid() && OnPath(S(), r, t, vpn) && t in owner && owner[t].Node? && owner[t].level == level
        invariant !alloc ==> S() == old(S()) && MissingFrom(mem[..], t, level, vpn) == Missing(mem[..], r, vpn)
        invariant alloc ==> Grown(old(S()), S(), r) && |fl| <= old(|fl|)
        invariant alloc ==> MissingFrom(mem[..], t, level, vpn) + (old(|fl|) - |fl|) == Missing(old(mem[..]), r, vpn)
        invariant Missing(old(mem[..]), r, vpn) == 0 ==> S() == old(S())
        invariant GrownFor(old(S()), S(), r, vpn) && IsRoot(S(), r)
      {
        OnPathIn(S(), r, t, vpn);
        MissingStep(mem[..], t, level, vpn);
        var i := PX(level, va / PGSIZE);
        var pte := mem[t][i];
        if V(pte) {
          ChildOnPath(S(), r, t, vpn);
          t := Ppn(pte);
        } else {
          if !alloc {
            return 0;
          }
          ghost var s := S();
          var g := Grow(r, vpn, t, i);
          GrownTrans(old(S()), s, S(), r);
          GrownForTrans(old(S()), s, S(), r, vpn);
          GrownKeys(s, S(), r);
          if g == 0 {
            return 0;
          }
          t := g;
        }
        level := level - 1;
        OnPathIn(S(), r, t, vpn);
      }
      OnPathIn(S(), r, t, vpn);
      MissingStep(mem[..], t, 0, vpn);
    }

    /** The loop body of mappages: one page. */
    method MapPage(r: nat, frame: nat, vpn: nat, perm: nat, ghost own: bool) returns (ok: bool)
      requires Valid() && IsRoot(S(), r) && vpn < MAXVPN && perm < 1024
      requires Lookup(mem[..], r, vpn) == None
      requires own ==> frame in owner && owner[frame] == Held
      modifies this, mem
      ensures Valid()
      ensures ok <==> Missing(old(mem[..]), r, vpn) <= old(|fl|)
      ensures |fl| == old(|fl|) - Min(Missing(old(mem[..]), r, vpn), old(|fl|))
      ensures ok ==> PageMapped(old(S()), S(), r, vpn, frame, perm, own)
      ensures !ok ==> Grown(old(S()), S(), r)
      ensures Missing(old(mem[..]), r, vpn) == 0 ==>
                owner.Keys == old(owner).Keys && forall f :: f in owner && !(own && f == frame) ==>
                    owner[f] == old(owner)[f]
      ensures GrownFor(old(S()), S(), r, vpn) && (ok ==> Missing(mem[..], r, vpn) == 0)
    {
      hide FreeOk, Down, Up, LeafOk, Lookup, Missing, Grown, PageMapped, GrownFor;
      ghost var s0 := S();
      var t := Walk(r, vpn * PGSIZE, true);
      if t == 0 {
        return false;
      }
      ghost var s1 := S();
      EnteredMaps(s0, s1, r, t, vpn, frame, perm, own);
      // "mappages: remap" cannot be reached
      assert !V(mem[t][vpn % 512]);
      PteParts(frame, perm);
      EnterPage(t, vpn, Pte(frame, perm), own);
      MappedWf(s0, S(), r, vpn, frame, perm, own);
      GrownKeys(s0, s1, r);
      EnteredFor(s0, s1, r, t, vpn, Pte(frame, perm), own);
      MappedOnly(s0, S(), r, vpn, frame, perm, own);
      MappedNotMissing(S(), r, vpn);
      ok := true;
    }

    method EnterPage(t: nat, vpn: nat, w: nat, ghost own: bool)
      requires t < mem.Length && t in owner && owner[t].Node?
      modifies this`owner, mem
      ensures S() == Entered(old(S()), t, vpn, w, own)
    {
      StoreEntry(t, vpn % 512, w);
      if own {
        owner := Adopted(S(), t, vpn % 512).owner;
      }
    }

    /** mappages: k pages are mapped, as many as the tables lacking for them can be had, and no frame is
        taken but for those tables. */
    method Mappages(r: nat, pa: nat, va: nat, size: nat, perm: nat) returns (ok: bool, k: nat)
      requires Valid() && IsRoot(S(), r) && perm < 1024
      requires 0 < size && va + size <= MAXVA
      requires forall v :: va / PGSIZE <= v <= (va + size - 1) / PGSIZE ==> Lookup(mem[..], r, v) == None
      modifies this, mem
      ensures Valid()
      ensures k <= (va + size - 1) / PGSIZE - va / PGSIZE + 1
      ensures ok <==> k == (va + size - 1) / PGSIZE - va / PGSIZE + 1
      ensures ok <==>
                TablesFor(old(S()), r, Range(va / PGSIZE, (va + size - 1) / PGSIZE - va / PGSIZE + 1)) <= |old(fl)|
      ensures |fl| == |old(fl)|
              - Min(TablesFor(old(S()), r, Range(va / PGSIZE, (va + size - 1) / PGSIZE - va / PGSIZE + 1)), |old(fl)|)
      ensures TablesFor(old(S()), r, Range(va / PGSIZE, k)) <= |old(fl)|
      ensures !ok ==> TablesFor(old(S()), r, Range(va / PGSIZE, k + 1)) > |old(fl)|
      ensures MapsTo(old(S()), S(), r, va / PGSIZE, k, pa / PGSIZE, perm)
      ensures SameButTables(old(S()), S(), r) && OwnersGrown(old(S()), S(), r)
    {
      hide FreeOk, Down, Up, LeafOk, Lookup, Missing, MapsTo, SameButTables, OwnersGrown, PageMapped, Grown;
      hide GrownFor, TablesFor, Range, RangeCount;
      ghost var s0 := S();
      var a, last, p := va / PGSIZE, (va + size - 1) / PGSIZE, pa;
      k := 0;
      RangeStart(s0, r, a);
      MappedNothing(S(), r, a, pa / PGSIZE, perm);
      while true
        invariant va / PGSIZE <= a == va / PGSIZE + k <= last && p == pa + k * PGSIZE
        invariant Valid() && IsRoot(S(), r)
        invariant forall v :: a <= v <= last ==> Lookup(mem[..], r, v) == None
        invariant MapsTo(old(S()), S(), r, va / PGSIZE, k, pa / PGSIZE, perm)
        invariant SameButTables(old(S()), S(), r) && OwnersGrown(old(S()), S(), r)
        invariant RangeCount(s0, S(), r, va / PGSIZE, k)
        decreases last - a
      {
        ghost var s := S();
        ok := MapPage(r, p / PGSIZE, a, perm, false);
        if !ok {
          RangeFails(s0, s, r, va / PGSIZE, k, last - va / PGSIZE + 1);
          GrownPages(old(S()), s, S(), r, va / PGSIZE, k, pa / PGSIZE, perm);
          return;
        }
        MappedOneMore(old(S()), s, S(), r, va / PGSIZE, k, pa / PGSIZE, perm, last);
        RangeStep(s0, s, S(), r, va / PGSIZE, k);
        k := k + 1;
        RangeOf(s0, S(), r, va / PGSIZE, k);
        if a == last {
          return;
        }
        a := a + 1;
        p := p + PGSIZE;
      }
    }

    /** The loop body of uvmunmap: one page. */
    method UnmapPage(r: nat, vpn: nat, doFree: bool)
      requires Valid() && IsRoot(S(), r) && vpn < MAXVPN
      requires doFree ==> OwnPage(S(), r, vpn)
      modifies this, mem
      ensures Valid() && PagesCleared(old(S()), S(), r, vpn, 1, doFree)
      ensures |fl| == |old(fl)| + if doFree && Lookup(old(mem[..]), r, vpn).Some? then 1 else 0
    {
      hide FreeOk, Down, Up, LeafOk, Lookup, Missing, PagesCleared, PageFreed;
      var t := Walk(r, vpn * PGSIZE, false);
      if t == 0 {
        MissingUnmapped(S(), r, vpn);
        ClearedAlready(S(), r, vpn, doFree);
        return;
      }
      LookupAt(S(), t, vpn);
      var pte := mem[t][vpn % 512];
      if !V(pte) {
        ClearedAlready(S(), r, vpn, doFree);
        return;
      }
      ghost var s := S();
      if doFree {
        FreedPage(s, r, t, vpn, Ppn(pte));
        Kfree(Ppn(pte));
      } else {
        Disown(r, t, vpn);
      }
      ClearedPage(s, S(), r, t, vpn, doFree);
      StoreEntry(t, vpn % 512, 0);
      ClearedWf(s, S(), r, vpn, 1, doFree);
    }

    /** Unmapping without do_free leaves a frame the page owned to the caller. */
    ghost method Disown(r: nat, t: nat, vpn: nat)
      requires Valid() && EntryOf(S(), r, t, vpn)
      modifies this`owner
      ensures Valid() && EntryOf(S(), r, t, vpn) && PageFreed(old(S()), S(), r, vpn, false)
    {
      hide FreeOk, Down, Up, LeafOk, Lookup, Missing, PageFreed;
      var f := Ppn(mem[t][vpn % 512]);
      if f in owner && OwnedBy(owner[f], r, vpn, 1) {
        DisownedPage(S(), r, t, vpn, f);
        owner := owner[f := Held];
      } else {
        OwnsEntry(S(), r, t, vpn);
        KeptPage(S(), r, vpn);
      }
    }

    /** uvmunmap: the pages of the range are gone, and with do_free the frames they own are free; else
        those frames are left to the caller. */
    method Uvmunmap(r: nat, va: nat, sz: nat, doFree: bool)
      requires Valid() && IsRoot(S(), r)
      requires va % PGSIZE == 0 && sz % PGSIZE == 0 && va + sz <= MAXVA
      requires doFree ==> forall v :: va / PGSIZE <= v < (va + sz) / PGSIZE ==> OwnPage(S(), r, v)
      modifies this, mem
      ensures Valid() && PagesCleared(old(S()), S(), r, va / PGSIZE, sz / PGSIZE, doFree)
      ensures |fl| == |old(fl)| + if doFree then |MappedIn(old(S()), r, va / PGSIZE, sz / PGSIZE)| else 0
    {
      hide FreeOk, Down, Up, LeafOk, Lookup, Missing, PagesCleared, OwnPage, OwnNone, MappedIn;
      ghost var s0, k := S(), 0;
      MappedNone(s0, r, va / PGSIZE);
      ClearedRefl(s0, r, va / PGSIZE, doFree);
      var a := va;
      while a < va + sz
        invariant k <= sz / PGSIZE && a == va + k * PGSIZE
        invariant Valid() && IsRoot(S(), r) && PagesCleared(s0, S(), r, va / PGSIZE, k, doFree)
        invariant |fl| == |s0.fl| + if doFree then |MappedIn(s0, r, va / PGSIZE, k)| else 0
      {
        ghost var s := S();
        ClearedNextCount(s0, s, r, va / PGSIZE, k, doFree);
        ClearedNext(s0, s, r, va / PGSIZE, k, doFree);
        UnmapPage(r, a / PGSIZE, doFree);
        ClearedWf(s, S(), r, a / PGSIZE, 1, doFree);
        ClearedTrans(s0, s, S(), r, va / PGSIZE, k, doFree);
        a := a + PGSIZE;
        k := k + 1;
      }
    }

    /** memmove or memset over a frame that holds data. */
    method FillPage(f: nat, p: Page)
      requires Valid() && f in owner && IsData(owner[f])
      modifies mem
      ensures Valid() && S() == Filled(old(S()), f, p)
    {
      FilledCore(S(), f, p);
      StorePage(f, p);
    }

    /** uvmcreate: an empty root, or 0 when memory is full. */
    method Uvmcreate() returns (r: nat)
      requires Valid()
      modifies this, mem
      ensures Valid()
      ensures r == 0 <==> old(fl) == []
      ensures r == 0 ==> S() == old(S())
      ensures r != 0 ==> r == old(fl)[0] && r in old(owner) && old(owner)[r] == Free
      ensures r != 0 ==> S() == Rooted(Popped(old(S())), r) && IsRoot(S(), r) && |fl| == |old(fl)| - 1
      ensures r != 0 ==> forall v :: 0 <= v < MAXVPN ==> Lookup(mem[..], r, v) == None && Missing(mem[..], r, v) == 2
    {
      hide FreeOk, Down, Up, LeafOk, Lookup, Missing;
      r := Kalloc();
      if r == 0 {
        return;
      }
      RootedWf(S(), r);
      RootedEmpty(S(), r);
      owner := owner[r := Node(r, 2, 0, 0)];
    }

    /** uvmcopy: the child gets a copy of every mapped page below sz, or nothing but tables. */
    method Uvmcopy(p: nat, c: nat, sz: nat) returns (ok: bool)
      requires Valid() && sz <= MAXVA && CanCopy(S(), p, c, (sz + PGSIZE - 1) / PGSIZE)
      modifies this, mem
      ensures Valid()
      ensures ok ==> Copied(old(S()), S(), p, c, (sz + PGSIZE - 1) / PGSIZE)
      ensures !ok ==> CopyUndone(old(S()), S(), c)
      ensures ok <==> Needed(old(S()), p, c, (sz + PGSIZE - 1) / PGSIZE) <= |old(fl)|
      ensures ok ==> |fl| == |old(fl)| - Needed(old(S()), p, c, (sz + PGSIZE - 1) / PGSIZE)
      ensures !ok ==> exists n :: StopsAt(old(S()), p, c, n) && |fl| == FreeAfterStop(old(S()), p, c, n)
    {
      hide FreeOk, Down, Up, LeafOk, Lookup, Missing, Copied, CopyUndone, CanCopy, CopyCount, Needed, StopsAt, MappedIn;
      ghost var s0, n := S(), 0;
      CopiedNothing(s0, p, c);
      CanCopyRoots(s0, p, c, (sz + PGSIZE - 1) / PGSIZE);
      CountStart(s0, p, c);
      var i := 0;
      while i < sz
        invariant n <= (sz + PGSIZE - 1) / PGSIZE && i == n * PGSIZE
        invariant Valid() && Copied(s0, S(), p, c, n) && CopyCount(s0, S(), p, c, n)
      {
        ghost var s := S();
        ok := CopyPage(s0, p, c, i / PGSIZE, (sz + PGSIZE - 1) / PGSIZE);
        if !ok {
          CanCopyRoots(s0, p, c, (sz + PGSIZE - 1) / PGSIZE);
          CopiedRoots(s0, S(), p, c, n);
          CopiedOwn(s0, S(), p, c, n);
          CopiedPages(s0, S(), p, c, n);
          CountOf(s0, s, p, c, n);
          ghost var s' := S();
          Uvmunmap(c, 0, i, true);
          assert StopsAt(s0, p, c, n) && |fl| == FreeAfterStop(s0, p, c, n);
          CopyUndo(s0, s', S(), p, c, n, (sz + PGSIZE - 1) / PGSIZE);
          return;
        }
        i := i + PGSIZE;
        n := n + 1;
      }
      CountOf(s0, S(), p, c, n);
      ok := true;
    }

    /** The loop body of uvmcopy: page n. */
    method CopyPage(ghost s0: State, p: nat, c: nat, n: nat, ghost N: nat) returns (ok: bool)
      requires Valid() && CanCopy(s0, p, c, N) && Copied(s0, S(), p, c, n) && n < N && CopyCount(s0, S(), p, c, n)
      modifies this, mem
      ensures Valid() && Copied(s0, S(), p, c, if ok then n + 1 else n)
      ensures if ok then CopyCount(s0, S(), p, c, n + 1) else StopsAt(s0, p, c, n) && Needed(s0, p, c, N) > |s0.fl|
      ensures !ok ==> |fl| == if |old(fl)| > 0 then 1 else 0
    {
      hide FreeOk, Down, Up, LeafOk, Lookup, Missing, Copied, CanCopy, Prepared, PageMapped, Grown, CopyCount, Needed,
          GrownFor;
      CanCopyRoots(s0, p, c, N);
      CopiedRoots(s0, S(), p, c, n);
      ParentKept(s0, S(), p, c, n, N, n);
      var t := Walk(p, n * PGSIZE, false);
      if t == 0 {
        MissingUnmapped(S(), p, n);
        CopySkip(s0, S(), p, c, n, N);
        CountSkip(s0, S(), p, c, n);
        return true;
      }
      LookupAt(S(), t, n);
      var pte := mem[t][n % 512];
      if !V(pte) {
        CopySkip(s0, S(), p, c, n, N);
        CountSkip(s0, S(), p, c, n);
        return true;
      }
      ghost var s := S();
      var g := Kalloc();
      if g == 0 {
        CountFails(s0, s, p, c, n, N);
        return false;
      }
      var page := mem[Ppn(pte)];
      PreparedIs(s, page);
      PreparedMissing(s, page, c);
      FillPage(g, page);
      ghost var s2 := S();
      CopyReady(s0, s, s2, p, c, n, N, g, page);
      ok := MapPage(c, g, n, Flags(pte), true);
      if ok {
        CopyStep(s0, s, s2, S(), p, c, n, N, g, pte);
        CountStep(s0, s, s2, S(), p, c, n);
      } else {
        CountFails(s0, s, p, c, n, N);
        CopyFail(s0, s, s2, S(), p, c, n, N, g, page);
        Kfree(g);
      }
    }

    /** freewalk below the root: the table t and all tables below it are freed, each once. */
    method Freewalk(t: nat)
      requires CoreValid() && t in owner && owner[t].Dying? && owner[t].cut == 0
      requires NoLeaves(S(), owner[t].root)
      modifies this, mem
      ensures CoreValid() && TreeFreed(old(S()), S(), t)
      decreases owner[t].level
    {
      hide FreeOk, Down, Up, LeafOk, NoLeaves, Torn, TreeFreed;
      ghost var s0 := S();
      NothingTorn(s0, t);
      var i := 0;
      while i < 512
        invariant i <= 512 && CoreValid() && Torn(s0, S(), t, i)
      {
        TornDom(s0, S(), t, i);
        var pte := mem[t][i];
        if V(pte) && !R(pte) && !W(pte) && !X(pte) {
          FreeChild(s0, t, i);
        } else {
          NotALeaf(s0, S(), t, i);
          // "freewalk: leaf" cannot be reached
          assert !V(pte);
          PassedCore(S(), t);
          PassedTorn(s0, S(), t, i);
          owner := Passed(S(), t).owner;
        }
        i := i + 1;
      }
      TornDone(s0, S(), t);
      Kfree(t);
    }

    /** The branch of freewalk that meets a table. */
    method FreeChild(ghost s0: State, t: nat, i: nat)
      requires CoreValid() && Core(s0) && i < 512 && Torn(s0, S(), t, i)
      requires NoLeaves(s0, s0.owner[t].root)
      requires t < mem.Length && V(mem[t][i])
      modifies this, mem
      ensures CoreValid() && Torn(s0, S(), t, i + 1)
      decreases s0.owner[t].level, 0
    {
      hide FreeOk, Down, Up, LeafOk, NoLeaves, Torn, TreeFreed;
      var child := Ppn(mem[t][i]);
      ghost var s := S();
      EnterReady(s0, s, t, i);
      EnteringCore(s, t, child);
      owner := Entering(s, t, child).owner;
      assert S() == Entering(s, t, child);
      Freewalk(child);
      ChildTorn(s0, s, S(), t, i, child);
      TornDom(s0, Stored(S(), t, i, 0), t, i + 1);
      ErasedCore(S(), t, i);
      StoreEntry(t, i, 0);
    }

    /** freewalk on the root of an address space without mappings. */
    method FreeTree(r: nat)
      requires Valid() && IsRoot(S(), r)
      requires forall v :: 0 <= v < MAXVPN ==> Lookup(mem[..], r, v) == None
      modifies this, mem
      ensures Valid() && TreeGone(old(S()), S(), r)
    {
      hide FreeOk, Down, Up, LeafOk, NoLeaves, TreeFreed, TreeGone, Lookup, Missing;
      DoomedCore(S(), r);
      owner := Doomed(S(), r).owner;
      Freewalk(r);
      GoneTree(old(S()), S(), r);
      GoneWf(old(S()), S(), r);
    }

    /** walkaddr: the frame of a user page, 0 if the page is not a user page. */
    method Walkaddr(r: nat, va: nat) returns (f: nat)
      requires Valid() && IsRoot(S(), r)
      modifies this, mem
      ensures Valid() && S() == old(S()) && f == UserFrame(S(), r, va / PGSIZE)
    {
      hide FreeOk, Down, Up, LeafOk, Lookup, Missing;
      if va >= MAXVA {
        return 0;
      }
      var t := Walk(r, va, false);
      if t == 0 {
        MissingUnmapped(S(), r, va / PGSIZE);
        return 0;
      }
      LookupAt(S(), t, va / PGSIZE);
      var pte := mem[t][va / PGSIZE % 512];
      if !V(pte) || !U(pte) {
        return 0;
      }
      f := Ppn(pte);
    }

    /** copyin: the bytes before the first address that is not the user's, all len of them on success. */
    method Copyin(r: nat, srcva: nat, len: nat) returns (ok: bool, got: seq<Byte>)
      requires Valid() && IsRoot(S(), r) && UserOwned(S(), r)
      modifies this, mem
      ensures Valid() && S() == old(S())
      ensures |got| <= len && Reads(S(), r, srcva, got)
      ensures ok <==> |got| == len
      ensures !ok ==> UByte(S(), r, srcva + |got|) == None
    {
      hide FreeOk, Down, Up, LeafOk, Lookup, Missing, UserOwned, Reads, UserFrame, Bytes;
      got := [];
      ReadsNothing(S(), r, srcva);
      var va: nat, left: nat := srcva, len;
      while left > 0
        invariant left + |got| == len && (left > 0 ==> va == srcva + |got|)
        invariant Valid() && S() == old(S()) && Reads(S(), r, srcva, got)
      {
        var f := Walkaddr(r, va);
        if f == 0 {
          return false, got;
        }
        OwnedFrame(S(), r, va / PGSIZE);
        var n := if PGSIZE - va % PGSIZE > left then left else PGSIZE - va % PGSIZE;
        PageSlice(S(), r, va, n);
        var chunk := Bytes(mem[f])[va % PGSIZE..va % PGSIZE + n];
        ReadsAppend(S(), r, srcva, got, chunk);
        got := got + chunk;
        left := left - n;
        va := va / PGSIZE * PGSIZE + PGSIZE;
      }
      ok := true;
    }

    /** copyout: the bytes before the first address that may not be written, all of src on success. */
    method Copyout(r: nat, dstva: nat, src: seq<Byte>) returns (ok: bool, ghost n: nat)
      requires Valid() && IsRoot(S(), r) && UserOwned(S(), r)
      modifies this, mem
      ensures Valid() && OnlyLeaves(old(S()), S(), r)
      ensures n <= |src| && Wrote(old(S()), S(), r, dstva, src[..n])
      ensures ok <==> n == |src|
      ensures forall k :: dstva <= k < dstva + n ==> Writable(old(S()), r, k / PGSIZE)
      ensures !ok ==> !Writable(old(S()), r, (dstva + n) / PGSIZE)
    {
      hide FreeOk, Down, Up, LeafOk, Lookup, Missing, UserOwned, UserFrame, Writable, OnlyLeaves, Wrote;
      ghost var s0 := S();
      WroteNothing(s0, r, dstva);
      var va, done := dstva, 0;
      n := 0;
      while done < |src|
        invariant n == done <= |src| && (n < |src| ==> va == dstva + n)
        invariant Valid() && OnlyLeaves(s0, S(), r) && Wrote(s0, S(), r, dstva, src[..n])
        invariant forall k :: dstva <= k < dstva + n ==> Writable(s0, r, k / PGSIZE)
      {
        ghost var s := S();
        LeavesRoot(s0, s, r, va / PGSIZE);
        if va / PGSIZE * PGSIZE >= MAXVA {
          NotUser(s, r, va / PGSIZE);
          return false, n;
        }
        var f := Walkaddr(r, va);
        if f == 0 {
          NotUser(s, r, va / PGSIZE);
          return false, n;
        }
        MissingUser(s, r, va / PGSIZE);
        var t := Walk(r, va, false);
        LookupAt(s, t, va / PGSIZE);
        EntryWritable(s, r, va / PGSIZE, mem[t][va / PGSIZE % 512]);
        if !W(mem[t][va / PGSIZE % 512]) {
          return false, n;
        }
        var m := if PGSIZE - va % PGSIZE > |src| - done then |src| - done else PGSIZE - va % PGSIZE;
        WriteChunk(r, va, f, src[done..done + m]);
        WroteMore(s0, s, S(), r, dstva, src[..n], src[n..n + m]);
        assert src[..n] + src[n..n + m] == src[..n + m];
        RunInPage(va, m);
        n := n + m;
        done := done + m;
        va := va / PGSIZE * PGSIZE + PGSIZE;
      }
      assert src[..n] == src;
      ok := true;
    }

    /** memmove of one chunk, within a user page. */
    method WriteChunk(r: nat, va: nat, f: nat, b: seq<Byte>)
      requires Valid() && IsRoot(S(), r) && UserOwned(S(), r)
      requires f != 0 && f == UserFrame(S(), r, va / PGSIZE) && va % PGSIZE + |b| <= PGSIZE
      modifies mem
      ensures Valid() && OnlyLeaves(old(S()), S(), r) && Wrote(old(S()), S(), r, va, b)
    {
      hide FreeOk, Down, Up, LeafOk, Lookup, Missing, UserOwned, UserFrame, OnlyLeaves, Wrote, Bytes, FromBytes, Splice;
      OwnedFrame(S(), r, va / PGSIZE);
      PokedWrote(S(), r, va, b);
      PokedLeaves(S(), r, f, va % PGSIZE, b);
      FillPage(f, FromBytes(Splice(Bytes(mem[f]), va % PGSIZE, b)));
    }

    /** copyinstr: the string at srcva, if its NUL comes within max bytes of readable memory. */
    method Copyinstr(r: nat, srcva: nat, max: nat) returns (ok: bool, str: seq<Byte>)
      requires Valid() && IsRoot(S(), r) && UserOwned(S(), r)
      modifies this, mem
      ensures Valid() && S() == old(S())
      ensures Reads(S(), r, srcva, str) && 0 !in str && |str| <= max
      ensures ok ==> |str| < max && UByte(S(), r, srcva + |str|) == Some(0)
      ensures !ok ==> |str| == max || UByte(S(), r, srcva + |str|) == None
    {
      hide FreeOk, Down, Up, LeafOk, Lookup, Missing, UserOwned, Reads, UserFrame, Bytes;
      str := [];
      ReadsNothing(S(), r, srcva);
      var va: nat, left: nat := srcva, max;
      while left > 0
        invariant left + |str| == max && 0 !in str && (left > 0 ==> va == srcva + |str|)
        invariant Valid() && S() == old(S()) && Reads(S(), r, srcva, str)
      {
        var f := Walkaddr(r, va);
        if f == 0 {
          return false, str;
        }
        OwnedFrame(S(), r, va / PGSIZE);
        var p := va % PGSIZE;
        var n := if PGSIZE - p > left then left else PGSIZE - p;
        ghost var stop := p + n;
        while n > 0
          invariant p + n == stop <= PGSIZE && va - va % PGSIZE + p == srcva + |str|
          invariant 0 <= n <= left && left + |str| == max && 0 !in str && va % PGSIZE <= p
          invariant Valid() && S() == old(S()) && Reads(S(), r, srcva, str)
          invariant stop == PGSIZE || n == left
        {
          PageByte(S(), r, va, p - va % PGSIZE);
          var c := Bytes(mem[f])[p];
          if c == 0 {
            return true, str;
          }
          ReadsOneMore(S(), r, srcva, str, c);
          str := str + [c];
          p := p + 1;
          n := n - 1;
          left := left - 1;
        }
        assert va / PGSIZE * PGSIZE == va - va % PGSIZE;
        va := va / PGSIZE * PGSIZE + PGSIZE;
      }
      ok := false;
    }

    /** A frame the caller holds becomes the trapframe of a slot. */
    ghost method Claim(f: nat, slot: nat)
      requires f in owner
      modifies this`owner
      ensures owner == old(owner)[f := Trapframe(slot)]
    {
      owner := owner[f := Trapframe(slot)];
    }
  }
}
