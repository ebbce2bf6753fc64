/** Any run of calls on any number of page tables: the tables in memory refine finite maps from page
    to entry, and every frame keeps one role. */
module AddressSpaces {
  import opened Words
  import opened PageTables
  import opened Translation
  import opened Changes
  import opened Fork
  import opened Places
  import opened Teardown
  import opened Sv39
  import opened Space
  import opened ProcessMemory
  import opened PhysicalMemory

  /** A mapped page: its entry, and whether the page owns the frame. */
  datatype Entry = Entry(pte: nat, owned: bool)

  /** What the callers know: the root and the map of every space, and the frames they hold. */
  datatype World = World(roots: seq<nat>, maps: seq<map<nat, Entry>>, held: set<nat>)

  /** uvmcreate, mappages, mappages of one held frame, uvmunmap, uvmcopy, walk, freewalk, kalloc, kfree. */
  datatype Call =
    | Create
    | Map(i: nat, pa: nat, va: nat, size: nat, perm: nat)
    | Give(i: nat, f: nat, vpn: nat, perm: nat)
    | Unmap(i: nat, va: nat, sz: nat, doFree: bool)
    | Copy(i: nat, j: nat, sz: nat)
    | Walk(i: nat, va: nat, alloc: bool)
    | Destroy(i: nat)
    | Alloc
    | Free(f: nat)

  /** What a call gives back: the frame handed out or 0; how many pages mappages mapped; 1 for success;
      the valid entry that walk found; and the entries that uvmcopy made in the child. */
  datatype Out = Out(n: nat, entry: Option<nat>, pages: map<nat, nat>)

  /** The outcome of a call that gives a number only. */
  function Number(n: nat): Out { Out(n, None, map[]) }

  /** How many pages mappages is asked for. */
  function Asked(va: nat, size: nat): nat
    requires size > 0
  {
    (va + size - 1) / PGSIZE - va / PGSIZE + 1
  }

  /** What the source demands of its callers; what it panics on is not legal. Only frames that a page
      owns may be given back with it, and only such pages are copied. */
  predicate Legal(w: World, c: Call) {
    match c
    case Map(i, pa, va, size, perm) =>
      && i < |w.roots| == |w.maps| && perm < 1024 && 0 < size && va + size <= MAXVA
      && forall v :: va / PGSIZE <= v < (va + size - 1) / PGSIZE + 1 ==> v !in w.maps[i]
    case Give(i, f, vpn, perm) =>
      i < |w.roots| == |w.maps| && f in w.held && vpn < MAXVPN && vpn !in w.maps[i] && perm < 1024
    case Unmap(i, va, sz, doFree) =>
      && i < |w.roots| == |w.maps| && va % PGSIZE == 0 && sz % PGSIZE == 0 && va + sz <= MAXVA
      && (doFree ==> forall v :: v in w.maps[i] && va / PGSIZE <= v < va / PGSIZE + sz / PGSIZE ==> w.maps[i][v].owned)
    case Copy(i, j, sz) =>
      && i < |w.roots| == |w.maps| && j < |w.roots| && i != j && sz <= MAXVA
      && (forall v :: v in w.maps[i] && v < Pages(sz) ==> w.maps[i][v].owned)
      && forall v :: v in w.maps[j] ==> v >= Pages(sz)
    case Walk(i, va, _) => i < |w.roots| && va < MAXVA
    case Destroy(i) => i < |w.roots| == |w.maps| && w.maps[i] == map[]
    case Free(f) => f in w.held
    case _ => true
  }

  function Nth(v0: nat, frame: nat, perm: nat, v: nat): Entry
    requires v0 <= v
  {
    Entry(Pte(frame + (v - v0), perm), false)
  }

  function Insert(m: map<nat, Entry>, v0: nat, frame: nat, k: nat, perm: nat): map<nat, Entry> {
    m + map v: nat | v0 <= v < v0 + k :: Nth(v0, frame, perm, v)
  }

  function Grant(m: map<nat, Entry>, vpn: nat, f: nat, perm: nat): map<nat, Entry> {
    m + map[vpn := Entry(Pte(f, perm), true)]
  }

  function Delete(m: map<nat, Entry>, v0: nat, k: nat): map<nat, Entry> {
    map v: nat | v in m && !(v0 <= v < v0 + k) :: m[v]
  }

  function Owning(pages: map<nat, nat>): map<nat, Entry> {
    map v: nat | v in pages :: Entry(pages[v], true)
  }

  /** The frames that the unmapped pages owned. */
  function Owned(m: map<nat, Entry>, v0: nat, k: nat): set<nat> {
    set v: nat | v in m && v0 <= v < v0 + k && m[v].owned :: Ppn(m[v].pte)
  }

  /** The effect of a call on the maps and on the frames held. */
  function Effect(w: World, c: Call, out: Out): World
    requires Legal(w, c)
  {
    match c
    case Create => if out.n == 0 then w else World(w.roots + [out.n], w.maps + [map[]], w.held)
    case Map(i, pa, va, _, perm) =>
      World(w.roots, w.maps[i := Insert(w.maps[i], va / PGSIZE, pa / PGSIZE, out.n, perm)], w.held)
    case Give(i, f, vpn, perm) =>
      if out.n == 0 then w
      else World(w.roots, w.maps[i := Grant(w.maps[i], vpn, f, perm)], w.held - {f})
    case Unmap(i, va, sz, doFree) =>
      World(w.roots, w.maps[i := Delete(w.maps[i], va / PGSIZE, sz / PGSIZE)],
            if doFree then w.held else w.held + Owned(w.maps[i], va / PGSIZE, sz / PGSIZE))
    case Copy(_, j, _) =>
      if out.n == 0 then w else World(w.roots, w.maps[j := w.maps[j] + Owning(out.pages)], w.held)
    case Walk(_, _, _) => w
    case Destroy(i) => World(w.roots[..i] + w.roots[i + 1..], w.maps[..i] + w.maps[i + 1..], w.held)
    case Alloc => if out.n == 0 then w else World(w.roots, w.maps, w.held + {out.n})
    case Free(f) => World(w.roots, w.maps, w.held - {f})
  }

  /** What is handed out was free before; a call does as much as asked for exactly when the frames it needs
      are free, and mappages as much as there are tables for; walk finds what the map says. */
  ghost predicate Handed(s: State, w: World, c: Call, out: Out)
    requires Legal(w, c)
  {
    match c
    case Create => (out.n == 0 <==> s.fl == []) && (out.n != 0 ==> out.n in s.fl)
    case Alloc => (out.n == 0 <==> s.fl == []) && (out.n != 0 ==> out.n in s.fl)
    case Map(i, _, va, size, _) => MapHanded(s, w.roots[i], va / PGSIZE, Asked(va, size), out.n)
    case Give(i, _, vpn, _) => out.n <= 1 && (out.n == 1 <==> Missing(s.mem, w.roots[i], vpn) <= |s.fl|)
    case Copy(i, j, sz) =>
      && out.n <= 1 && (out.n == 1 <==> Needed(s, w.roots[i], w.roots[j], Pages(sz)) <= |s.fl|)
      && (out.n == 1 ==> i < |w.maps| && CopyHanded(s, w.maps[i], Pages(sz), out.pages))
    case Walk(i, va, alloc) =>
      && out.n <= 1 && i < |w.maps| && out.entry == EntryAt(w.maps[i], va / PGSIZE)
      && (out.n == 1 <==> Missing(s.mem, w.roots[i], va / PGSIZE) <= if alloc then |s.fl| else 0)
    case _ => out.n == 0
  }

  /** k of the pages asked for, from v0 on, are mapped: as many as there are frames for the tables lacking
      for them. */
  ghost predicate MapHanded(s: State, r: nat, v0: nat, asked: nat, k: nat) {
    && k <= asked && TablesFor(s, r, Range(v0, k)) <= |s.fl|
    && (k < asked ==> TablesFor(s, r, Range(v0, k + 1)) > |s.fl|)
  }

  /** The free frames before and after a call: what was taken was needed, and what can be given back is. */
  ghost predicate Balance(s: State, s': State, w: World, c: Call, out: Out)
    requires Legal(w, c)
  {
    match c
    case Create => |s'.fl| == |s.fl| - if out.n == 0 then 0 else 1
    case Alloc => |s'.fl| == |s.fl| - if out.n == 0 then 0 else 1
    case Map(i, _, va, size, _) =>
      |s'.fl| == |s.fl| - Min(TablesFor(s, w.roots[i], Range(va / PGSIZE, Asked(va, size))), |s.fl|)
    case Give(i, _, vpn, _) => |s'.fl| == |s.fl| - Min(Missing(s.mem, w.roots[i], vpn), |s.fl|)
    case Unmap(i, va, sz, doFree) =>
      |s'.fl| == |s.fl| + if doFree then |MappedIn(s, w.roots[i], va / PGSIZE, sz / PGSIZE)| else 0
    case Copy(i, j, sz) =>
      if out.n == 1 then |s'.fl| == |s.fl| - Needed(s, w.roots[i], w.roots[j], Pages(sz))
      else
        exists n :: StopsAt(s, w.roots[i], w.roots[j], n) && |s'.fl| == FreeAfterStop(s, w.roots[i], w.roots[j], n)
    case Walk(i, va, alloc) =>
      |s'.fl| == |s.fl| - if alloc then Min(Missing(s.mem, w.roots[i], va / PGSIZE), |s.fl|) else 0
    case Destroy(i) => |s'.fl| == |s.fl| + |TablesOf(s, w.roots[i])|
    case Free(_) => |s'.fl| == |s.fl| + 1
  }

  /** The child's pages are the parent's, with the same flags, each in a frame of its own that was
      free. */
  ghost predicate CopyHanded(s: State, m: map<nat, Entry>, n: nat, pages: map<nat, nat>) {
    && (forall v :: v in pages <==> v in m && v < n)
    && (forall v :: v in pages && v in m ==> Flags(pages[v]) == Flags(m[v].pte) && Ppn(pages[v]) in s.fl)
    && (forall v, u :: v in pages && u in pages && Ppn(pages[v]) == Ppn(pages[u]) ==> v == u)
  }

  // ------------------------------------------------------------ refinement

  function EntryAt(m: map<nat, Entry>, v: nat): Option<nat> { if v in m then Some(m[v].pte) else None }

  /** The owned frames of a space are exactly those of its pages that own their frame. */
  ghost predicate OwnsAsSaid(s: State, r: nat, m: map<nat, Entry>) {
    && (forall f :: f in s.owner && s.owner[f].Leaf? && s.owner[f].root == r ==>
          s.owner[f].vpn in m && m[s.owner[f].vpn].owned)
    && (forall v :: v in m && m[v].owned ==> Ppn(m[v].pte) in s.owner && OwnedBy(s.owner[Ppn(m[v].pte)], r, v, 1))
  }

  /** The tree at r translates as the map says, for every page. */
  ghost predicate Refines(s: State, r: nat, m: map<nat, Entry>) {
    && IsRoot(s, r) && (forall v :: v in m ==> v < MAXVPN)
    && (forall v :: 0 <= v < MAXVPN ==> Lookup(s.mem, r, v) == EntryAt(m, v))
    && OwnsAsSaid(s, r, m)
  }

  /** The spaces are all there are, and the frames held are exactly those said to be. */
  ghost predicate Fits(s: State, w: World) {
    && |w.roots| == |w.maps|
    && (forall i, j :: 0 <= i < j < |w.roots| ==> w.roots[i] != w.roots[j])
    && (forall i :: 0 <= i < |w.roots| ==> Refines(s, w.roots[i], w.maps[i]))
    && Exactly(s, w.roots, w.held)
  }

  ghost predicate Exactly(s: State, roots: seq<nat>, held: set<nat>) {
    && (forall r :: IsRoot(s, r) ==> r in roots)
    && (forall f :: f in held <==> f in s.owner && s.owner[f] == Held)
    && (forall f :: f in s.owner ==> !s.owner[f].Trapframe?)
  }

  // ------------------------------------------------- what a call leaves alone

  /** The frames in x are no part of space q, before or after. */
  ghost predicate Outside(s: State, s': State, q: nat, x: set<nat>) {
    forall f :: f in x && f in s.owner && f in s'.owner ==>
        !s.owner[f].Node? && !InSpace(s.owner[f], q) && !InSpace(s'.owner[f], q)
  }

  lemma OtherRefines(s: State, s': State, r: nat, x: set<nat>, q: nat, m: map<nat, Entry>)
    requires Wf(s) && Local(s, s', r, x) && q != r && Outside(s, s', q, x) && Refines(s, q, m)
    ensures Refines(s', q, m)
  {
    hide Wf, Lookup, Missing;
    LocalLookup(s, s', r, x, q);
    assert forall v :: 0 <= v < MAXVPN ==> Lookup(s'.mem, q, v) == EntryAt(m, v);
    OtherOwns(s, s', r, x, q, m);
  }

  lemma OtherOwns(s: State, s': State, r: nat, x: set<nat>, q: nat, m: map<nat, Entry>)
    requires Local(s, s', r, x) && q != r && Outside(s, s', q, x) && OwnsAsSaid(s, q, m)
    ensures OwnsAsSaid(s', q, m)
  {
  }

  /** A call on space r, or on no space: the other spaces stay. */
  lemma OthersFit(s: State, s': State, w: World, r: nat, x: set<nat>)
    requires Wf(s) && Fits(s, w) && Local(s, s', r, x) && forall q :: q in w.roots && q != r ==> Outside(s, s', q, x)
    ensures forall i :: 0 <= i < |w.roots| && w.roots[i] != r ==> Refines(s', w.roots[i], w.maps[i])
  {
    hide Wf, Refines, Outside, Exactly;
    forall i | 0 <= i < |w.roots| && w.roots[i] != r
      ensures Refines(s', w.roots[i], w.maps[i])
    {
      OtherRefines(s, s', r, x, w.roots[i], w.maps[i]);
    }
  }

  /** Of the frames in x, exactly those in held are held afterwards, and none is a table. */
  ghost predicate Settled(s': State, x: set<nat>, held: set<nat>) {
    forall f :: f in x && f in s'.owner ==>
      !s'.owner[f].Trapframe? && !s'.owner[f].Node? && (s'.owner[f] == Held <==> f in held)
  }

  /** Roots and held frames other than r and x are the same ones. */
  lemma StillExactly(s: State, s': State, roots: seq<nat>, held: set<nat>, r: nat, x: set<nat>, held': set<nat>)
    requires Exactly(s, roots, held) && Local(s, s', r, x) && Wf(s') && Settled(s', x, held')
    requires forall f :: f in s.owner && f !in x ==> (f in held <==> f in held')
    requires held' <= s.owner.Keys
    ensures forall q :: IsRoot(s', q) && q != r ==> q in roots
    ensures r in roots || !IsRoot(s', r) ==> Exactly(s', roots, held')
    ensures Exactly(s', roots + [r], held')
  {
    hide FreeOk, Down, LeafOk;
    forall q | IsRoot(s', q) && q != r
      ensures q in roots
    {
      assert UpAt(s', q);
      assert IsRoot(s, q);
    }
  }

  /** Space i was changed and refines its new map; the rest is as it was. */
  lemma OneChanged(s: State, s': State, w: World, i: nat, m: map<nat, Entry>, held: set<nat>, x: set<nat>)
    requires Wf(s) && Fits(s, w) && i < |w.roots| && Local(s, s', w.roots[i], x) && Wf(s')
    requires Refines(s', w.roots[i], m) && Settled(s', x, held) && held <= s.owner.Keys
    requires forall f :: f in s.owner && f !in x ==> (f in w.held <==> f in held)
    requires forall q :: q in w.roots && q != w.roots[i] ==> Outside(s, s', q, x)
    ensures Fits(s', World(w.roots, w.maps[i := m], held))
  {
    OthersFit(s, s', w, w.roots[i], x);
    StillExactly(s, s', w.roots, w.held, w.roots[i], x, held);
    hide Wf, Refines, Outside, Local, Exactly, Settled;
  }

  lemma HeldKeys(s: State, w: World)
    requires Fits(s, w)
    ensures w.held <= s.owner.Keys && Settled(s, {}, w.held)
  {
    hide Refines;
  }

  // ---------------------------------------------------------- call by call

  lemma MapsLocal(s: State, s': State, r: nat)
    requires SameButTables(s, s', r) && OwnersGrown(s, s', r)
    ensures Local(s, s', r, {})
  {
  }

  lemma MapFits(s: State, s': State, w: World, i: nat, v0: nat, k: nat, frame: nat, perm: nat)
    requires Wf(s) && Fits(s, w) && i < |w.roots| && v0 + k <= MAXVPN
    requires SameButTables(s, s', w.roots[i]) && OwnersGrown(s, s', w.roots[i])
    requires MapsTo(s, s', w.roots[i], v0, k, frame, perm)
    requires Wf(s') && forall v :: v0 <= v < v0 + k ==> v !in w.maps[i]
    ensures Fits(s', World(w.roots, w.maps[i := Insert(w.maps[i], v0, frame, k, perm)], w.held))
  {
    hide Wf, Lookup;
    MapsLocal(s, s', w.roots[i]);
    var r, m, m' := w.roots[i], w.maps[i], Insert(w.maps[i], v0, frame, k, perm);
    assert IsRoot(s, r) && Refines(s, r, m);
    forall v | 0 <= v < MAXVPN
      ensures Lookup(s'.mem, r, v) == EntryAt(m', v)
    {
      assert Lookup(s.mem, r, v) == EntryAt(m, v);
    }
    MapOwns(s, s', r, m, v0, k, frame, perm);
    HeldKeys(s, w);
    hide Local, SameButTables, OwnersGrown, MapsTo, Exactly, OwnsAsSaid;
    OneChanged(s, s', w, i, m', w.held, {});
  }

  lemma MapOwns(s: State, s': State, r: nat, m: map<nat, Entry>, v0: nat, k: nat, frame: nat, perm: nat)
    requires OwnsAsSaid(s, r, m) && OwnersGrown(s, s', r) && s'.owner.Keys == s.owner.Keys
    requires forall v :: v0 <= v < v0 + k ==> v !in m
    ensures OwnsAsSaid(s', r, Insert(m, v0, frame, k, perm))
  {
  }

  lemma GiveFits(s: State, s': State, w: World, i: nat, f: nat, vpn: nat, perm: nat)
    requires Wf(s) && Fits(s, w) && i < |w.roots| && f in w.held && vpn < MAXVPN && vpn !in w.maps[i] && perm < 1024
    requires PageMapped(s, s', w.roots[i], vpn, f, perm, true)
    ensures Fits(s', World(w.roots, w.maps[i := Grant(w.maps[i], vpn, f, perm)], w.held - {f}))
  {
    hide Wf, Refines, PageMapped;
    MappedLocal(s, s', w.roots[i], vpn, f, perm, true);
    GivenOutside(s, s', w.roots[i], f, vpn, perm);
    GiveRefines(s, s', w.roots[i], w.maps[i], f, vpn, perm);
    MappedWf(s, s', w.roots[i], vpn, f, perm, true);
    HeldKeys(s, w);
    GivenSettled(s, s', w.roots[i], f, vpn, perm, w.held - {f});
    OneChanged(s, s', w, i, Grant(w.maps[i], vpn, f, perm), w.held - {f}, {f});
  }

  lemma GiveRefines(s: State, s': State, r: nat, m: map<nat, Entry>, f: nat, vpn: nat, perm: nat)
    requires Refines(s, r, m) && vpn < MAXVPN && vpn !in m && perm < 1024 && PageMapped(s, s', r, vpn, f, perm, true)
    ensures Refines(s', r, Grant(m, vpn, f, perm))
  {
    hide Wf, Lookup, OwnsAsSaid, PageMapped, Pte;
    MappedOnly(s, s', r, vpn, f, perm, true);
    MappedWf(s, s', r, vpn, f, perm, true);
    GiveOwns(s, s', r, m, f, vpn, perm);
    forall v | 0 <= v < MAXVPN
      ensures Lookup(s'.mem, r, v) == EntryAt(Grant(m, vpn, f, perm), v)
    {
      assert Lookup(s.mem, r, v) == EntryAt(m, v);
    }
  }

  lemma GivenSettled(s: State, s': State, r: nat, f: nat, vpn: nat, perm: nat, held: set<nat>)
    requires PageMapped(s, s', r, vpn, f, perm, true) && f !in held
    ensures Settled(s', {f}, held)
  {
    hide Wf, MapsTo, SameButTables;
  }

  lemma GivenOutside(s: State, s': State, r: nat, f: nat, vpn: nat, perm: nat)
    requires PageMapped(s, s', r, vpn, f, perm, true)
    ensures forall q :: q != r ==> Outside(s, s', q, {f})
  {
    hide Wf, MapsTo, SameButTables;
  }

  lemma GiveOwns(s: State, s': State, r: nat, m: map<nat, Entry>, f: nat, vpn: nat, perm: nat)
    requires OwnsAsSaid(s, r, m) && PageMapped(s, s', r, vpn, f, perm, true) && vpn !in m && perm < 1024
    ensures OwnsAsSaid(s', r, Grant(m, vpn, f, perm))
  {
    hide Wf, MapsTo;
    PteParts(f, perm);
  }

  /** The frames that uvmunmap leaves to the caller. */
  ghost function Lost(s: State, r: nat, v0: nat, k: nat): set<nat> {
    set f | f in s.owner && OwnedBy(s.owner[f], r, v0, k)
  }

  lemma LostLocal(s: State, s': State, r: nat, v0: nat, k: nat, held: set<nat>)
    requires PagesCleared(s, s', r, v0, k, false)
    ensures Local(s, s', r, Lost(s, r, v0, k)) && forall q :: q != r ==> Outside(s, s', q, Lost(s, r, v0, k))
    ensures Settled(s', Lost(s, r, v0, k), held + Lost(s, r, v0, k))
  {
    hide Wf, MapsNone;
  }

  lemma LostOwned(s: State, r: nat, m: map<nat, Entry>, v0: nat, k: nat)
    requires Wf(s) && Refines(s, r, m)
    ensures Lost(s, r, v0, k) == Owned(m, v0, k)
  {
    hide Wf, Lookup, Missing;
    forall f | f in Lost(s, r, v0, k)
      ensures f in Owned(m, v0, k)
    {
      OwnedMapped(s, f);
      assert Lookup(s.mem, r, s.owner[f].vpn) == EntryAt(m, s.owner[f].vpn);
    }
  }

  lemma UnmapRefines(s: State, s': State, r: nat, m: map<nat, Entry>, v0: nat, k: nat, doFree: bool)
    requires Refines(s, r, m) && PagesCleared(s, s', r, v0, k, doFree)
    ensures Refines(s', r, Delete(m, v0, k))
  {
    ClearedWf(s, s', r, v0, k, doFree);
    UnmapOwns(s, s', r, m, v0, k, doFree);
    hide Wf, Lookup, Missing, OwnsAsSaid;
    forall v | 0 <= v < MAXVPN
      ensures Lookup(s'.mem, r, v) == EntryAt(Delete(m, v0, k), v)
    {
      assert Lookup(s.mem, r, v) == EntryAt(m, v);
    }
  }

  lemma UnmapFits(s: State, s': State, w: World, i: nat, v0: nat, k: nat, doFree: bool)
    requires Wf(s) && Fits(s, w) && i < |w.roots| && PagesCleared(s, s', w.roots[i], v0, k, doFree)
    ensures Fits(s', World(w.roots, w.maps[i := Delete(w.maps[i], v0, k)],
                           if doFree then w.held else w.held + Owned(w.maps[i], v0, k)))
  {
    var r, m := w.roots[i], w.maps[i];
    ClearedWf(s, s', r, v0, k, doFree);
    hide Wf, Refines, PagesCleared, Exactly, Local, Outside, Settled;
    UnmapRefines(s, s', r, m, v0, k, doFree);
    HeldKeys(s, w);
    if doFree {
      ClearedLocal(s, s', r, v0, k, true);
      NoneSettled(s, s', w.held);
      OneChanged(s, s', w, i, Delete(m, v0, k), w.held, {});
    } else {
      LostLocal(s, s', r, v0, k, w.held);
      LostOwned(s, r, m, v0, k);
      OneChanged(s, s', w, i, Delete(m, v0, k), w.held + Lost(s, r, v0, k), Lost(s, r, v0, k));
    }
  }

  lemma NoneSettled(s: State, s': State, held: set<nat>)
    ensures Settled(s', {}, held) && forall q :: Outside(s, s', q, {})
  {
  }

  lemma UnmapOwns(s: State, s': State, r: nat, m: map<nat, Entry>, v0: nat, k: nat, doFree: bool)
    requires OwnsAsSaid(s, r, m) && PagesCleared(s, s', r, v0, k, doFree)
    ensures OwnsAsSaid(s', r, Delete(m, v0, k))
  {
    hide Wf, Lookup, MapsNone;
  }

  /** What uvmunmap asks for follows from the map. */
  lemma UnmapReady(s: State, r: nat, m: map<nat, Entry>, v0: nat, k: nat, doFree: bool)
    requires Refines(s, r, m) && v0 + k <= MAXVPN
    requires doFree ==> forall v :: v in m && v0 <= v < v0 + k ==> m[v].owned
    ensures doFree ==> forall v :: v0 <= v < v0 + k ==> OwnPage(s, r, v)
  {
    hide Lookup;
  }

  lemma WalkFits(s: State, s': State, w: World, i: nat)
    requires Wf(s) && Fits(s, w) && i < |w.roots| && Grown(s, s', w.roots[i]) && Wf(s')
    ensures Fits(s', w)
  {
    hide Wf, Lookup;
    var r, m := w.roots[i], w.maps[i];
    GrownLocal(s, s', r);
    GrownKeys(s, s', r);
    assert Refines(s, r, m);
    forall v | 0 <= v < MAXVPN
      ensures Lookup(s'.mem, r, v) == EntryAt(m, v)
    {
      GrownLookup(s, s', r, r, v);
    }
    HeldKeys(s, w);
    NoneSettled(s, s', w.held);
    assert OwnsAsSaid(s', r, m);
    hide Grown, Local, Exactly, OwnsAsSaid, Settled, Outside;
    OneChanged(s, s', w, i, m, w.held, {});
    assert w.maps[i := m] == w.maps;
  }

  /** Taking or giving back a frame that is in no space. */
  lemma FrameFits(s: State, s': State, w: World, f: nat, held: set<nat>)
    requires Wf(s) && Fits(s, w) && Local(s, s', f, {f}) && f in s.owner && f in s'.owner && Wf(s')
    requires || (s.owner[f].Free? && s'.owner[f].Held? && held == w.held + {f})
             || (s.owner[f].Held? && s'.owner[f].Free? && held == w.held - {f})
    ensures Fits(s', World(w.roots, w.maps, held))
  {
    hide Lookup, FreeOk, Down, Up, LeafOk;
    forall i | 0 <= i < |w.roots|
      ensures w.roots[i] != f
    {
      assert Refines(s, w.roots[i], w.maps[i]);
    }
    HeldKeys(s, w);
    hide Wf, Refines;
    FrameOut(s, s', f, held);
    hide Local, Outside, Settled, Exactly;
    OthersFit(s, s', w, f, {f});
    StillExactly(s, s', w.roots, w.held, f, {f}, held);
  }

  lemma FrameOut(s: State, s': State, f: nat, held: set<nat>)
    requires f in s.owner && f in s'.owner
    requires || (s.owner[f].Free? && s'.owner[f].Held? && f in held)
             || (s.owner[f].Held? && s'.owner[f].Free? && f !in held)
    ensures Settled(s', {f}, held) && forall q :: Outside(s, s', q, {f})
  {
  }

  lemma CreateFits(s: State, s': State, w: World)
    requires Wf(s) && Fits(s, w) && s.fl != [] && s' == Rooted(Popped(s), s.fl[0]) && IsRoot(s', s.fl[0]) && Wf(s')
    requires forall v :: 0 <= v < MAXVPN ==> Lookup(s'.mem, s.fl[0], v) == None
    ensures Fits(s', World(w.roots + [s.fl[0]], w.maps + [map[]], w.held))
  {
    hide Wf, Refines, Local, Popped, Rooted, Exactly, Settled, Outside, Lookup;
    var r := s.fl[0];
    RootedLocal(s);
    NewRoot(s, w);
    NewRefines(s, s');
    NoneSettled(s, s', w.held);
    HeldKeys(s, w);
    OthersFit(s, s', w, r, {});
    StillExactly(s, s', w.roots, w.held, r, {}, w.held);
    MoreFits(s', w, r);
  }

  lemma NewRefines(s: State, s': State)
    requires Wf(s) && s.fl != [] && s' == Rooted(Popped(s), s.fl[0]) && IsRoot(s', s.fl[0])
    requires forall v :: 0 <= v < MAXVPN ==> Lookup(s'.mem, s.fl[0], v) == None
    ensures Refines(s', s.fl[0], map[])
  {
    NoLeafOfNew(s, s');
    hide Wf, Lookup, Popped, Rooted;
  }

  lemma MoreFits(s': State, w: World, r: nat)
    requires |w.roots| == |w.maps| && r !in w.roots && Refines(s', r, map[]) && Exactly(s', w.roots + [r], w.held)
    requires forall i, j :: 0 <= i < j < |w.roots| ==> w.roots[i] != w.roots[j]
    requires forall i :: 0 <= i < |w.roots| && w.roots[i] != r ==> Refines(s', w.roots[i], w.maps[i])
    ensures Fits(s', World(w.roots + [r], w.maps + [map[]], w.held))
  {
    hide Refines, Exactly;
  }

  lemma NewRoot(s: State, w: World)
    requires Wf(s) && Fits(s, w) && s.fl != []
    ensures s.fl[0] in s.owner && s.owner[s.fl[0]].Free? && s.fl[0] !in w.roots
  {
    hide Lookup, Down, Up, LeafOk;
    forall i | 0 <= i < |w.roots|
      ensures w.roots[i] != s.fl[0]
    {
      assert Refines(s, w.roots[i], w.maps[i]);
    }
  }

  /** A frame that was free is the root of no owned leaf. */
  lemma NoLeafOfNew(s: State, s': State)
    requires Wf(s) && s.fl != [] && s' == Rooted(Popped(s), s.fl[0])
    ensures OwnsAsSaid(s', s.fl[0], map[])
  {
    forall f | f in s.owner && s.owner[f].Leaf? && s.owner[f].root == s.fl[0]
      ensures false
    {
      OwnedMapped(s, f);
    }
  }

  lemma RootDead(s: State, s': State, r: nat)
    requires Wf(s) && IsRoot(s, r) && TreeGone(s, s', r)
    ensures Wf(s') && !IsRoot(s', r)
  {
    hide FreeOk, Down, LeafOk, Lookup, Missing;
    assert UpAt(s, r);
  }

  lemma FewerRoots(s': State, roots: seq<nat>, i: nat, held: set<nat>)
    requires i < |roots| && Exactly(s', roots, held) && !IsRoot(s', roots[i])
    ensures Exactly(s', roots[..i] + roots[i + 1..], held)
  {
    forall r | IsRoot(s', r)
      ensures r in roots[..i] + roots[i + 1..]
    {
      var j :| 0 <= j < |roots| && roots[j] == r;
      assert r == (roots[..i] + roots[i + 1..])[if j < i then j else j - 1];
    }
  }

  lemma DestroyFits(s: State, s': State, w: World, i: nat)
    requires Wf(s) && Fits(s, w) && i < |w.roots| && TreeGone(s, s', w.roots[i])
    ensures Fits(s', World(w.roots[..i] + w.roots[i + 1..], w.maps[..i] + w.maps[i + 1..], w.held))
  {
    RootDead(s, s', w.roots[i]);
    hide Wf, Refines, Local, TreeGone, Exactly, Settled, Outside;
    GoneLocal(s, s', w.roots[i]);
    NoneSettled(s, s', w.held);
    HeldKeys(s, w);
    OthersFit(s, s', w, w.roots[i], {});
    StillExactly(s, s', w.roots, w.held, w.roots[i], {}, w.held);
    FewerRoots(s', w.roots, i, w.held);
    FewerFits(s', w, i);
  }

  lemma FewerFits(s': State, w: World, i: nat)
    requires |w.roots| == |w.maps| && i < |w.roots| && Exactly(s', w.roots[..i] + w.roots[i + 1..], w.held)
    requires forall i, j :: 0 <= i < j < |w.roots| ==> w.roots[i] != w.roots[j]
    requires forall j :: 0 <= j < |w.roots| && w.roots[j] != w.roots[i] ==> Refines(s', w.roots[j], w.maps[j])
    ensures Fits(s', World(w.roots[..i] + w.roots[i + 1..], w.maps[..i] + w.maps[i + 1..], w.held))
  {
    hide Refines, Exactly;
    var roots, maps := w.roots[..i] + w.roots[i + 1..], w.maps[..i] + w.maps[i + 1..];
    forall j | 0 <= j < |roots|
      ensures Refines(s', roots[j], maps[j])
    {
      var j' := if j < i then j else j + 1;
      assert roots[j] == w.roots[j'] && maps[j] == w.maps[j'];
    }
    forall j, k | 0 <= j < k < |roots|
      ensures roots[j] != roots[k]
    {
      assert roots[j] == w.roots[if j < i then j else j + 1];
      assert roots[k] == w.roots[if k < i then k else k + 1];
    }
  }

  // ---------------------------------------------------------------- copies

  lemma CopyReadyFor(s: State, w: World, i: nat, j: nat, sz: nat)
    requires Wf(s) && Fits(s, w) && Legal(w, Copy(i, j, sz))
    ensures IsRoot(s, w.roots[j]) && CanCopy(s, w.roots[i], w.roots[j], Pages(sz))
  {
    hide Wf, Lookup, Exactly;
    assert Refines(s, w.roots[i], w.maps[i]) && Refines(s, w.roots[j], w.maps[j]);
  }

  /** The entries of the pages below n. */
  ghost predicate EntriesOf(s: State, r: nat, n: nat, pages: map<nat, nat>) {
    && (forall v: nat :: v in pages <==> v < n && Lookup(s.mem, r, v).Some?)
    && (forall v :: v in pages ==> Lookup(s.mem, r, v) == Some(pages[v]))
  }

  lemma CopyFits(s: State, s': State, w: World, i: nat, j: nat, sz: nat, pages: map<nat, nat>)
    requires Wf(s) && Fits(s, w) && Legal(w, Copy(i, j, sz)) && Wf(s')
    requires Copied(s, s', w.roots[i], w.roots[j], Pages(sz)) && EntriesOf(s', w.roots[j], Pages(sz), pages)
    ensures Fits(s', World(w.roots, w.maps[j := w.maps[j] + Owning(pages)], w.held))
  {
    var p, c, n := w.roots[i], w.roots[j], Pages(sz);
    CopyReadyFor(s, w, i, j, sz);
    assert Refines(s, c, w.maps[j]);
    hide Wf, Lookup, Refines, Exactly, Copied, EntriesOf, Local, Outside, Settled, CanCopy;
    CopiedLocal(s, s', p, c, n);
    CopyRefines(s, s', p, c, w.maps[j], n, pages);
    NoneSettled(s, s', w.held);
    HeldKeys(s, w);
    OneChanged(s, s', w, j, w.maps[j] + Owning(pages), w.held, {});
  }

  lemma CopyRefines(s: State, s': State, p: nat, c: nat, m: map<nat, Entry>, n: nat, pages: map<nat, nat>)
    requires Wf(s) && Wf(s') && CanCopy(s, p, c, n) && Refines(s, c, m) && forall v :: v in m ==> v >= n
    requires Copied(s, s', p, c, n) && EntriesOf(s', c, n, pages)
    ensures Refines(s', c, m + Owning(pages))
  {
    hide Wf, PageCopied, OwnsAsSaid, CanCopy, SameButTables, CopyOwners, Lookup;
    CanCopyRoots(s, p, c, n);
    CopiedRoots(s, s', p, c, n);
    CopyOwns(s, s', p, c, m, n, pages);
    forall v | 0 <= v < MAXVPN
      ensures Lookup(s'.mem, c, v) == EntryAt(m + Owning(pages), v)
    {
      assert Lookup(s.mem, c, v) == EntryAt(m, v);
    }
  }

  lemma CopyOwns(s: State, s': State, p: nat, c: nat, m: map<nat, Entry>, n: nat, pages: map<nat, nat>)
    requires Wf(s') && OwnsAsSaid(s, c, m) && forall v :: v in m ==> v >= n
    requires Copied(s, s', p, c, n) && EntriesOf(s', c, n, pages)
    ensures OwnsAsSaid(s', c, m + Owning(pages))
  {
    var m' := m + Owning(pages);
    hide Wf, OwnsAsSaid, Copied, EntriesOf, Owning;
    CopyLeaves(s, s', p, c, m, n, pages);
    forall v | v in m' && m'[v].owned
      ensures Ppn(m'[v].pte) in s'.owner && OwnedBy(s'.owner[Ppn(m'[v].pte)], c, v, 1)
    {
      CopyEntry(s, s', p, c, m, n, pages, v);
    }
    OwnsIs(s', c, m');
  }

  lemma OwnsIs(s: State, r: nat, m: map<nat, Entry>)
    requires forall f :: f in s.owner && s.owner[f].Leaf? && s.owner[f].root == r ==>
               s.owner[f].vpn in m && m[s.owner[f].vpn].owned
    requires forall v :: v in m && m[v].owned ==> Ppn(m[v].pte) in s.owner && OwnedBy(s.owner[Ppn(m[v].pte)], r, v, 1)
    ensures OwnsAsSaid(s, r, m)
  {
  }

  lemma CopyLeaves(s: State, s': State, p: nat, c: nat, m: map<nat, Entry>, n: nat, pages: map<nat, nat>)
    requires Wf(s') && OwnsAsSaid(s, c, m) && Copied(s, s', p, c, n) && EntriesOf(s', c, n, pages)
    requires forall v :: v in m ==> v >= n
    ensures forall f :: f in s'.owner && s'.owner[f].Leaf? && s'.owner[f].root == c ==>
              s'.owner[f].vpn in m + Owning(pages) && (m + Owning(pages))[s'.owner[f].vpn].owned
  {
    hide Wf, Lookup, Copied, EntriesOf, OwnsAsSaid, Owning;
    CopiedRoots(s, s', p, c, n);
    forall f | f in s'.owner && s'.owner[f].Leaf? && s'.owner[f].root == c
      ensures s'.owner[f].vpn in m + Owning(pages) && (m + Owning(pages))[s'.owner[f].vpn].owned
    {
      OwnedMapped(s', f);
      CopyLeaf(s, s', p, c, m, n, pages, f);
    }
  }

  lemma CopyLeaf(s: State, s': State, p: nat, c: nat, m: map<nat, Entry>, n: nat, pages: map<nat, nat>, f: nat)
    requires OwnsAsSaid(s, c, m) && Copied(s, s', p, c, n) && EntriesOf(s', c, n, pages)
    requires (forall v :: v in m ==> v >= n) && f in s.owner && f in s'.owner && s'.owner[f].Leaf?
    requires s'.owner[f].root == c
    requires Lookup(s'.mem, c, s'.owner[f].vpn).Some?
    ensures s'.owner[f].vpn in m + Owning(pages) && (m + Owning(pages))[s'.owner[f].vpn].owned
  {
    hide Lookup, OthersKept, PageCopied, SameButTables;
  }

  lemma CopyEntry(s: State, s': State, p: nat, c: nat, m: map<nat, Entry>, n: nat, pages: map<nat, nat>, v: nat)
    requires OwnsAsSaid(s, c, m) && Copied(s, s', p, c, n) && EntriesOf(s', c, n, pages)
    requires (forall v :: v in m ==> v >= n) && v in m + Owning(pages) && (m + Owning(pages))[v].owned
    ensures var g := Ppn((m + Owning(pages))[v].pte); g in s'.owner && OwnedBy(s'.owner[g], c, v, 1)
  {
    CopiedRoots(s, s', p, c, n);
    hide Lookup, OthersKept, SameButTables;
    if v in pages {
      assert PageCopied(s, s', p, c, v);
    } else {
      hide PageCopied;
    }
  }

  lemma CopiedHanded(s: State, s': State, p: nat, c: nat, m: map<nat, Entry>, n: nat, pages: map<nat, nat>)
    requires Wf(s) && CanCopy(s, p, c, n) && Refines(s, p, m) && Copied(s, s', p, c, n) && EntriesOf(s', c, n, pages)
    ensures CopyHanded(s, m, n, pages)
  {
    hide Wf, Lookup, Refines, Copied, CanCopy, EntriesOf;
    forall v: nat
      ensures v in pages <==> v in m && v < n
      ensures v in pages && v in m ==> Flags(pages[v]) == Flags(m[v].pte) && Ppn(pages[v]) in s.fl
    {
      PageHanded(s, s', p, c, m, n, pages, v);
    }
    forall v, u | v in pages && u in pages && Ppn(pages[v]) == Ppn(pages[u])
      ensures v == u
    {
      PagesApart(s, s', p, c, n, pages, v, u);
    }
  }

  lemma PageHanded(s: State, s': State, p: nat, c: nat, m: map<nat, Entry>, n: nat, pages: map<nat, nat>, v: nat)
    requires Wf(s) && CanCopy(s, p, c, n) && Refines(s, p, m) && Copied(s, s', p, c, n) && EntriesOf(s', c, n, pages)
    ensures v in pages <==> v in m && v < n
    ensures v in pages && v in m ==> Flags(pages[v]) == Flags(m[v].pte) && Ppn(pages[v]) in s.fl
  {
    CanCopyRoots(s, p, c, n);
    hide Wf, Lookup, OthersKept, SameButTables, OwnsAsSaid, CopyOwners, CanCopy;
    if v < n {
      assert PageCopied(s, s', p, c, v);
      assert Lookup(s.mem, p, v) == EntryAt(m, v);
      if v in pages { CopyFresh(s, s', p, c, n, v); }
    }
  }

  lemma PagesApart(s: State, s': State, p: nat, c: nat, n: nat, pages: map<nat, nat>, v: nat, u: nat)
    requires Copied(s, s', p, c, n) && EntriesOf(s', c, n, pages)
    requires v in pages && u in pages && Ppn(pages[v]) == Ppn(pages[u])
    ensures v == u
  {
    hide Lookup, OthersKept, SameButTables, CopyOwners;
    assert PageCopied(s, s', p, c, v) && PageCopied(s, s', p, c, u);
  }

  /** The frame of a copied page was free. */
  lemma CopyFresh(s: State, s': State, p: nat, c: nat, n: nat, v: nat)
    requires Wf(s) && CanCopy(s, p, c, n) && Copied(s, s', p, c, n) && v < n && Lookup(s'.mem, c, v).Some?
    ensures var w, w' := Lookup(s.mem, p, v), Lookup(s'.mem, c, v);
            w.Some? && Flags(w'.value) == Flags(w.value) && Ppn(w'.value) in s.fl
  {
    assert PageCopied(s, s', p, c, v);
    hide Down, Up, LeafOk, Lookup, OthersKept, PageCopied;
    var f := Ppn(Lookup(s'.mem, c, v).value);
    if f in s.owner && s.owner[f].Leaf? {
      OwnedMapped(s, f);
    }
  }

  lemma UndoneFits(s: State, s': State, w: World, j: nat)
    requires Wf(s) && Wf(s') && Fits(s, w) && j < |w.roots| && CopyUndone(s, s', w.roots[j])
    ensures Fits(s', w)
  {
    hide Wf, Lookup;
    MapsLocal(s, s', w.roots[j]);
    var r, m := w.roots[j], w.maps[j];
    assert IsRoot(s, r) && Refines(s, r, m);
    assert OwnsAsSaid(s', r, m);
    forall v | 0 <= v < MAXVPN
      ensures Lookup(s'.mem, r, v) == EntryAt(m, v)
    {
      assert Lookup(s.mem, r, v) == EntryAt(m, v);
    }
    HeldKeys(s, w);
    NoneSettled(s, s', w.held);
    hide CopyUndone, Local, Exactly, OwnsAsSaid, Settled, Outside;
    OneChanged(s, s', w, j, m, w.held, {});
    assert w.maps[j := m] == w.maps;
  }

  // ------------------------------------------------------------- the runs

  /** One legal call: memory goes on refining the maps, exactly the frames said to be are held, and the
      call does, takes and gives back what it should. */
  method Do(pm: PhysMem, w: World, c: Call) returns (w': World, out: Out)
    requires pm.Valid() && Fits(pm.S(), w) && Legal(w, c)
    modifies pm, pm.mem
    ensures pm.Valid() && w' == Effect(w, c, out) && Fits(pm.S(), w')
    ensures Handed(old(pm.S()), w, c, out) && Balance(old(pm.S()), pm.S(), w, c, out)
  {
    hide Wf, Refines, Lookup, Missing, Fits, CopyHanded, MapHanded, Needed, TablesFor, StopsAt, FreeAfterStop;
    ghost var s := pm.S();
    out := Number(0);
    match c {
    case Create =>
      var r := pm.Uvmcreate();
      out := Number(r);
      if r != 0 { CreateFits(s, pm.S(), w); }
    case Map(i, pa, va, size, perm) => out := DoMap(pm, w, c);
    case Give(i, f, vpn, perm) => out := DoGive(pm, w, c);
    case Unmap(i, va, sz, doFree) => DoUnmap(pm, w, c);
    case Copy(i, j, sz) => out := DoCopy(pm, w, c);
    case Walk(i, va, alloc) => out := DoWalk(pm, w, c);
    case Destroy(i) => DoDestroy(pm, w, c);
    case Alloc => out := DoAlloc(pm, w);
    case Free(f) => DoFree(pm, w, f);
    }
    w' := Effect(w, c, out);
  }

  method DoDestroy(pm: PhysMem, w: World, c: Call)
    requires pm.Valid() && Fits(pm.S(), w) && Legal(w, c) && c.Destroy?
    modifies pm, pm.mem
    ensures pm.Valid() && Fits(pm.S(), Effect(w, c, Number(0))) && Balance(old(pm.S()), pm.S(), w, c, Number(0))
  {
    hide Wf, Refines, Lookup, Missing, Fits, TreeGone;
    ghost var s := pm.S();
    RootOf(s, w, c.i);
    pm.FreeTree(w.roots[c.i]);
    DestroyFits(s, pm.S(), w, c.i);
    TreeCounted(s, pm.S(), w.roots[c.i]);
  }

  /** The tables of a dropped space are the frames given back. */
  lemma TreeCounted(s: State, s': State, r: nat)
    requires Wf(s) && TreeGone(s, s', r)
    ensures |s'.fl| == |s.fl| + |TablesOf(s, r)|
  {
    hide Wf, Lookup, Missing;
    FreeCounted(s);
    FreeCounted(s');
    assert FreeFrames(s') == FreeFrames(s) + TablesOf(s, r);
    assert FreeFrames(s) !! TablesOf(s, r);
  }

  /** walk, and the entry that it finds. */
  method DoWalk(pm: PhysMem, w: World, c: Call) returns (out: Out)
    requires pm.Valid() && Fits(pm.S(), w) && Legal(w, c) && c.Walk?
    modifies pm, pm.mem
    ensures pm.Valid() && Fits(pm.S(), w) && Handed(old(pm.S()), w, c, out) && Balance(old(pm.S()), pm.S(), w, c, out)
  {
    hide FreeOk, Down, Up, LeafOk, Refines, Lookup, Missing, Fits, Grown, GrownFor;
    ghost var s := pm.S();
    RootOf(s, w, c.i);
    var t := pm.Walk(w.roots[c.i], c.va, c.alloc);
    if c.alloc { WalkFits(s, pm.S(), w, c.i); }
    RootOf(pm.S(), w, c.i);
    EntryOfPage(pm.S(), w.roots[c.i], w.maps[c.i], c.va / PGSIZE);
    if t == 0 {
      MissingUnmapped(s, w.roots[c.i], c.va / PGSIZE);
      EntryOfPage(s, w.roots[c.i], w.maps[c.i], c.va / PGSIZE);
      out := Number(0);
    } else {
      LookupAt(pm.S(), t, c.va / PGSIZE);
      var pte := pm.mem[t][c.va / PGSIZE % 512];
      out := Out(1, if V(pte) then Some(pte) else None, map[]);
    }
  }

  lemma EntryOfPage(s: State, r: nat, m: map<nat, Entry>, v: nat)
    requires Refines(s, r, m) && v < MAXVPN
    ensures Lookup(s.mem, r, v) == EntryAt(m, v)
  {
    hide Lookup;
  }

  lemma RootOf(s: State, w: World, i: nat)
    requires Fits(s, w) && i < |w.roots|
    ensures |w.maps| == |w.roots| && IsRoot(s, w.roots[i]) && Refines(s, w.roots[i], w.maps[i])
    ensures forall v :: 0 <= v < MAXVPN && v !in w.maps[i] ==> Lookup(s.mem, w.roots[i], v) == None
  {
    hide Lookup, Exactly;
    assert Refines(s, w.roots[i], w.maps[i]);
  }

  method DoMap(pm: PhysMem, w: World, c: Call) returns (out: Out)
    requires pm.Valid() && Fits(pm.S(), w) && Legal(w, c) && c.Map?
    modifies pm, pm.mem
    ensures pm.Valid() && Fits(pm.S(), Effect(w, c, out)) && Handed(old(pm.S()), w, c, out)
    ensures Balance(old(pm.S()), pm.S(), w, c, out)
  {
    hide Wf, Refines, Lookup, Missing, Fits, SameButTables, OwnersGrown, MapsTo, TablesFor, Range;
    ghost var s := pm.S();
    RootOf(s, w, c.i);
    var ok, k := pm.Mappages(w.roots[c.i], c.pa, c.va, c.size, c.perm);
    out := Number(k);
    MapFits(s, pm.S(), w, c.i, c.va / PGSIZE, k, c.pa / PGSIZE, c.perm);
  }

  /** A held frame is mapped, and is the page's from then on. */
  method DoGive(pm: PhysMem, w: World, c: Call) returns (out: Out)
    requires pm.Valid() && Fits(pm.S(), w) && Legal(w, c) && c.Give?
    modifies pm, pm.mem
    ensures pm.Valid() && Fits(pm.S(), Effect(w, c, out)) && Handed(old(pm.S()), w, c, out)
    ensures Balance(old(pm.S()), pm.S(), w, c, out)
  {
    hide Wf, Refines, Lookup, Missing, PageMapped, Grown;
    ghost var s := pm.S();
    RootOf(s, w, c.i);
    var ok := pm.MapPage(w.roots[c.i], c.f, c.vpn, c.perm, true);
    out := Number(if ok then 1 else 0);
    if ok {
      GiveFits(s, pm.S(), w, c.i, c.f, c.vpn, c.perm);
    } else {
      WalkFits(s, pm.S(), w, c.i);
    }
  }

  method DoUnmap(pm: PhysMem, w: World, c: Call)
    requires pm.Valid() && Fits(pm.S(), w) && Legal(w, c) && c.Unmap?
    modifies pm, pm.mem
    ensures pm.Valid() && Fits(pm.S(), Effect(w, c, Number(0))) && Balance(old(pm.S()), pm.S(), w, c, Number(0))
  {
    hide Wf, Refines, Lookup, Missing, Fits, PagesCleared, MappedIn;
    ghost var s := pm.S();
    RootOf(s, w, c.i);
    UnmapReady(s, w.roots[c.i], w.maps[c.i], c.va / PGSIZE, c.sz / PGSIZE, c.doFree);
    pm.Uvmunmap(w.roots[c.i], c.va, c.sz, c.doFree);
    UnmapFits(s, pm.S(), w, c.i, c.va / PGSIZE, c.sz / PGSIZE, c.doFree);
  }

  /** uvmcopy, after which the child's entries are read back. */
  method DoCopy(pm: PhysMem, w: World, c: Call) returns (out: Out)
    requires pm.Valid() && Fits(pm.S(), w) && Legal(w, c) && c.Copy?
    modifies pm, pm.mem
    ensures pm.Valid() && Fits(pm.S(), Effect(w, c, out)) && Handed(old(pm.S()), w, c, out)
    ensures Balance(old(pm.S()), pm.S(), w, c, out)
  {
    hide Wf, Refines, Lookup, Missing, Fits, Needed, CanCopy, Copied, CopyUndone, CopyHanded, EntriesOf;
    hide StopsAt, FreeAfterStop;
    ghost var s, p, ch, n := pm.S(), w.roots[c.i], w.roots[c.j], Pages(c.sz);
    RootOf(s, w, c.i);
    CopyReadyFor(s, w, c.i, c.j, c.sz);
    CanCopyRoots(s, p, ch, n);
    var ok := pm.Uvmcopy(w.roots[c.i], w.roots[c.j], c.sz);
    ghost var s' := pm.S();
    if !ok {
      UndoneFits(s, s', w, c.j);
      return Number(0);
    }
    CopiedRoots(s, s', p, ch, n);
    var pages := ReadBack(pm, w.roots[c.j], Pages(c.sz));
    CopyFits(s, s', w, c.i, c.j, c.sz, pages);
    CopiedHanded(s, s', p, ch, w.maps[c.i], n, pages);
    out := Out(1, None, pages);
  }

  method ReadBack(pm: PhysMem, r: nat, n: nat) returns (pages: map<nat, nat>)
    requires pm.Valid() && IsRoot(pm.S(), r) && n <= MAXVPN
    modifies pm, pm.mem
    ensures pm.Valid() && pm.S() == old(pm.S()) && EntriesOf(pm.S(), r, n, pages)
  {
    hide Down, Up, LeafOk, FreeOk, Lookup, Missing;
    pages := map[];
    var v := 0;
    while v < n
      invariant v <= n && pm.Valid() && pm.S() == old(pm.S()) && EntriesOf(pm.S(), r, v, pages)
    {
      var t := pm.Walk(r, v * PGSIZE, false);
      if t == 0 {
        MissingUnmapped(pm.S(), r, v);
      } else {
        LookupAt(pm.S(), t, v);
        if V(pm.mem[t][v % 512]) {
          pages := pages[v := pm.mem[t][v % 512]];
        }
      }
      v := v + 1;
    }
  }

  method DoAlloc(pm: PhysMem, w: World) returns (out: Out)
    requires pm.Valid() && Fits(pm.S(), w)
    modifies pm, pm.mem
    ensures pm.Valid() && Fits(pm.S(), Effect(w, Alloc, out)) && Handed(old(pm.S()), w, Alloc, out)
    ensures Balance(old(pm.S()), pm.S(), w, Alloc, out)
  {
    hide Down, Up, LeafOk, Refines, Lookup, Missing, Fits;
    ghost var s := pm.S();
    var f := pm.Kalloc();
    out := Number(f);
    if f != 0 {
      PoppedLocal(s, f);
      FrameFits(s, pm.S(), w, f, w.held + {f});
    }
  }

  method DoFree(pm: PhysMem, w: World, f: nat)
    requires pm.Valid() && Fits(pm.S(), w) && f in w.held
    modifies pm, pm.mem
    ensures pm.Valid() && Fits(pm.S(), World(w.roots, w.maps, w.held - {f})) && |pm.fl| == |old(pm.fl)| + 1
  {
    hide FreeOk, Down, Up, LeafOk, Refines, Lookup, Missing;
    ghost var s := pm.S();
    pm.Kfree(f);
    PushedLocal(s, f, f);
    hide Fits;
    FrameFits(s, pm.S(), w, f, w.held - {f});
  }

  /** The effect of some calls, one after another, while they are legal. */
  function Effects(w: World, calls: seq<Call>, outs: seq<Out>): Option<World>
    requires |outs| == |calls|
    decreases |calls|
  {
    if calls == [] then Some(w)
    else
      var n := |calls| - 1;
      var u := Effects(w, calls[..n], outs[..n]);
      if u.None? || !Legal(u.value, calls[n]) then None else Some(Effect(u.value, calls[n], outs[n]))
  }

  /** Call n of a run through the given states does, takes and gives back what it should. */
  ghost predicate OneHanded(w: World, calls: seq<Call>, outs: seq<Out>, states: seq<State>, n: nat)
    requires |outs| == |calls| == |states| - 1 && n < |calls|
  {
    var u := Effects(w, calls[..n], outs[..n]);
    && u.Some? && Fits(states[n], u.value) && Legal(u.value, calls[n])
    && Handed(states[n], u.value, calls[n], outs[n]) && Balance(states[n], states[n + 1], u.value, calls[n], outs[n])
  }

  ghost predicate AllHanded(w: World, calls: seq<Call>, outs: seq<Out>, states: seq<State>)
    requires |outs| == |calls| == |states| - 1
  {
    forall n :: 0 <= n < |calls| ==> OneHanded(w, calls, outs, states, n)
  }

  /** Any run of calls, up to the first one that would panic: the tables in memory are the finite maps
      that the calls describe, the frames held are those handed out and not yet given away, and each
      call maps, copies, finds, takes and gives back exactly what it should. */
  method Run(pm: PhysMem, w: World, calls: seq<Call>) returns (w': World, outs: seq<Out>, ghost states: seq<State>)
    requires pm.Valid() && Fits(pm.S(), w)
    modifies pm, pm.mem
    ensures pm.Valid() && Fits(pm.S(), w')
    ensures |outs| == |states| - 1 && |outs| <= |calls| && Effects(w, calls[..|outs|], outs) == Some(w')
    ensures |outs| == |calls| || !Legal(w', calls[|outs|])
    ensures states[0] == old(pm.S()) && states[|outs|] == pm.S() && AllHanded(w, calls[..|outs|], outs, states)
  {
    hide Wf, Refines, Fits, Legal, Effect, Handed, Balance, AllHanded;
    w', outs, states := w, [], [pm.S()];
    var n := 0;
    assert AllHanded(w, [], [], states) by { NoneHanded(w, pm.S()); }
    while n < |calls|
      invariant n == |outs| == |states| - 1 && n <= |calls| && pm.Valid() && Fits(pm.S(), w')
      invariant Effects(w, calls[..n], outs) == Some(w') && AllHanded(w, calls[..n], outs, states)
      invariant states[0] == old(pm.S()) && states[n] == pm.S()
    {
      if !Legal(w', calls[n]) {
        return;
      }
      var out;
      ghost var u := w';
      w', out := Do(pm, w', calls[n]);
      MoreHanded(w, calls[..n], outs, states, u, calls[n], out, pm.S());
      assert calls[..n + 1] == calls[..n] + [calls[n]];
      outs, states := outs + [out], states + [pm.S()];
      n := n + 1;
    }
  }

  lemma NoneHanded(w: World, s: State)
    ensures AllHanded(w, [], [], [s])
  {
  }

  lemma MoreHanded(w: World, calls: seq<Call>, outs: seq<Out>, states: seq<State>, u: World, c: Call, out: Out,
                   s': State)
    requires |outs| == |calls| == |states| - 1
    requires AllHanded(w, calls, outs, states) && Effects(w, calls, outs) == Some(u)
    requires Fits(states[|calls|], u) && Legal(u, c)
    requires Handed(states[|calls|], u, c, out) && Balance(states[|calls|], s', u, c, out)
    ensures AllHanded(w, calls + [c], outs + [out], states + [s'])
    ensures Effects(w, calls + [c], outs + [out]) == Some(Effect(u, c, out))
  {
    hide Fits, Legal, Handed, Balance, Effect;
    var calls', outs', states' := calls + [c], outs + [out], states + [s'];
    assert calls[..|calls|] == calls && outs[..|outs|] == outs;
    assert calls'[..|calls|] == calls && outs'[..|calls|] == outs;
    forall n | 0 <= n < |calls'|
      ensures OneHanded(w, calls', outs', states', n)
    {
      if n < |calls| {
        assert calls'[..n] == calls[..n] && outs'[..n] == outs[..n];
        assert states'[n] == states[n] && states'[n + 1] == states[n + 1];
        assert OneHanded(w, calls, outs, states, n);
      }
    }
  }

  // ------------------------------------------------------------ corollaries

  /** Every frame is exactly one of: on the free list, a table of one of the spaces, the frame of a page
      that owns it, held by a caller. */
  lemma OneRole(s: State, w: World, f: nat)
    requires Wf(s) && Fits(s, w) && f in s.owner
    ensures var free, held := f in s.fl, f in w.held;
            var table := exists i :: 0 <= i < |w.roots| && Reaches(s.mem, w.roots[i], f);
            var page := exists i :: 0 <= i < |w.roots| && OwnsFrame(w.maps[i], f);
            (free || table || page || held)
            && !(free && table) && !(free && page) && !(free && held)
            && !(table && page) && !(table && held) && !(page && held)
  {
    hide Down, Up, LeafOk, Reaches, OwnsFrame, Lookup, Missing;
    var o := s.owner[f];
    assert o.Free? <==> f in s.fl;
    assert !o.Trapframe? && (o == Held <==> f in w.held);
    assert (exists i :: 0 <= i < |w.roots| && Reaches(s.mem, w.roots[i], f)) <==> o.Node? by { TableRole(s, w, f); }
    assert (exists i :: 0 <= i < |w.roots| && OwnsFrame(w.maps[i], f)) <==> o.Leaf? by { PageRole(s, w, f); }
  }

  /** A page of this space owns frame f. */
  ghost predicate OwnsFrame(m: map<nat, Entry>, f: nat) {
    exists v :: v in m && m[v].owned && Ppn(m[v].pte) == f
  }

  lemma TableRole(s: State, w: World, f: nat)
    requires Wf(s) && Fits(s, w) && f in s.owner
    ensures (exists i :: 0 <= i < |w.roots| && Reaches(s.mem, w.roots[i], f)) <==> s.owner[f].Node?
  {
    hide FreeOk, Down, LeafOk, Reaches, Lookup;
    forall i | 0 <= i < |w.roots|
      ensures Reaches(s.mem, w.roots[i], f) <==> s.owner[f].Node? && s.owner[f].root == w.roots[i]
    {
      RootOf(s, w, i);
      ReachedTables(s, w.roots[i], f);
    }
    if s.owner[f].Node? {
      NodeReachesRoot(s, f);
      var i :| 0 <= i < |w.roots| && w.roots[i] == s.owner[f].root;
      assert Reaches(s.mem, w.roots[i], f);
    }
  }

  lemma PageRole(s: State, w: World, f: nat)
    requires Wf(s) && Fits(s, w) && f in s.owner
    ensures (exists i :: 0 <= i < |w.roots| && OwnsFrame(w.maps[i], f)) <==> s.owner[f].Leaf?
  {
    hide Wf, Lookup, Missing;
    if s.owner[f].Leaf? {
      var r, v := s.owner[f].root, s.owner[f].vpn;
      OwnedMapped(s, f);
      var i :| 0 <= i < |w.roots| && w.roots[i] == r;
      RootOf(s, w, i);
      assert Lookup(s.mem, r, v) == EntryAt(w.maps[i], v);
      assert OwnsFrame(w.maps[i], f);
    }
    if i :| 0 <= i < |w.roots| && OwnsFrame(w.maps[i], f) {
      RootOf(s, w, i);
    }
  }

  /** With no space and nothing held, every frame is free: what kinit leaves, and what a run that ends
      so gives back. */
  lemma EmptyIsFree(s: State)
    requires Wf(s)
    ensures Fits(s, World([], [], {})) <==> forall f :: f in s.owner ==> f in s.fl
  {
    hide Down, Up, LeafOk;
    if Fits(s, World([], [], {})) {
      forall f | f in s.owner
        ensures f in s.fl
      {
        OneRole(s, World([], [], {}), f);
      }
    }
  }

  /** What the hardware makes of a virtual address is what the map says. */
  lemma HardwareAgrees(s: State, w: World, i: nat, va: nat, acc: Access, user: bool)
    requires Wf(s) && Fits(s, w) && i < |w.roots| && va < MAXVA && |s.mem| * 1024 < RESERVED
    ensures |w.maps| == |w.roots|
    ensures Translate(s.mem, w.roots[i], 2, va, acc, user)
            == LeafTranslation(EntryAt(w.maps[i], va / PGSIZE), va, acc, user)
  {
    hide Wf, Lookup, Translate, LeafTranslation;
    assert Refines(s, w.roots[i], w.maps[i]);
    AgreesWithSv39(s, w.roots[i], va, acc, user);
  }

  /** No frame that one space maps as its own is mapped as its own anywhere else, held or free. */
  lemma OwnedOnce(s: State, w: World, i: nat, v: nat, j: nat, u: nat)
    requires Wf(s) && Fits(s, w) && i < |w.roots| && j < |w.roots| == |w.maps|
    requires v in w.maps[i] && w.maps[i][v].owned && u in w.maps[j] && w.maps[j][u].owned
    requires Ppn(w.maps[i][v].pte) == Ppn(w.maps[j][u].pte)
    ensures i == j && v == u && Ppn(w.maps[i][v].pte) !in w.held && Ppn(w.maps[i][v].pte) !in s.fl
  {
    hide Down, Up, LeafOk, Lookup, Refines, Exactly;
    OwnerOf(s, w, i, v);
    OwnerOf(s, w, j, u);
    HeldOnly(s, w, Ppn(w.maps[i][v].pte));
  }

  lemma OwnerOf(s: State, w: World, i: nat, v: nat)
    requires Fits(s, w) && i < |w.roots| && |w.maps| == |w.roots| && v in w.maps[i] && w.maps[i][v].owned
    ensures var f := Ppn(w.maps[i][v].pte); f in s.owner && OwnedBy(s.owner[f], w.roots[i], v, 1)
  {
    hide Lookup, Exactly;
    assert Refines(s, w.roots[i], w.maps[i]);
  }

  lemma HeldOnly(s: State, w: World, f: nat)
    requires Fits(s, w)
    ensures f in w.held ==> f in s.owner && s.owner[f] == Held
  {
    hide Refines;
  }
}
