/** Copying an address space: what is true between two rounds of uvmcopy. */
module Fork {
  import opened Words
  import opened PageTables
  import opened Translation
  import opened Changes

  /** Page v of root c is a copy in s of page v of root p in s0: same flags and contents, own frame. */
  ghost predicate PageCopied(s0: State, s: State, p: nat, c: nat, v: nat) {
    var w, w' := Lookup(s0.mem, p, v), Lookup(s.mem, c, v);
    if w.None? then w'.None?
    else
      && w'.Some? && Flags(w'.value) == Flags(w.value)
      && Ppn(w.value) < |s0.mem| && Ppn(w'.value) < |s.mem|
      && OwnPage(s, c, v) && s.mem[Ppn(w'.value)] == s0.mem[Ppn(w.value)]
  }

  /** Only free frames changed owner, to become tables of c or leaves of its first n pages. */
  ghost predicate CopyOwners(s0: State, s: State, c: nat, n: nat) {
    forall f :: f in s0.owner && f in s.owner ==>
      || s.owner[f] == s0.owner[f]
      || (s0.owner[f].Free? && s.owner[f].Node? && s.owner[f].root == c)
      || (s0.owner[f].Free? && OwnedBy(s.owner[f], c, 0, n))
  }

  ghost predicate OthersKept(s0: State, s: State, c: nat, n: nat) {
    forall q, v :: IsRoot(s0, q) && 0 <= v < MAXVPN && !(q == c && v < n) ==>
        Lookup(s.mem, q, v) == Lookup(s0.mem, q, v)
  }

  ghost predicate Copied(s0: State, s: State, p: nat, c: nat, n: nat) {
    && SameButTables(s0, s, c) && CopyOwners(s0, s, c, n) && OthersKept(s0, s, c, n)
    && forall v :: 0 <= v < n ==> PageCopied(s0, s, p, c, v)
  }

  /** What uvmcopy starts from: a parent that owns its pages and a child without any. */
  ghost predicate CanCopy(s: State, p: nat, c: nat, n: nat) {
    && Wf(s) && IsRoot(s, p) && IsRoot(s, c) && p != c && n <= MAXVPN
    && (forall v :: 0 <= v < n ==> OwnPage(s, p, v))
    && (forall v :: 0 <= v < n ==> Lookup(s.mem, c, v) == None)
  }

  lemma CanCopyRoots(s: State, p: nat, c: nat, n: nat)
    requires CanCopy(s, p, c, n)
    ensures Wf(s) && IsRoot(s, p) && IsRoot(s, c) && p != c && n <= MAXVPN
  {
    hide Wf, Lookup;
  }

  lemma CopiedNothing(s: State, p: nat, c: nat)
    ensures Copied(s, s, p, c, 0)
  {
    hide Lookup;
  }

  lemma CopiedRoots(s0: State, s: State, p: nat, c: nat, n: nat)
    requires Copied(s0, s, p, c, n)
    ensures forall q :: IsRoot(s0, q) ==> IsRoot(s, q)
    ensures |s.mem| == |s0.mem| && s.owner.Keys == s0.owner.Keys && s.lo == s0.lo
  {
    hide Lookup, PageCopied;
  }

  /** The parent's pages are still what they were when the copying began. */
  lemma ParentKept(s0: State, s: State, p: nat, c: nat, n: nat, N: nat, v: nat)
    requires CanCopy(s0, p, c, N) && Copied(s0, s, p, c, n) && v < N
    ensures Lookup(s.mem, p, v) == Lookup(s0.mem, p, v) && OwnPage(s, p, v)
    ensures Lookup(s.mem, p, v).Some? ==>
              var f := Ppn(Lookup(s.mem, p, v).value); f < |s.mem| && s.mem[f] == s0.mem[f]
  {
    hide FreeOk, Down, Up, LeafOk, Lookup, PageCopied;
    assert OwnPage(s0, p, v);
  }

  /** A frame is taken from the free list and filled. */
  ghost predicate Prepared(s: State, s': State, g: nat, page: Page) {
    && Wf(s') && |s'.mem| == |s.mem| && s'.lo == s.lo && g < |s.mem|
    && g in s.owner && s.owner[g] == Free && s'.owner == s.owner[g := Held]
    && s'.mem == s.mem[g := page]
    && (forall q, v :: IsRoot(s, q) && 0 <= v < MAXVPN ==> Lookup(s'.mem, q, v) == Lookup(s.mem, q, v))
  }

  lemma PreparedIs(s: State, page: Page)
    requires Wf(s) && s.fl != []
    ensures s.fl[0] < |s.mem| && Prepared(s, Filled(Popped(s), s.fl[0], page), s.fl[0], page)
  {
    var g, p := s.fl[0], Popped(s);
    assert s.owner[g] == Free;
    hide FreeOk, Down, Up, LeafOk, Lookup, Missing;
    PoppedLookup(s);
    FilledCore(p, g, page);
    forall q, v | IsRoot(s, q) && 0 <= v < MAXVPN
      ensures Lookup(Filled(p, g, page).mem, q, v) == Lookup(s.mem, q, v)
    {
      LookupKept(p, Filled(p, g, page).mem, q);
    }
  }

  /** mappages finds what it needs after the frame for the copy is filled. */
  lemma CopyReady(s0: State, s: State, s2: State, p: nat, c: nat, n: nat, N: nat, g: nat, page: Page)
    requires CanCopy(s0, p, c, N) && Copied(s0, s, p, c, n) && n < N && Prepared(s, s2, g, page)
    ensures IsRoot(s2, c) && Lookup(s2.mem, c, n) == None && g in s2.owner && s2.owner[g] == Held
  {
    hide Wf, Lookup, PageCopied;
    SameKeys(s0, s, c);
    hide SameButTables;
  }

  lemma CopyOwnersStep(s0: State, s: State, s2: State, s3: State, c: nat, n: nat, g: nat, page: Page, perm: nat)
    requires SameButTables(s0, s, c) && CopyOwners(s0, s, c, n)
    requires Prepared(s, s2, g, page) && PageMapped(s2, s3, c, n, g, perm, true)
    ensures SameButTables(s0, s3, c) && CopyOwners(s0, s3, c, n + 1)
  {
    hide Wf, Lookup, MapsTo;
  }

  lemma CopyContents(s: State, s2: State, s3: State, c: nat, n: nat, g: nat, page: Page, perm: nat)
    requires DomOk(s) && Prepared(s, s2, g, page) && PageMapped(s2, s3, c, n, g, perm, true)
    ensures g < |s3.mem| && s3.mem[g] == page
    ensures LeavesKept(s, s3)
  {
    hide Wf, Lookup, MapsTo;
  }

  lemma CopyLookupStep(s0: State, s: State, s2: State, s3: State, c: nat, n: nat, g: nat, page: Page, perm: nat)
    requires SameButTables(s0, s, c) && CopyOwners(s0, s, c, n) && OthersKept(s0, s, c, n)
    requires Prepared(s, s2, g, page) && PageMapped(s2, s3, c, n, g, perm, true)
    ensures OthersKept(s0, s3, c, n + 1)
    ensures IsRoot(s0, c) && n < MAXVPN ==> Lookup(s3.mem, c, n) == Some(Pte(g, perm))
    ensures IsRoot(s0, c) ==> forall v :: 0 <= v < n && v < MAXVPN ==> Lookup(s3.mem, c, v) == Lookup(s.mem, c, v)
  {
    hide Wf, Lookup, SameButTables;
    assert forall q :: IsRoot(s0, q) ==> IsRoot(s, q) && IsRoot(s2, q) by { SameKeys(s0, s, c); }
  }

  lemma SameKeys(s: State, s': State, r: nat)
    requires SameButTables(s, s', r)
    ensures s'.owner.Keys == s.owner.Keys && |s'.mem| == |s.mem|
  {
  }

  /** Owned leaves keep their owner and contents. */
  ghost predicate LeavesKept(s: State, s': State) {
    && |s'.mem| == |s.mem| && s'.owner.Keys == s.owner.Keys
    && forall f :: f in s.owner && f < |s.mem| && s.owner[f].Leaf? ==>
          s'.owner[f] == s.owner[f] && s'.mem[f] == s.mem[f]
  }

  lemma StillCopied(s0: State, s: State, s': State, p: nat, c: nat, v: nat)
    requires PageCopied(s0, s, p, c, v) && LeavesKept(s, s') && Lookup(s'.mem, c, v) == Lookup(s.mem, c, v)
    ensures PageCopied(s0, s', p, c, v)
  {
    hide Lookup;
  }

  lemma AllStillCopied(s0: State, s: State, s': State, p: nat, c: nat, n: nat)
    requires forall v :: 0 <= v < n ==> PageCopied(s0, s, p, c, v)
    requires LeavesKept(s, s') && forall v :: 0 <= v < n ==> Lookup(s'.mem, c, v) == Lookup(s.mem, c, v)
    ensures forall v :: 0 <= v < n ==> PageCopied(s0, s', p, c, v)
  {
    forall v | 0 <= v < n
      ensures PageCopied(s0, s', p, c, v)
    {
      StillCopied(s0, s, s', p, c, v);
    }
  }

  lemma JustCopied(s0: State, s': State, p: nat, c: nat, v: nat, w: nat, g: nat)
    requires Lookup(s0.mem, p, v) == Some(w) && V(w) && Ppn(w) < |s0.mem|
    requires Lookup(s'.mem, c, v) == Some(Pte(g, Flags(w))) && g in s'.owner && OwnedBy(s'.owner[g], c, v, 1)
    requires g < |s'.mem| && s'.mem[g] == s0.mem[Ppn(w)]
    ensures PageCopied(s0, s', p, c, v)
  {
    PteSameFlags(g, w);
    hide Lookup, Pte, Ppn, Flags, V;
  }

  /** One more page is copied. */
  lemma CopyStep(s0: State, s: State, s2: State, s3: State, p: nat, c: nat, n: nat, N: nat, g: nat, w: nat)
    requires CanCopy(s0, p, c, N) && DomOk(s) && Copied(s0, s, p, c, n) && n < N
    requires Lookup(s0.mem, p, n) == Some(w) && Ppn(w) < |s.mem| && s.mem[Ppn(w)] == s0.mem[Ppn(w)]
    requires V(w) && Prepared(s, s2, g, s.mem[Ppn(w)]) && PageMapped(s2, s3, c, n, g, Flags(w), true)
    ensures Copied(s0, s3, p, c, n + 1)
  {
    hide Wf, Lookup, PageCopied, MapsTo, Prepared, Pte, Ppn, Flags, V;
    CopyOwnersStep(s0, s, s2, s3, c, n, g, s.mem[Ppn(w)], Flags(w));
    CopyContents(s, s2, s3, c, n, g, s.mem[Ppn(w)], Flags(w));
    CopyLookupStep(s0, s, s2, s3, c, n, g, s.mem[Ppn(w)], Flags(w));
    JustCopied(s0, s3, p, c, n, w, g);
    AllStillCopied(s0, s, s3, p, c, n);
    hide SameButTables, CopyOwners, OthersKept, LeavesKept;
  }

  /** An unmapped page of the parent needs no copy. */
  lemma CopySkip(s0: State, s: State, p: nat, c: nat, n: nat, N: nat)
    requires CanCopy(s0, p, c, N) && Copied(s0, s, p, c, n) && n < N && Lookup(s0.mem, p, n) == None
    ensures Copied(s0, s, p, c, n + 1)
  {
    hide Wf, Lookup, SameButTables;
    assert Lookup(s.mem, c, n) == None;
    assert PageCopied(s0, s, p, c, n);
  }

  /** The frame of a page that could not be mapped goes back; the copied pages are not touched. */
  lemma CopyFail(s0: State, s: State, s2: State, s3: State, p: nat, c: nat, n: nat, N: nat, g: nat, page: Page)
    requires CanCopy(s0, p, c, N) && Copied(s0, s, p, c, n) && n <= N
    requires Prepared(s, s2, g, page) && Grown(s2, s3, c) && Wf(s3)
    ensures g in s3.owner && s3.owner[g] == Held && g < |s3.mem|
    ensures Copied(s0, Pushed(s3, g), p, c, n)
  {
    var s4 := Pushed(s3, g);
    CopyFailOwners(s0, s, s2, s3, c, n, g, page);
    CopyFailLookup(s0, s, s2, s3, c, n, g, page);
    hide Wf, Lookup, PageCopied, Prepared, Grown, Pushed, SameButTables, CopyOwners, OthersKept;
    AllStillCopied(s0, s, s4, p, c, n);
  }

  lemma CopyFailOwners(s0: State, s: State, s2: State, s3: State, c: nat, n: nat, g: nat, page: Page)
    requires SameButTables(s0, s, c) && CopyOwners(s0, s, c, n)
    requires Prepared(s, s2, g, page) && Grown(s2, s3, c) && Wf(s3)
    ensures g in s3.owner && s3.owner[g] == Held && g < |s3.mem|
    ensures SameButTables(s0, Pushed(s3, g), c) && CopyOwners(s0, Pushed(s3, g), c, n) && LeavesKept(s, Pushed(s3, g))
  {
    hide FreeOk, Down, Up, LeafOk, Lookup;
  }

  lemma CopyFailLookup(s0: State, s: State, s2: State, s3: State, c: nat, n: nat, g: nat, page: Page)
    requires SameButTables(s0, s, c) && CopyOwners(s0, s, c, n) && OthersKept(s0, s, c, n) && IsRoot(s0, c)
    requires Prepared(s, s2, g, page) && Grown(s2, s3, c) && Wf(s3)
    requires g in s3.owner && s3.owner[g] == Held && g < |s3.mem|
    ensures OthersKept(s0, Pushed(s3, g), c, n)
    ensures forall v :: 0 <= v < n && v < MAXVPN ==> Lookup(Pushed(s3, g).mem, c, v) == Lookup(s.mem, c, v)
  {
    PushedLookup(s3, g);
    hide Wf, Lookup, Missing, Pushed;
    GrownKeys(s2, s3, c);
    assert forall q :: IsRoot(s0, q) ==> IsRoot(s, q) && IsRoot(s2, q) by { SameKeys(s0, s, c); }
    hide SameButTables;
  }

  /** A failed copy has changed no translation, and no owner but of free frames that became tables of c. */
  ghost predicate CopyUndone(s0: State, s: State, c: nat) {
    && SameButTables(s0, s, c) && OwnersGrown(s0, s, c)
    && forall q, v :: IsRoot(s0, q) && 0 <= v < MAXVPN ==> Lookup(s.mem, q, v) == Lookup(s0.mem, q, v)
  }

  lemma CopyUndoOwners(s0: State, s: State, s': State, c: nat, n: nat)
    requires SameButTables(s0, s, c) && CopyOwners(s0, s, c, n) && OwnNone(s0, c, 0, n)
    requires SameButTables(s, s', c) && OwnersCleared(s, s', c, 0, n, true)
    ensures SameButTables(s0, s', c) && OwnersGrown(s0, s', c)
  {
  }

  lemma CopyUndo(s0: State, s: State, s': State, p: nat, c: nat, n: nat, N: nat)
    requires CanCopy(s0, p, c, N) && Copied(s0, s, p, c, n) && n <= N
    requires PagesCleared(s, s', c, 0, n, true)
    ensures CopyUndone(s0, s', c)
  {
    hide Wf, Lookup, Missing, PageCopied, OwnPage, OwnersCleared, OwnersGrown;
    UnmappedOwnsNone(s0, c, 0, N);
    assert OwnNone(s0, c, 0, n);
    CopyUndoOwners(s0, s, s', c, n);
    assert forall q :: IsRoot(s0, q) ==> IsRoot(s, q) by { SameKeys(s0, s, c); }
    hide SameButTables, CopyOwners, OwnNone;
  }

  lemma CopiedOwn(s0: State, s: State, p: nat, c: nat, n: nat)
    requires Copied(s0, s, p, c, n)
    ensures forall v :: 0 <= v < n ==> OwnPage(s, c, v)
  {
    hide Lookup, SameButTables, OthersKept, CopyOwners;
    forall v | 0 <= v < n
      ensures OwnPage(s, c, v)
    {
      assert PageCopied(s0, s, p, c, v);
    }
  }
}
