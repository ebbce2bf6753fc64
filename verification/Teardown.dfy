/** Freeing a page-table tree: what is true between two rounds of freewalk. */
module Teardown {
  import opened Words
  import opened PageTables
  import opened Translation
  import opened Changes

  predicate ChildOf(o: Owner, t: nat) { o.Node? && o.level < 2 && o.parent == t }

  /** f is a table below t: its child, or the child of its child, under one of its first n entries. */
  predicate Below(owner: map<nat, Owner>, f: nat, t: nat, n: nat)
    requires f in owner
  {
    || (ChildOf(owner[f], t) && owner[f].pre % 512 < n)
    || (owner[f].Node? && owner[f].level < 2 && owner[f].parent in owner && ChildOf(owner[owner[f].parent], t)
        && owner[owner[f].parent].pre % 512 < n)
  }

  /** The level-0 tables of root r have no valid entry left. */
  ghost predicate NoLeaves(s: State, r: nat)
    requires DomOk(s)
  {
    forall f, i {:trigger s.mem[f][i]} ::
      f in s.owner && IsTable(s.owner[f]) && s.owner[f].root == r && s.owner[f].level == 0 && 0 <= i < 512
      ==> !V(s.mem[f][i])
  }

  /** Frames that were and are in use keep their contents, but for t. */
  ghost predicate Untouched(s0: State, s: State, t: nat) {
    && s.lo == s0.lo && |s.mem| == |s0.mem| && s.owner.Keys == s0.owner.Keys
    && (forall f :: 0 <= f < |s0.mem| && f != t
          && (f in s0.owner && f in s.owner ==> !s0.owner[f].Free? && !s.owner[f].Free?)
          ==> s.mem[f] == s0.mem[f])
  }

  /** freewalk(t) has dealt with the first n entries of t. */
  ghost predicate Torn(s0: State, s: State, t: nat, n: nat) {
    && Untouched(s0, s, t) && t in s0.owner && s0.owner[t].Dying? && t < |s.mem|
    && s.owner.Keys == s0.owner.Keys
    && s.owner[t] == Dying(s0.owner[t].root, s0.owner[t].level, s0.owner[t].pre, n)
    && (forall f :: f in s0.owner && f in s.owner && f != t ==>
          s.owner[f] == if Below(s0.owner, f, t, n) then Free else s0.owner[f])
    && (forall j :: n <= j < 512 ==> s.mem[t][j] == s0.mem[t][j])
  }

  /** freewalk(t) is done: t and the tables below it are free, nothing else is. */
  ghost predicate TreeFreed(s0: State, s: State, t: nat) {
    && Untouched(s0, s, t)
    && forall f :: f in s0.owner && f in s.owner ==>
         s.owner[f] == if f == t || Below(s0.owner, f, t, 512) then Free else s0.owner[f]
  }

  lemma NothingTorn(s: State, t: nat)
    requires DomOk(s) && t in s.owner && s.owner[t].Dying? && s.owner[t].cut == 0
    ensures Torn(s, s, t, 0)
  {
  }

  lemma TornDom(s0: State, s: State, t: nat, n: nat)
    requires Torn(s0, s, t, n)
    ensures t in s.owner && t < |s.mem| && s.owner[t].Dying? && s.owner.Keys == s0.owner.Keys
    ensures s.owner[t].root == s0.owner[t].root && s.owner[t].level == s0.owner[t].level
    ensures s.owner[t].pre == s0.owner[t].pre
    ensures s.owner[t].cut == n && forall j :: n <= j < 512 ==> s.mem[t][j] == s0.mem[t][j]
  {
  }

  lemma TornNoLeaves(s0: State, s: State, t: nat, n: nat)
    requires DomOk(s0) && DomOk(s) && Torn(s0, s, t, n) && NoLeaves(s0, s0.owner[t].root) && s0.owner[t].level > 0
    ensures NoLeaves(s, s0.owner[t].root)
  {
    forall f, i | f in s.owner && IsTable(s.owner[f]) && s.owner[f].root == s0.owner[t].root
                  && s.owner[f].level == 0 && 0 <= i < 512
      ensures !V(s.mem[f][i])
    {
      assert f != t && s.owner[f] == s0.owner[f];
      assert s.mem[f][i] == s0.mem[f][i];
    }
  }

  /** The child of t at index i is the one the entry points to. */
  lemma OnlyChild(s: State, t: nat, i: nat, h: nat)
    requires Core(s) && t in s.owner && IsTable(s.owner[t]) && h in s.owner && ChildOf(s.owner[h], t)
    requires s.owner[h].pre % 512 == i
    ensures V(s.mem[t][i]) && Ppn(s.mem[t][i]) == h
  {
    assert UpAt(s, h);
    hide FreeOk, Down, Up, LeafOk;
    PteParts(h, 0);
  }

  /** An entry of a dying table that is not valid is passed over. */
  function Passed(s: State, t: nat): State
    requires t in s.owner && s.owner[t].Dying?
  {
    State(s.lo, s.mem,
          s.owner[t := Dying(s.owner[t].root, s.owner[t].level, s.owner[t].pre, s.owner[t].cut + 1)], s.fl)
  }

  lemma PassedUp(s: State, t: nat)
    requires Core(s) && t in s.owner && s.owner[t].Dying? && s.owner[t].cut < 512 && !V(s.mem[t][s.owner[t].cut])
    ensures Up(Passed(s, t))
  {
    var s' := Passed(s, t);
    forall h | h in s'.owner ensures UpAt(s', h) {
      assert UpAt(s, h);
      if h != t && ChildOf(s.owner[h], t) && s.owner[h].pre % 512 == s.owner[t].cut {
        OnlyChild(s, t, s.owner[t].cut, h);
      }
    }
  }

  lemma PassedCore(s: State, t: nat)
    requires Core(s) && t in s.owner && s.owner[t].Dying? && s.owner[t].cut < 512 && !V(s.mem[t][s.owner[t].cut])
    ensures Core(Passed(s, t))
  {
    var s' := Passed(s, t);
    PassedUp(s, t);
    hide Up;
    forall h | h in s'.owner && s'.owner[h].Leaf? ensures LeafAt(s', h) {
      assert LeafAt(s, h);
    }
    forall h, j | h in s'.owner && IsTable(s'.owner[h]) && s'.owner[h].level > 0 && 0 <= j < 512
                  && (s'.owner[h].Dying? ==> s'.owner[h].cut <= j) && V(s'.mem[h][j])
      ensures DownAt(s', h, j)
    {
      assert s.mem[h][j] == s'.mem[h][j];
      assert DownAt(s, h, j);
    }
  }

  /** Under an entry that is not valid there is no table. */
  lemma NothingUnder(s0: State, t: nat, n: nat, f: nat)
    requires Core(s0) && t in s0.owner && s0.owner[t].Dying? && n < 512 && !V(s0.mem[t][n]) && f in s0.owner && f != t
    requires s0.owner[t].cut == 0
    ensures Below(s0.owner, f, t, n + 1) <==> Below(s0.owner, f, t, n)
  {
    if Below(s0.owner, f, t, n + 1) {
      var h := if ChildOf(s0.owner[f], t) && s0.owner[f].pre % 512 < n + 1 then f else s0.owner[f].parent;
      if s0.owner[h].pre % 512 == n {
        OnlyChild(s0, t, n, h);
      }
    }
  }

  lemma PassedTorn(s0: State, s: State, t: nat, n: nat)
    requires Core(s0) && Torn(s0, s, t, n) && n < 512 && !V(s0.mem[t][n]) && s0.owner[t].cut == 0
    ensures Torn(s0, Passed(s, t), t, n + 1)
  {
    hide FreeOk, Down, Up, LeafOk, Below, Untouched;
    forall f | f in s0.owner && f != t
      ensures Below(s0.owner, f, t, n + 1) <==> Below(s0.owner, f, t, n)
    {
      NothingUnder(s0, t, n, f);
    }
    PassedUntouched(s0, s, t);
  }

  lemma PassedUntouched(s0: State, s: State, t: nat)
    requires Untouched(s0, s, t) && t in s.owner && s.owner[t].Dying?
    ensures Untouched(s0, Passed(s, t), t)
  {
  }

  /** freewalk enters the table under the current entry. */
  function Entering(s: State, t: nat, g: nat): State
    requires t in s.owner && s.owner[t].Dying? && g in s.owner && s.owner[g].Node?
  {
    State(s.lo, s.mem,
          s.owner[t := Dying(s.owner[t].root, s.owner[t].level, s.owner[t].pre, s.owner[t].cut + 1)]
                 [g := Dying(s.owner[g].root, s.owner[g].level, s.owner[g].pre, 0)], s.fl)
  }

  ghost predicate CanEnter(s: State, t: nat, g: nat)
    requires DomOk(s)
  {
    && t in s.owner && s.owner[t].Dying? && s.owner[t].cut < 512 && s.owner[t].level > 0
    && V(s.mem[t][s.owner[t].cut]) && g == Ppn(s.mem[t][s.owner[t].cut])
    && g in s.owner
    && s.owner[g] == Node(s.owner[t].root, s.owner[t].level - 1, s.owner[t].pre * 512 + s.owner[t].cut, t)
    && NoLeaves(s, s.owner[t].root)
  }

  lemma EnteringUp(s: State, t: nat, g: nat)
    requires Core(s) && CanEnter(s, t, g)
    ensures Up(Entering(s, t, g))
  {
    var s' := Entering(s, t, g);
    assert UpAt(s, g);
    forall h | h in s'.owner ensures UpAt(s', h) {
      assert UpAt(s, h);
      if h != t && ChildOf(s.owner[h], t) && s.owner[h].pre % 512 == s.owner[t].cut {
        OnlyChild(s, t, s.owner[t].cut, h);
      }
    }
  }

  lemma EnteringDown(s: State, t: nat, g: nat)
    requires Core(s) && CanEnter(s, t, g)
    ensures Down(Entering(s, t, g))
  {
    hide FreeOk, Up, LeafOk;
    var s' := Entering(s, t, g);
    forall h, j | h in s'.owner && IsTable(s'.owner[h]) && s'.owner[h].level > 0 && 0 <= j < 512
                  && (s'.owner[h].Dying? ==> s'.owner[h].cut <= j) && V(s'.mem[h][j])
      ensures DownAt(s', h, j)
    {
      assert s.mem[h][j] == s'.mem[h][j];
      assert DownAt(s, h, j);
      assert Ppn(s.mem[h][j]) != t && (Ppn(s.mem[h][j]) == g ==> h == t);
    }
  }

  lemma EnteringLeaves(s: State, t: nat, g: nat)
    requires Core(s) && CanEnter(s, t, g)
    ensures DomOk(Entering(s, t, g)) && FreeOk(Entering(s, t, g)) && LeafOk(Entering(s, t, g))
  {
    hide Up, Down;
    var s' := Entering(s, t, g);
    forall h | h in s'.owner && s'.owner[h].Leaf? ensures LeafAt(s', h) {
      assert LeafAt(s, h);
    }
  }

  lemma EnteringNone(s: State, t: nat, g: nat)
    requires Core(s) && CanEnter(s, t, g) && DomOk(Entering(s, t, g))
    ensures NoLeaves(Entering(s, t, g), s.owner[t].root)
  {
    hide FreeOk, Up, Down, LeafOk;
    var s' := Entering(s, t, g);
    forall f, i | f in s'.owner && IsTable(s'.owner[f]) && s'.owner[f].root == s.owner[t].root
                  && s'.owner[f].level == 0 && 0 <= i < 512
      ensures !V(s'.mem[f][i])
    {
      assert s.mem[f][i] == s'.mem[f][i];
    }
  }

  lemma EnteringCore(s: State, t: nat, g: nat)
    requires Core(s) && CanEnter(s, t, g)
    ensures Core(Entering(s, t, g)) && NoLeaves(Entering(s, t, g), s.owner[t].root)
  {
    EnteringUp(s, t, g);
    EnteringDown(s, t, g);
    EnteringLeaves(s, t, g);
    EnteringNone(s, t, g);
  }

  /** The current entry of t, which the cut has already passed, is cleared. */
  lemma ErasedCore(s: State, t: nat, i: nat)
    requires Core(s) && t in s.owner && s.owner[t].Dying? && i < 512 && i < s.owner[t].cut
    ensures Core(Stored(s, t, i, 0))
  {
    var s' := Stored(s, t, i, 0);
    forall h | h in s'.owner ensures UpAt(s', h) {
      assert UpAt(s, h);
    }
    ErasedRest(s, t, i);
  }

  lemma ErasedRest(s: State, t: nat, i: nat)
    requires Core(s) && t in s.owner && s.owner[t].Dying? && i < 512 && i < s.owner[t].cut
    ensures var s' := Stored(s, t, i, 0); DomOk(s') && FreeOk(s') && Down(s') && LeafOk(s')
  {
    var s' := Stored(s, t, i, 0);
    hide Up;
    forall h | h in s'.owner && s'.owner[h].Leaf? ensures LeafAt(s', h) {
      assert LeafAt(s, h);
    }
    forall h, j | h in s'.owner && IsTable(s'.owner[h]) && s'.owner[h].level > 0 && 0 <= j < 512
                  && (s'.owner[h].Dying? ==> s'.owner[h].cut <= j) && V(s'.mem[h][j])
      ensures DownAt(s', h, j)
    {
      assert s.mem[h][j] == s'.mem[h][j];
      assert DownAt(s, h, j);
    }
  }

  lemma TornOf(s0: State, s: State, t: nat, n: nat)
    requires Torn(s0, s, t, n)
    ensures t in s0.owner && s0.owner[t].Dying?
  {
  }

  lemma UntouchedKeys(s0: State, s: State, t: nat)
    requires Untouched(s0, s, t)
    ensures s.owner.Keys == s0.owner.Keys && |s.mem| == |s0.mem|
  {
  }

  /** Freeing the child and clearing its entry is one more entry dealt with. */
  lemma ChildTorn(s0: State, s: State, s1: State, t: nat, n: nat, g: nat)
    requires Core(s0) && Core(s) && Torn(s0, s, t, n) && n < 512 && CanEnter(s, t, g)
    requires TreeFreed(Entering(s, t, g), s1, g)
    ensures Torn(s0, Stored(s1, t, n, 0), t, n + 1)
  {
    hide FreeOk, Down, Up, LeafOk, Below, Untouched, TreeFreed, Entering;
    TornOf(s0, s, t, n);
    ChildOwners(s0, s, s1, t, n, g);
    ChildUntouched(s0, s, s1, t, n, g);
    UntouchedKeys(s0, Stored(s1, t, n, 0), t);
  }

  lemma ChildUntouched(s0: State, s: State, s1: State, t: nat, n: nat, g: nat)
    requires DomOk(s0) && DomOk(s) && Torn(s0, s, t, n) && n < 512 && CanEnter(s, t, g)
    requires TreeFreed(Entering(s, t, g), s1, g) && t in s1.owner && s1.owner[t].Dying?
    ensures Untouched(s0, Stored(s1, t, n, 0), t) && t < |s1.mem|
    ensures forall j :: n + 1 <= j < 512 ==> s1.mem[t][j] == s0.mem[t][j]
  {
    hide Below, NoLeaves;
    var s2 := Stored(s1, t, n, 0);
    forall f | 0 <= f < |s0.mem| && f != t
               && (f in s0.owner && f in s2.owner ==> !s0.owner[f].Free? && !s2.owner[f].Free?)
      ensures s2.mem[f] == s0.mem[f]
    {
      ChildFrame(s0, s, s1, t, n, g, f);
    }
  }

  /** A frame that was and is in use. */
  lemma ChildFrame(s0: State, s: State, s1: State, t: nat, n: nat, g: nat, f: nat)
    requires DomOk(s0) && DomOk(s) && Torn(s0, s, t, n) && n < 512 && CanEnter(s, t, g)
    requires TreeFreed(Entering(s, t, g), s1, g) && f < |s0.mem| && f != t
    requires f in s0.owner && f in s1.owner ==> !s0.owner[f].Free? && !s1.owner[f].Free?
    ensures f < |s1.mem| && s1.mem[f] == s0.mem[f]
  {
    hide NoLeaves;
  }

  lemma InUse(s0: State, s: State, t: nat, n: nat, g: nat)
    requires Torn(s0, s, t, n) && g in s.owner && s.owner[g].Node?
    ensures g in s0.owner && s0.owner[g] == s.owner[g] && g != t
  {
  }

  lemma NotBelowChild(s: State, t: nat, g: nat)
    requires DomOk(s) && CanEnter(s, t, g)
    ensures !Below(Entering(s, t, g).owner, t, g, 512)
  {
  }

  lemma ChildOwners(s0: State, s: State, s1: State, t: nat, n: nat, g: nat)
    requires Core(s0) && Core(s) && Torn(s0, s, t, n) && n < 512 && CanEnter(s, t, g)
    requires TreeFreed(Entering(s, t, g), s1, g)
    ensures t in s1.owner && s1.owner[t] == Dying(s0.owner[t].root, s0.owner[t].level, s0.owner[t].pre, n + 1)
    ensures forall f :: f in s0.owner && f in s1.owner && f != t ==>
              s1.owner[f] == if Below(s0.owner, f, t, n + 1) then Free else s0.owner[f]
  {
    hide FreeOk, Down, Up, LeafOk, NoLeaves, Untouched, Below;
    assert g in s0.owner && s0.owner[g] == s.owner[g] && g != t by { InUse(s0, s, t, n, g); }
    NotBelowChild(s, t, g);
    UntouchedKeys(Entering(s, t, g), s1, g);
    forall f | f in s0.owner && f in s1.owner && f != t
      ensures s1.owner[f] == if Below(s0.owner, f, t, n + 1) then Free else s0.owner[f]
    {
      ChildOwner(s0, s, t, n, g, f);
    }
  }

  /** What becomes of one frame f when the child g at entry n is freed. */
  lemma ChildOwner(s0: State, s: State, t: nat, n: nat, g: nat, f: nat)
    requires Core(s0) && Core(s) && Torn(s0, s, t, n) && n < 512 && CanEnter(s, t, g)
    requires f in s0.owner && f in s.owner && f != t && g != t
    ensures Below(s0.owner, f, t, n + 1) <==>
            Below(s0.owner, f, t, n) || f == g || Below(Entering(s, t, g).owner, f, g, 512)
  {
    var e := Entering(s, t, g).owner;
    assert UpAt(s0, f);
    if s0.owner[f].Node? && s0.owner[f].level < 2 {
      var p := s0.owner[f].parent;
      assert UpAt(s0, p);
      if ChildOf(s0.owner[f], t) && s0.owner[f].pre % 512 == n {
        OnlyChild(s0, t, n, f);
      }
      if ChildOf(s0.owner[p], t) && s0.owner[p].pre % 512 == n {
        OnlyChild(s0, t, n, p);
      }
    }
    hide FreeOk, Down, Up, LeafOk, NoLeaves;
  }

  /** An entry that is not a pointer is not valid. */
  lemma NotALeaf(s0: State, s: State, t: nat, i: nat)
    requires Core(s0) && Core(s) && Torn(s0, s, t, i) && i < 512 && NoLeaves(s0, s0.owner[t].root)
    requires !V(s.mem[t][i]) || R(s.mem[t][i]) || W(s.mem[t][i]) || X(s.mem[t][i])
    ensures !V(s.mem[t][i]) && !V(s0.mem[t][i])
  {
    hide FreeOk, Up, LeafOk, Below;
    assert s.mem[t][i] == s0.mem[t][i];
    if V(s.mem[t][i]) && s.owner[t].level > 0 {
      assert DownAt(s, t, i);
      PointerBits(Ppn(s.mem[t][i]));
    }
  }

  /** A valid entry is a pointer to a table that freewalk may enter. */
  lemma EnterReady(s0: State, s: State, t: nat, i: nat)
    requires Core(s0) && Core(s) && Torn(s0, s, t, i) && i < 512 && NoLeaves(s0, s0.owner[t].root)
    requires V(s.mem[t][i])
    ensures CanEnter(s, t, Ppn(s.mem[t][i]))
    ensures s.owner[t] == Dying(s0.owner[t].root, s0.owner[t].level, s0.owner[t].pre, i)
  {
    hide FreeOk, Up, LeafOk, Below;
    assert s.mem[t][i] == s0.mem[t][i];
    assert s0.owner[t].level > 0;
    TornNoLeaves(s0, s, t, i);
    assert DownAt(s, t, i);
  }

  lemma TornDone(s0: State, s: State, t: nat)
    requires Torn(s0, s, t, 512)
    ensures t in s.owner && Freeable(s.owner[t]) && t < |s.mem| && TreeFreed(s0, Pushed(s, t), t)
  {
    hide Below;
  }

  /** freewalk is called on the root of a process whose leaves are gone. */
  function Doomed(s: State, r: nat): State {
    State(s.lo, s.mem, s.owner[r := Dying(r, 2, 0, 0)], s.fl)
  }

  lemma DoomedUp(s: State, r: nat)
    requires Wf(s) && IsRoot(s, r)
    ensures Up(Doomed(s, r)) && Down(Doomed(s, r))
  {
    var s' := Doomed(s, r);
    assert UpAt(s, r);
    forall h | h in s'.owner ensures UpAt(s', h) {
      assert UpAt(s, h);
    }
    forall h, j | h in s'.owner && IsTable(s'.owner[h]) && s'.owner[h].level > 0 && 0 <= j < 512
                  && (s'.owner[h].Dying? ==> s'.owner[h].cut <= j) && V(s'.mem[h][j])
      ensures DownAt(s', h, j)
    {
      assert s.mem[h][j] == s'.mem[h][j];
      assert DownAt(s, h, j);
    }
  }

  lemma DoomedFree(s: State, r: nat)
    requires DomOk(s) && FreeOk(s) && IsRoot(s, r)
    ensures DomOk(Doomed(s, r)) && FreeOk(Doomed(s, r))
  {
  }

  lemma DoomedCore(s: State, r: nat)
    requires Wf(s) && IsRoot(s, r) && forall v :: 0 <= v < MAXVPN ==> Lookup(s.mem, r, v) == None
    ensures Core(Doomed(s, r)) && NoLeaves(Doomed(s, r), r)
  {
    var s' := Doomed(s, r);
    DoomedUp(s, r);
    hide FreeOk, Up, Down;
    assert LeafOk(s') by {
      forall h | h in s'.owner && s'.owner[h].Leaf? ensures LeafAt(s', h) {
        assert LeafAt(s, h);
      }
    }
    DoomedFree(s, r);
    hide LeafOk, Lookup;
    forall f, i | f in s'.owner && IsTable(s'.owner[f]) && s'.owner[f].root == r
                  && s'.owner[f].level == 0 && 0 <= i < 512
      ensures !V(s'.mem[f][i])
    {
      LookupAt(s, f, s.owner[f].pre * 512 + i);
    }
  }

  /** Exactly the tables of root r became free, and no other root translates differently. */
  ghost predicate TreeGone(s: State, s': State, r: nat) {
    && Wf(s') && s'.lo == s.lo && |s'.mem| == |s.mem| && s'.owner.Keys == s.owner.Keys
    && (forall f :: f in s.owner && f in s'.owner ==>
          s'.owner[f] == if s.owner[f].Node? && s.owner[f].root == r then Free else s.owner[f])
    && (forall f :: 0 <= f < |s.mem| && (f in s.owner && f in s'.owner ==> !s.owner[f].Free? && !s'.owner[f].Free?)
          ==> s'.mem[f] == s.mem[f])
    && (forall q, v :: IsRoot(s, q) && q != r && 0 <= v < MAXVPN ==>
          Lookup(s'.mem, q, v) == Lookup(s.mem, q, v) && Missing(s'.mem, q, v) == Missing(s.mem, q, v))
  }

  lemma BelowRoot(s: State, r: nat, f: nat)
    requires Wf(s) && IsRoot(s, r) && f in s.owner
    ensures f == r || Below(Doomed(s, r).owner, f, r, 512) <==> s.owner[f].Node? && s.owner[f].root == r
  {
    assert UpAt(s, f) && UpAt(s, r);
    if s.owner[f].Node? && s.owner[f].level < 2 {
      var p := s.owner[f].parent;
      assert UpAt(s, p);
      if s.owner[p].level < 2 {
        assert UpAt(s, s.owner[p].parent);
      }
    }
  }

  lemma GoneOwners(s: State, s': State, r: nat)
    requires Wf(s) && IsRoot(s, r) && TreeFreed(Doomed(s, r), s', r) && Core(s')
    ensures forall f :: f in s.owner && f in s'.owner ==>
          s'.owner[f] == if s.owner[f].Node? && s.owner[f].root == r then Free else s.owner[f]
    ensures Wf(s')
  {
    forall f | f in s.owner && f in s'.owner
      ensures s'.owner[f] == if s.owner[f].Node? && s.owner[f].root == r then Free else s.owner[f]
    {
      BelowRoot(s, r, f);
    }
    hide Core, Below;
  }

  lemma GoneTree(s: State, s': State, r: nat)
    requires Wf(s) && IsRoot(s, r) && TreeFreed(Doomed(s, r), s', r) && Core(s')
    ensures TreeGone(s, s', r)
  {
    GoneOwners(s, s', r);
    hide Core, Lookup, Missing, Below;
    forall q | IsRoot(s, q) && q != r
      ensures forall v :: 0 <= v < MAXVPN ==>
                Lookup(s'.mem, q, v) == Lookup(s.mem, q, v) && Missing(s'.mem, q, v) == Missing(s.mem, q, v)
    {
      GoneOther(s, s', r, q);
    }
  }

  lemma GoneOther(s: State, s': State, r: nat, q: nat)
    requires Wf(s) && IsRoot(s, r) && IsRoot(s, q) && q != r
    requires TreeFreed(Doomed(s, r), s', r)
    requires forall f :: f in s.owner && f in s'.owner ==>
               s'.owner[f] == if s.owner[f].Node? && s.owner[f].root == r then Free else s.owner[f]
    ensures forall v :: 0 <= v < MAXVPN ==>
              Lookup(s'.mem, q, v) == Lookup(s.mem, q, v) && Missing(s'.mem, q, v) == Missing(s.mem, q, v)
  {
    hide FreeOk, Down, Up, LeafOk, Lookup, Missing, Below;
    LookupKept(s, s'.mem, q);
  }

  lemma GoneWf(s: State, s': State, r: nat)
    requires TreeGone(s, s', r)
    ensures Wf(s') && s'.owner.Keys == s.owner.Keys
    ensures forall q :: IsRoot(s, q) && q != r && s.owner[q].root == q ==> IsRoot(s', q)
  {
    hide Wf, Lookup, Missing;
  }
}
