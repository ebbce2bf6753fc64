/** What the operations on frames and page tables change, as relations between two states. */
module Changes {
  import opened Words
  import opened PageTables
  import opened Translation

  function Min(a: nat, b: nat): nat { if a < b then a else b }

  function HeadPtr(fl: seq<nat>): nat { if fl == [] then 0 else fl[0] * PGSIZE }

  /** The head of the free list, as memory has it. */
  lemma HeadFacts(s: State)
    requires Core(s)
    ensures HeadPtr(s.fl) == 0 <==> s.fl == []
    ensures s.fl != [] ==> var f := s.fl[0];
              && f in s.owner && s.owner[f] == Free && 0 < f < |s.mem| && HeadPtr(s.fl) / PGSIZE == f
              && s.mem[f][0] == HeadPtr(s.fl[1..])
  {
    hide Down, Up, LeafOk;
  }

  /** Memory and owners are as before, but for free frames and the tables of root r. */
  ghost predicate SameButTables(s: State, s': State, r: nat) {
    && s'.lo == s.lo && |s'.mem| == |s.mem| && s'.owner.Keys == s.owner.Keys
    && (forall f :: 0 <= f < |s.mem| && (f in s.owner ==>
          !s.owner[f].Free? && !s'.owner[f].Free? && !(s.owner[f].Node? && s.owner[f].root == r))
          ==> s'.mem[f] == s.mem[f])
  }

  /** What allocating tables for root r may do: free frames become tables of r, and
      no translation of any root changes. */
  ghost predicate Grown(s: State, s': State, r: nat) {
    && SameButTables(s, s', r)
    && (forall f :: f in s.owner ==>
          s'.owner[f] == s.owner[f] || (s.owner[f].Free? && s'.owner[f].Node? && s'.owner[f].root == r))
    && (forall q, v :: IsRoot(s, q) && 0 <= v < MAXVPN ==> Lookup(s'.mem, q, v) == Lookup(s.mem, q, v))
  }

  lemma GrownRefl(s: State, r: nat)
    ensures Grown(s, s, r)
  {
  }

  lemma GrownTrans(s: State, s': State, s'': State, r: nat)
    requires Grown(s, s', r) && Grown(s', s'', r)
    ensures Grown(s, s'', r)
  {
    forall q, v | IsRoot(s, q) && 0 <= v < MAXVPN
      ensures Lookup(s''.mem, q, v) == Lookup(s.mem, q, v)
    {
      assert IsRoot(s', q);
    }
  }

  /** Pages v0 .. v0+k of root r now map consecutive frames; nothing else is translated differently. */
  ghost predicate MapsTo(s: State, s': State, r: nat, v0: nat, k: nat, frame: nat, perm: nat) {
    forall q, v :: IsRoot(s, q) && 0 <= v < MAXVPN ==>
      Lookup(s'.mem, q, v) == if q == r && v0 <= v < v0 + k then Some(Pte(frame + (v - v0), perm))
          else Lookup(s.mem, q, v)
  }

  /** Pages v0 .. v0+k of root r are unmapped now; nothing else is translated differently. */
  ghost predicate MapsNone(s: State, s': State, r: nat, v0: nat, k: nat) {
    forall q, v :: IsRoot(s, q) && 0 <= v < MAXVPN ==>
      && Missing(s'.mem, q, v) == Missing(s.mem, q, v)
      && Lookup(s'.mem, q, v) == if q == r && v0 <= v < v0 + k then None else Lookup(s.mem, q, v)
  }

  /** Owners are kept, but for free frames that became tables of r. */
  ghost predicate OwnersGrown(s: State, s': State, r: nat) {
    forall f :: f in s.owner && f in s'.owner ==>
      s'.owner[f] == s.owner[f] || (s.owner[f].Free? && s'.owner[f].Node? && s'.owner[f].root == r)
  }

  predicate OwnedBy(o: Owner, r: nat, v0: nat, k: nat) {
    o.Leaf? && o.root == r && v0 <= o.vpn < v0 + k
  }

  /** If the page is mapped, its frame belongs to it. */
  ghost predicate OwnPage(s: State, r: nat, v: nat) {
    var w := Lookup(s.mem, r, v);
    w.Some? ==> Ppn(w.value) in s.owner && OwnedBy(s.owner[Ppn(w.value)], r, v, 1)
  }

  /** The pages v0 .. v0+k of r own no frame. */
  ghost predicate OwnNone(s: State, r: nat, v0: nat, k: nat) {
    forall f :: f in s.owner ==> !OwnedBy(s.owner[f], r, v0, k)
  }

  lemma UnmappedOwnsNone(s: State, r: nat, v0: nat, k: nat)
    requires Wf(s) && forall v :: v0 <= v < v0 + k && v < MAXVPN ==> Lookup(s.mem, r, v) == None
    ensures OwnNone(s, r, v0, k)
  {
    hide Core;
    forall f | f in s.owner && s.owner[f].Leaf? && s.owner[f].root == r
      ensures !OwnedBy(s.owner[f], r, v0, k)
    {
      OwnedMapped(s, f);
    }
  }

  /** The step of mappages on one page, after walk: the entry is written and, when the frame
      was the caller's, it passes to the page. */
  function Entered(s: State, t: nat, vpn: nat, w: nat, own: bool): State
    requires t < |s.mem| && t in s.owner && s.owner[t].Node?
  {
    if own then Adopted(Stored(s, t, vpn % 512, w), t, vpn % 512) else Stored(s, t, vpn % 512, w)
  }

  ghost predicate EntryOf(s: State, r: nat, t: nat, vpn: nat) {
    && t in s.owner && s.owner[t].Node? && s.owner[t].root == r && s.owner[t].level == 0
    && s.owner[t].pre == vpn / 512
  }

  lemma EntryLoose(s: State, r: nat, t: nat, vpn: nat)
    requires Wf(s) && EntryOf(s, r, t, vpn) && OwnNone(s, r, vpn, 1)
    ensures Loose(s, t, vpn % 512)
  {
    hide Down, Up;
    forall f | f in s.owner && s.owner[f].Leaf? && s.owner[f].table == t
      ensures s.owner[f].vpn % 512 != vpn % 512
    {
      assert LeafAt(s, f);
    }
  }

  lemma EnteredWf(s: State, r: nat, t: nat, vpn: nat, frame: nat, perm: nat, own: bool)
    requires Wf(s) && EntryOf(s, r, t, vpn) && OwnNone(s, r, vpn, 1) && perm < 1024
    requires own ==> frame in s.owner && s.owner[frame] == Held
    ensures Wf(Entered(s, t, vpn, Pte(frame, perm), own))
    ensures SameButTables(s, Entered(s, t, vpn, Pte(frame, perm), own), r)
    ensures Entered(s, t, vpn, Pte(frame, perm), own).owner
            == if own then s.owner[frame := Leaf(r, vpn, t)] else s.owner
    ensures Entered(s, t, vpn, Pte(frame, perm), own).fl == s.fl
  {
    hide Down, Up, LeafOk;
    PteParts(frame, perm);
    EntryLoose(s, r, t, vpn);
    StoredCore(s, t, vpn % 512, Pte(frame, perm));
    if own {
      AdoptedCore(Stored(s, t, vpn % 512, Pte(frame, perm)), t, vpn % 512);
    }
  }

  lemma EnteredLookup(s: State, r: nat, t: nat, vpn: nat, frame: nat, perm: nat, own: bool)
    requires Wf(s) && EntryOf(s, r, t, vpn) && perm < 1024
    ensures MapsTo(s, Entered(s, t, vpn, Pte(frame, perm), own), r, vpn, 1, frame, perm)
  {
    hide Core;
    PteParts(frame, perm);
    LookupStored(s, t, vpn % 512, Pte(frame, perm));
  }

  lemma SameTrans(s: State, s': State, s'': State, r: nat)
    requires SameButTables(s, s', r) && OwnersGrown(s, s', r) && SameButTables(s', s'', r)
    ensures SameButTables(s, s'', r)
  {
  }

  /** What mapping one page changes in all, when frame belonged to the caller (own) or was borrowed. */
  ghost predicate PageMapped(s: State, s': State, r: nat, vpn: nat, frame: nat, perm: nat, own: bool) {
    && Wf(s') && SameButTables(s, s', r) && MapsTo(s, s', r, vpn, 1, frame, perm)
    && (if own then
          && frame in s'.owner && OwnedBy(s'.owner[frame], r, vpn, 1)
          && frame in s.owner && s.owner[frame] == Held
          && (forall f :: f in s.owner && f in s'.owner && f != frame ==>
                || s'.owner[f] == s.owner[f]
                || (s.owner[f].Free? && s'.owner[f].Node? && s'.owner[f].root == r))
        else OwnersGrown(s, s', r))
  }

  lemma MapsAfterGrown(s0: State, s1: State, s2: State, r: nat, v0: nat, k: nat, frame: nat, perm: nat)
    requires Grown(s0, s1, r) && MapsTo(s1, s2, r, v0, k, frame, perm)
    ensures MapsTo(s0, s2, r, v0, k, frame, perm)
  {
    GrownKeys(s0, s1, r);
    hide SameButTables;
  }

  lemma OwnersAfterGrown(s0: State, s1: State, s2: State, r: nat, t: nat, vpn: nat, frame: nat, perm: nat, own: bool)
    requires Grown(s0, s1, r) && Wf(s1) && EntryOf(s1, r, t, vpn) && perm < 1024 && OwnNone(s1, r, vpn, 1)
    requires own ==> frame in s0.owner && s0.owner[frame] == Held
    requires s2 == Entered(s1, t, vpn, Pte(frame, perm), own)
    requires MapsTo(s0, s2, r, vpn, 1, frame, perm)
    ensures PageMapped(s0, s2, r, vpn, frame, perm, own)
  {
    hide FreeOk, Down, Up, LeafOk, MapsTo, Entered;
    EnteredWf(s1, r, t, vpn, frame, perm, own);
    GrownKeys(s0, s1, r);
    SameTrans(s0, s1, s2, r);
    hide SameButTables;
  }

  lemma EnteredMaps(s0: State, s1: State, r: nat, t: nat, vpn: nat, frame: nat, perm: nat, own: bool)
    requires Wf(s0) && IsRoot(s0, r) && vpn < MAXVPN && perm < 1024 && Lookup(s0.mem, r, vpn) == None
    requires Grown(s0, s1, r) && Wf(s1) && EntryOf(s1, r, t, vpn)
    requires own ==> frame in s0.owner && s0.owner[frame] == Held
    ensures !V(s1.mem[t][vpn % 512])
    ensures PageMapped(s0, Entered(s1, t, vpn, Pte(frame, perm), own), r, vpn, frame, perm, own)
    ensures Wf(Entered(s1, t, vpn, Pte(frame, perm), own))
  {
    hide FreeOk, Down, Up, LeafOk, Lookup, Missing, Grown, Entered, MapsTo, PageMapped;
    GrownLookup(s0, s1, r, r, vpn);
    LookupAt(s1, t, vpn);
    UnmappedOwnsNone(s1, r, vpn, 1);
    EnteredLookup(s1, r, t, vpn, frame, perm, own);
    var s2 := Entered(s1, t, vpn, Pte(frame, perm), own);
    MapsAfterGrown(s0, s1, s2, r, vpn, 1, frame, perm);
    OwnersAfterGrown(s0, s1, s2, r, t, vpn, frame, perm, own);
    MappedWf(s0, s2, r, vpn, frame, perm, own);
  }

  lemma MappedWf(s: State, s': State, r: nat, vpn: nat, frame: nat, perm: nat, own: bool)
    requires PageMapped(s, s', r, vpn, frame, perm, own)
    ensures Wf(s') && s'.owner.Keys == s.owner.Keys && |s'.mem| == |s.mem| && s'.lo == s.lo
    ensures forall q :: IsRoot(s, q) ==> IsRoot(s', q)
  {
  }

  /** The two sides of mapping one page. */
  lemma MappedOnly(s: State, s': State, r: nat, vpn: nat, frame: nat, perm: nat, own: bool)
    requires PageMapped(s, s', r, vpn, frame, perm, own)
    ensures IsRoot(s, r) && vpn < MAXVPN ==> Lookup(s'.mem, r, vpn) == Some(Pte(frame, perm))
    ensures forall q, v :: IsRoot(s, q) && 0 <= v < MAXVPN && !(q == r && v == vpn) ==>
              Lookup(s'.mem, q, v) == Lookup(s.mem, q, v)
    ensures !own ==> OwnersGrown(s, s', r)
  {
    hide Wf, Lookup, SameButTables;
  }

  lemma GrownLookup(s: State, s': State, r: nat, q: nat, v: nat)
    requires Grown(s, s', r) && IsRoot(s, q) && v < MAXVPN
    ensures Lookup(s'.mem, q, v) == Lookup(s.mem, q, v)
  {
    hide SameButTables, Lookup;
  }

  lemma GrownKeys(s: State, s': State, r: nat)
    requires Grown(s, s', r)
    ensures s'.owner.Keys == s.owner.Keys && OwnersGrown(s, s', r) && |s'.mem| == |s.mem|
    ensures forall q :: IsRoot(s, q) ==> IsRoot(s', q)
  {
  }

  /** One round of walk with alloc: take a frame and hang it under entry i of t. */
  function Extended(s: State, t: nat, i: nat): State
    requires DomOk(s) && FreeOk(s) && s.fl != []
    requires t in s.owner && s.owner[t].Node? && s.owner[t].level > 0 && i < 512
  {
    Linked(Popped(s), t, i, s.fl[0])
  }

  lemma PoppedLookup(s: State)
    requires Wf(s) && s.fl != []
    ensures Wf(Popped(s))
    ensures forall q :: IsRoot(s, q) <==> IsRoot(Popped(s), q)
    ensures forall q, v :: IsRoot(s, q) && 0 <= v < MAXVPN ==>
              Lookup(Popped(s).mem, q, v) == Lookup(s.mem, q, v) && Missing(Popped(s).mem, q, v) == Missing(s.mem, q, v)
  {
    PoppedCore(s);
    assert s.owner[s.fl[0]] == Free;
    forall q, v | IsRoot(s, q) && 0 <= v < MAXVPN
      ensures Lookup(Popped(s).mem, q, v) == Lookup(s.mem, q, v) && Missing(Popped(s).mem, q, v) == Missing(s.mem, q, v)
    {
      LookupKept(s, Popped(s).mem, q);
    }
  }

  lemma ExtendedWf(s: State, r: nat, t: nat, vpn: nat)
    requires OnPath(s, r, t, vpn) && vpn < MAXVPN && s.fl != []
    requires s.owner[t].level > 0 && !V(s.mem[t][PX(s.owner[t].level, vpn)])
    ensures var s' := Extended(s, t, PX(s.owner[t].level, vpn));
            && Wf(s') && CanLink(Popped(s), t, PX(s.owner[t].level, vpn), s.fl[0])
            && OnPath(s', r, s.fl[0], vpn) && s'.owner[s.fl[0]].level == s.owner[t].level - 1
  {
    hide Down, Up, LeafOk;
    assert s.owner[s.fl[0]] == Free;
    PoppedCore(s);
    PreStep(s.owner[t].level, vpn);
    LinkedCore(Popped(s), t, PX(s.owner[t].level, vpn), s.fl[0]);
  }

  lemma ExtendedSame(s: State, t: nat, i: nat, vpn: nat)
    requires DomOk(s) && FreeOk(s) && s.fl != [] && t in s.owner && s.owner[t].Node?
    requires s.owner[t].level > 0 && i < 512
    ensures var s' := Extended(s, t, i);
            && SameButTables(s, s', s.owner[t].root)
            && (forall f :: f in s.owner ==>
                  || s'.owner[f] == s.owner[f]
                  || (s.owner[f].Free? && s'.owner[f].Node? && s'.owner[f].root == s.owner[t].root))
            && MissingFrom(s'.mem, s.fl[0], s.owner[t].level - 1, vpn) == s.owner[t].level - 1
  {
    assert s.owner[s.fl[0]] == Free;
    assert Extended(s, t, i).mem[s.fl[0]] == ZeroPage();
  }

  lemma ExtendedLookup(s: State, t: nat, i: nat)
    requires Wf(s) && s.fl != [] && CanLink(Popped(s), t, i, s.fl[0])
    ensures forall q, v :: IsRoot(s, q) && 0 <= v < MAXVPN ==>
              Lookup(Extended(s, t, i).mem, q, v) == Lookup(s.mem, q, v)
  {
    hide Down, Up, LeafOk;
    PoppedLookup(s);
    forall q, v | IsRoot(s, q) && 0 <= v < MAXVPN
      ensures Lookup(Extended(s, t, i).mem, q, v) == Lookup(s.mem, q, v)
    {
      assert IsRoot(Popped(s), q);
      RootOnPath(Popped(s), q, v);
      FromLinked(Popped(s), t, i, s.fl[0], q, q, v);
    }
  }

  lemma ExtendedGrown(s: State, r: nat, t: nat, vpn: nat)
    requires IsRoot(s, r) && OnPath(s, r, t, vpn) && vpn < MAXVPN && s.fl != []
    requires s.owner[t].level > 0 && !V(s.mem[t][PX(s.owner[t].level, vpn)])
    ensures var s' := Extended(s, t, PX(s.owner[t].level, vpn));
            && Wf(s') && Grown(s, s', r) && OnPath(s', r, s.fl[0], vpn)
            && s'.owner[s.fl[0]].level == s.owner[t].level - 1
            && MissingFrom(s'.mem, s.fl[0], s.owner[t].level - 1, vpn) == s.owner[t].level - 1
  {
    ExtendedWf(s, r, t, vpn);
    ExtendedLookup(s, t, PX(s.owner[t].level, vpn));
    ExtendedSame(s, t, PX(s.owner[t].level, vpn), vpn);
    hide Core, OnPath, Extended, SameButTables;
  }

  lemma PushedLookup(s: State, f: nat)
    requires Wf(s) && f in s.owner && IsData(s.owner[f])
    ensures Wf(Pushed(s, f))
    ensures forall q :: IsRoot(s, q) <==> IsRoot(Pushed(s, f), q)
    ensures forall q, v :: IsRoot(s, q) && 0 <= v < MAXVPN ==>
              && Lookup(Pushed(s, f).mem, q, v) == Lookup(s.mem, q, v)
              && Missing(Pushed(s, f).mem, q, v) == Missing(s.mem, q, v)
  {
    PushedCore(s, f);
    hide FreeOk, Down, Up, LeafOk, Lookup, Missing;
    forall q, v | IsRoot(s, q) && 0 <= v < MAXVPN
      ensures Lookup(Pushed(s, f).mem, q, v) == Lookup(s.mem, q, v)
      ensures Missing(Pushed(s, f).mem, q, v) == Missing(s.mem, q, v)
    {
      LookupKept(s, Pushed(s, f).mem, q);
    }
  }

  // ------------------------------------------------------------- unmapping

  /** Pages v0 .. v0+k of root r are gone. Frames they owned are free if free is set, else they are left
      to the caller. */
  ghost predicate PagesCleared(s: State, s': State, r: nat, v0: nat, k: nat, free: bool) {
    && Wf(s') && SameButTables(s, s', r) && MapsNone(s, s', r, v0, k)
    && OwnersCleared(s, s', r, v0, k, free)
  }

  ghost predicate OwnersCleared(s: State, s': State, r: nat, v0: nat, k: nat, free: bool) {
    forall f :: f in s.owner && f in s'.owner ==>
      s'.owner[f] == if OwnedBy(s.owner[f], r, v0, k) then (if free then Free else Held) else s.owner[f]
  }

  /** Before its entry is cleared, the frame of the page is given back or left to the caller, or the page
      owned none. */
  ghost predicate PageFreed(s: State, p: State, r: nat, vpn: nat, free: bool) {
    && SameButTables(s, p, r) && OwnersCleared(s, p, r, vpn, 1, free) && OwnNone(p, r, vpn, 1)
    && (forall q :: IsRoot(s, q) <==> IsRoot(p, q))
    && (forall q, v :: IsRoot(s, q) && 0 <= v < MAXVPN ==>
          Lookup(p.mem, q, v) == Lookup(s.mem, q, v) && Missing(p.mem, q, v) == Missing(s.mem, q, v))
  }

  lemma OwnedOnce(s: State, r: nat, vpn: nat, p: nat, f: nat)
    requires Wf(s) && p in s.owner && f in s.owner
    requires OwnedBy(s.owner[p], r, vpn, 1) && OwnedBy(s.owner[f], r, vpn, 1)
    ensures f == p
  {
    hide Core, Lookup;
    OwnedMapped(s, f);
    OwnedMapped(s, p);
  }

  lemma PushedSame(s: State, f: nat, r: nat)
    requires DomOk(s) && f in s.owner
    ensures SameButTables(s, Pushed(s, f), r)
  {
  }

  lemma FreedOwners(s: State, r: nat, vpn: nat, f: nat)
    requires Wf(s) && f in s.owner && OwnedBy(s.owner[f], r, vpn, 1)
    ensures OwnersCleared(s, Pushed(s, f), r, vpn, 1, true) && OwnNone(Pushed(s, f), r, vpn, 1)
  {
    hide Core, Lookup;
    forall g | g in s.owner && OwnedBy(s.owner[g], r, vpn, 1)
      ensures g == f
    {
      OwnedOnce(s, r, vpn, f, g);
    }
  }

  lemma FreedPage(s: State, r: nat, t: nat, vpn: nat, f: nat)
    requires Wf(s) && EntryOf(s, r, t, vpn) && f in s.owner && OwnedBy(s.owner[f], r, vpn, 1)
    ensures Wf(Pushed(s, f)) && EntryOf(Pushed(s, f), r, t, vpn) && PageFreed(s, Pushed(s, f), r, vpn, true)
  {
    hide FreeOk, Down, Up, LeafOk, Lookup, Missing, SameButTables, OwnersCleared, OwnNone;
    PushedLookup(s, f);
    PushedSame(s, f, r);
    FreedOwners(s, r, vpn, f);
  }

  /** The frame of a page that is unmapped without do_free passes to the caller. */
  function Disowned(s: State, f: nat): State {
    State(s.lo, s.mem, s.owner[f := Held], s.fl)
  }

  lemma DisownedWf(s: State, f: nat)
    requires Wf(s) && f in s.owner && s.owner[f].Leaf?
    ensures Wf(Disowned(s, f))
  {
    KeptTrees(s, Disowned(s, f));
  }

  lemma DisownedOwners(s: State, r: nat, vpn: nat, f: nat)
    requires Wf(s) && f in s.owner && OwnedBy(s.owner[f], r, vpn, 1)
    ensures OwnersCleared(s, Disowned(s, f), r, vpn, 1, false) && OwnNone(Disowned(s, f), r, vpn, 1)
  {
    hide Core, Lookup;
    forall g | g in s.owner && OwnedBy(s.owner[g], r, vpn, 1)
      ensures g == f
    {
      OwnedOnce(s, r, vpn, f, g);
    }
  }

  lemma DisownedPage(s: State, r: nat, t: nat, vpn: nat, f: nat)
    requires Wf(s) && EntryOf(s, r, t, vpn) && f in s.owner && OwnedBy(s.owner[f], r, vpn, 1)
    ensures Wf(Disowned(s, f)) && EntryOf(Disowned(s, f), r, t, vpn) && PageFreed(s, Disowned(s, f), r, vpn, false)
  {
    DisownedWf(s, f);
    DisownedOwners(s, r, vpn, f);
    hide Wf, Lookup, Missing, OwnersCleared, OwnNone;
  }

  lemma KeptPage(s: State, r: nat, vpn: nat)
    requires OwnNone(s, r, vpn, 1)
    ensures PageFreed(s, s, r, vpn, false)
  {
    hide Lookup, Missing;
  }

  /** A page that owns a frame owns the one its entry names. */
  lemma OwnsEntry(s: State, r: nat, t: nat, vpn: nat)
    requires Wf(s) && EntryOf(s, r, t, vpn)
    requires var f := Ppn(s.mem[t][vpn % 512]); !(f in s.owner && OwnedBy(s.owner[f], r, vpn, 1))
    ensures OwnNone(s, r, vpn, 1)
  {
    hide FreeOk, Down, Up, Lookup;
    forall g | g in s.owner && OwnedBy(s.owner[g], r, vpn, 1)
      ensures false
    {
      assert LeafAt(s, g);
      NodeUnique(s, s.owner[g].table, t);
    }
  }

  lemma ClearedPage(s: State, p: State, r: nat, t: nat, vpn: nat, free: bool)
    requires Wf(p) && EntryOf(p, r, t, vpn) && PageFreed(s, p, r, vpn, free)
    ensures PagesCleared(s, Stored(p, t, vpn % 512, 0), r, vpn, 1, free)
  {
    hide FreeOk, Down, Up, LeafOk, Lookup, Missing;
    EntryLoose(p, r, t, vpn);
    StoredCore(p, t, vpn % 512, 0);
    LookupStored(p, t, vpn % 512, 0);
    hide Core;
  }

  lemma ClearedTrans(s: State, s': State, s'': State, r: nat, v0: nat, k: nat, free: bool)
    requires PagesCleared(s, s', r, v0, k, free) && PagesCleared(s', s'', r, v0 + k, 1, free)
    ensures PagesCleared(s, s'', r, v0, k + 1, free)
  {
    hide Wf, Lookup, Missing;
    assert forall q :: IsRoot(s, q) ==> IsRoot(s', q);
  }

  lemma ClearedRefl(s: State, r: nat, v0: nat, free: bool)
    requires Wf(s)
    ensures PagesCleared(s, s, r, v0, 0, free)
  {
    hide Core, Lookup, Missing;
  }

  /** Nothing to do on a page that is not mapped. */
  lemma ClearedAlready(s: State, r: nat, vpn: nat, free: bool)
    requires Wf(s) && Lookup(s.mem, r, vpn) == None
    ensures PagesCleared(s, s, r, vpn, 1, free)
  {
    UnmappedOwnsNone(s, r, vpn, 1);
    hide Core, Lookup, Missing;
  }

  lemma MissingUnmapped(s: State, r: nat, vpn: nat)
    requires Wf(s) && IsRoot(s, r) && vpn < MAXVPN && Missing(s.mem, r, vpn) > 0
    ensures Lookup(s.mem, r, vpn) == None
  {
    RootOnPath(s, r, vpn);
    FromNode(s, r, r, vpn);
  }

  lemma ClearedWf(s: State, s': State, r: nat, v0: nat, k: nat, free: bool)
    requires PagesCleared(s, s', r, v0, k, free)
    ensures Wf(s') && s'.owner.Keys == s.owner.Keys && |s'.mem| == |s.mem| && s'.lo == s.lo
    ensures forall q :: IsRoot(s, q) ==> IsRoot(s', q)
  {
    hide Core;
  }

  /** What the next page needs is still true after the pages before it are gone. */
  lemma ClearedNext(s0: State, s: State, r: nat, v0: nat, k: nat, free: bool)
    requires PagesCleared(s0, s, r, v0, k, free) && IsRoot(s0, r) && v0 + k < MAXVPN
    requires free ==> OwnPage(s0, r, v0 + k)
    ensures free ==> OwnPage(s, r, v0 + k)
  {
    hide Wf, Lookup, Missing;
  }

  lemma MappedNothing(s: State, r: nat, v0: nat, frame: nat, perm: nat)
    ensures MapsTo(s, s, r, v0, 0, frame, perm) && SameButTables(s, s, r) && OwnersGrown(s, s, r)
  {
    hide Lookup;
  }

  lemma GrownPages(s0: State, s: State, s': State, r: nat, v0: nat, k: nat, frame: nat, perm: nat)
    requires MapsTo(s0, s, r, v0, k, frame, perm) && SameButTables(s0, s, r) && OwnersGrown(s0, s, r)
    requires Grown(s, s', r)
    ensures MapsTo(s0, s', r, v0, k, frame, perm) && SameButTables(s0, s', r) && OwnersGrown(s0, s', r)
  {
    hide Lookup;
    SameTrans(s0, s, s', r);
    assert forall q :: IsRoot(s0, q) ==> IsRoot(s, q);
  }

  /** The k pages mapped so far and the next one make k + 1; the pages behind them are as they were. */
  lemma MappedOneMore(s0: State, s: State, s': State, r: nat, v0: nat, k: nat, frame: nat, perm: nat, last: nat)
    requires MapsTo(s0, s, r, v0, k, frame, perm) && SameButTables(s0, s, r) && OwnersGrown(s0, s, r)
    requires IsRoot(s0, r) && PageMapped(s, s', r, v0 + k, frame + k, perm, false)
    requires last < MAXVPN && forall v :: v0 + k <= v <= last ==> Lookup(s.mem, r, v) == None
    ensures MapsTo(s0, s', r, v0, k + 1, frame, perm) && SameButTables(s0, s', r) && OwnersGrown(s0, s', r)
    ensures Wf(s') && IsRoot(s', r) && |s'.mem| == |s.mem|
    ensures forall v :: v0 + k + 1 <= v <= last ==> Lookup(s'.mem, r, v) == None
  {
    hide Lookup, Wf;
    SameTrans(s0, s, s', r);
    assert forall q :: IsRoot(s0, q) ==> IsRoot(s, q);
  }

  // ----------------------------------------------------------- a new root

  /** uvmcreate: the frame just allocated becomes an empty root. */
  function Rooted(s: State, r: nat): State {
    State(s.lo, s.mem, s.owner[r := Node(r, 2, 0, 0)], s.fl)
  }

  lemma RootedWf(s: State, r: nat)
    requires Wf(s) && r in s.owner && s.owner[r] == Held && s.mem[r] == ZeroPage()
    ensures Wf(Rooted(s, r)) && IsRoot(Rooted(s, r), r)
  {
    var s' := Rooted(s, r);
    RootedDown(s, r);
    RootedUp(s, r);
    hide Down, Up;
    forall h | h in s'.owner && s'.owner[h].Leaf? ensures LeafAt(s', h) {
      assert LeafAt(s, h);
    }
  }

  lemma RootedDown(s: State, r: nat)
    requires DomOk(s) && Down(s) && r in s.owner && s.owner[r] == Held && s.mem[r] == ZeroPage()
    ensures Down(Rooted(s, r))
  {
    var s' := Rooted(s, r);
    forall h, j | h in s'.owner && IsTable(s'.owner[h]) && s'.owner[h].level > 0 && 0 <= j < 512
                  && (s'.owner[h].Dying? ==> s'.owner[h].cut <= j) && V(s'.mem[h][j])
      ensures DownAt(s', h, j)
    {
      assert DownAt(s, h, j);
    }
  }

  lemma RootedUp(s: State, r: nat)
    requires DomOk(s) && Up(s) && r in s.owner && s.owner[r] == Held
    ensures Up(Rooted(s, r))
  {
    forall h | h in s.owner ensures UpAt(Rooted(s, r), h) {
      assert UpAt(s, h);
    }
  }

  lemma RootedEmpty(s: State, r: nat)
    requires r < |s.mem| && s.mem[r] == ZeroPage()
    ensures forall v :: 0 <= v < MAXVPN ==> Lookup(s.mem, r, v) == None && Missing(s.mem, r, v) == 2
  {
  }
}
