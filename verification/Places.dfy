/** Which tables a tree has, and how many frames a copy needs. */
module Places {
  import opened Words
  import opened PageTables
  import opened Translation
  import opened Changes
  import opened Fork

  /** The tree of root r has a table at a level for the pages of a prefix. */
  ghost predicate HasTable(s: State, r: nat, level: nat, pre: nat) {
    exists f :: f in s.owner && TableOfPlace(s.owner[f], r, level, pre)
  }

  predicate TableOfPlace(o: Owner, r: nat, level: nat, pre: nat) {
    o.Node? && o.root == r && o.level == level && o.pre == pre
  }

  /** What is missing on the way to a page depends on which tables there are. */
  lemma MissingPlaces(s: State, r: nat, v: nat)
    requires Wf(s) && IsRoot(s, r) && v < MAXVPN
    ensures Missing(s.mem, r, v) <= 2
    ensures Missing(s.mem, r, v) == 0 <==> HasTable(s, r, 0, v / 512)
    ensures Missing(s.mem, r, v) < 2 <==> HasTable(s, r, 1, v / 512 / 512)
  {
    LowPlace(s, r, v);
    MiddlePlace(s, r, v);
  }

  lemma LowPlace(s: State, r: nat, v: nat)
    requires Wf(s) && IsRoot(s, r) && v < MAXVPN
    ensures Missing(s.mem, r, v) == 0 <==> HasTable(s, r, 0, v / 512)
  {
    hide Down, Up, LeafOk, Lookup;
    if Missing(s.mem, r, v) == 0 {
      var t := TableOf(s, r, v);
      assert TableOfPlace(s.owner[t], r, 0, v / 512);
    } else if HasTable(s, r, 0, v / 512) {
      var f :| f in s.owner && TableOfPlace(s.owner[f], r, 0, v / 512);
      LookupAt(s, f, v);
    }
  }

  lemma MiddlePlace(s: State, r: nat, v: nat)
    requires Wf(s) && IsRoot(s, r) && v < MAXVPN
    ensures Missing(s.mem, r, v) <= 2
    ensures Missing(s.mem, r, v) < 2 <==> HasTable(s, r, 1, v / 512 / 512)
  {
    RootOnPath(s, r, v);
    var w := s.mem[r][PX(2, v)];
    if V(w) {
      ChildOnPath(s, r, r, v);
      assert TableOfPlace(s.owner[Ppn(w)], r, 1, v / 512 / 512);
    } else if HasTable(s, r, 1, v / 512 / 512) {
      var f :| f in s.owner && TableOfPlace(s.owner[f], r, 1, v / 512 / 512);
      RootEntry(s, f);
      assert false;
    }
  }

  /** The root's entry for a level-1 table is valid. */
  lemma RootEntry(s: State, f: nat)
    requires Wf(s) && f in s.owner && s.owner[f].Node? && s.owner[f].level == 1
    ensures s.owner[f].root in s.owner && s.owner[f].pre < 512 && V(s.mem[s.owner[f].root][s.owner[f].pre])
  {
    hide FreeOk, Down, LeafOk, V;
    assert UpAt(s, f);
    assert UpAt(s, s.owner[f].parent);
    PteParts(f, 0);
  }

  // ------------------------------------------------- tables, as memory says

  /** The table at level `to` that the entries of memory lead to. */
  function TableAt(mem: seq<Page>, t: nat, level: nat, vpn: nat, to: nat): Option<nat>
    decreases level
  {
    if t >= |mem| then None
    else if level <= to then Some(t)
    else if V(mem[t][PX(level, vpn)]) then TableAt(mem, Ppn(mem[t][PX(level, vpn)]), level - 1, vpn, to)
    else None
  }

  /** What memory leads to is a table of that root, at that place. */
  lemma {:induction false} AtOnPath(s: State, r: nat, t: nat, vpn: nat, to: nat)
    requires OnPath(s, r, t, vpn) && to <= s.owner[t].level
    ensures var w := TableAt(s.mem, t, s.owner[t].level, vpn, to);
            w.Some? ==> OnPath(s, r, w.value, vpn) && s.owner[w.value].level == to
    decreases s.owner[t].level
  {
    if s.owner[t].level > to && V(s.mem[t][PX(s.owner[t].level, vpn)]) {
      ChildOnPath(s, r, t, vpn);
      AtOnPath(s, r, Ppn(s.mem[t][PX(s.owner[t].level, vpn)]), vpn, to);
    }
  }

  /** The path goes on from a table it reaches. */
  lemma {:induction false} AtStep(mem: seq<Page>, r: nat, level: nat, vpn: nat, to: nat, p: nat)
    requires to < level && TableAt(mem, r, level, vpn, to + 1) == Some(p) && p < |mem| && V(mem[p][PX(to + 1, vpn)])
    ensures TableAt(mem, r, level, vpn, to) == TableAt(mem, Ppn(mem[p][PX(to + 1, vpn)]), to, vpn, to)
    decreases level
  {
    if level > to + 1 {
      AtStep(mem, Ppn(mem[r][PX(level, vpn)]), level - 1, vpn, to, p);
    }
  }

  /** Every table of a root is reached in memory from that root. */
  lemma {:induction false} PlaceReached(s: State, t: nat, vpn: nat)
    requires Wf(s) && t in s.owner && s.owner[t].Node? && OnPath(s, s.owner[t].root, t, vpn)
    ensures IsRoot(s, s.owner[t].root) && TableAt(s.mem, s.owner[t].root, 2, vpn, s.owner[t].level) == Some(t)
    decreases 2 - s.owner[t].level
  {
    assert UpAt(s, t);
    if s.owner[t].level < 2 {
      var p, l := s.owner[t].parent, s.owner[t].level;
      assert UpAt(s, p);
      assert OnPath(s, s.owner[t].root, p, vpn) && PX(l + 1, vpn) == s.owner[t].pre % 512;
      PlaceReached(s, p, vpn);
      PteParts(t, 0);
      AtStep(s.mem, s.owner[t].root, 2, vpn, l, p);
    }
  }

  /** Some page for which a table is on the way. */
  function PageUnder(level: nat, pre: nat): nat {
    if level == 0 then pre * 512 else if level == 1 then pre * 512 * 512 else 0
  }

  /** Some path in memory leads from root r to frame t. */
  ghost predicate Reaches(mem: seq<Page>, r: nat, t: nat) {
    exists v, l :: 0 <= v < MAXVPN && 0 <= l <= 2 && TableAt(mem, r, 2, v, l) == Some(t)
  }

  /** The frames reached in memory from a root are exactly its tables. */
  lemma ReachedTables(s: State, r: nat, t: nat)
    requires Wf(s) && IsRoot(s, r)
    ensures Reaches(s.mem, r, t) <==> t in s.owner && s.owner[t].Node? && s.owner[t].root == r
  {
    if Reaches(s.mem, r, t) {
      var v: nat, l: nat :| v < MAXVPN && l <= 2 && TableAt(s.mem, r, 2, v, l) == Some(t);
      RootOnPath(s, r, v);
      AtOnPath(s, r, r, v, l);
    }
    if t in s.owner && s.owner[t].Node? && s.owner[t].root == r {
      assert UpAt(s, t);
      var v := PageUnder(s.owner[t].level, s.owner[t].pre);
      assert OnPath(s, r, t, v) && v < MAXVPN;
      PlaceReached(s, t, v);
    }
  }

  /** The root of a table is a root. */
  lemma NodeReachesRoot(s: State, f: nat)
    requires Wf(s) && f in s.owner && s.owner[f].Node?
    ensures IsRoot(s, s.owner[f].root)
  {
    assert UpAt(s, f);
    if s.owner[f].level < 2 {
      var p := s.owner[f].parent;
      assert UpAt(s, p);
      if s.owner[p].level < 2 {
        assert UpAt(s, s.owner[p].parent);
      }
    }
  }

  // --------------------------------------------------------------- one walk

  /** Frames that became tables lie on the way to a page; the tables there were have stayed. */
  ghost predicate GrownFor(s: State, s': State, r: nat, vpn: nat) {
    && s'.owner.Keys == s.owner.Keys
    && (forall f :: f in s.owner && s.owner[f].Node? ==> s'.owner[f] == s.owner[f])
    && (forall f :: f in s.owner && s'.owner[f].Node? && !s.owner[f].Node? ==>
          s'.owner[f].root == r && s'.owner[f].pre == Pre(s'.owner[f].level, vpn))
  }

  lemma GrownForRefl(s: State, r: nat, vpn: nat)
    ensures GrownFor(s, s, r, vpn)
  {
  }

  /** The table that walk adds stands on the way. */
  lemma ExtendedFor(s: State, r: nat, t: nat, vpn: nat)
    requires OnPath(s, r, t, vpn) && vpn < MAXVPN && s.fl != [] && s.owner[t].level > 0
    ensures GrownFor(s, Extended(s, t, PX(s.owner[t].level, vpn)), r, vpn)
  {
    assert s.owner[s.fl[0]] == Free;
    PreStep(s.owner[t].level, vpn);
    hide FreeOk, Down, Up, LeafOk;
  }

  lemma EnteredFor(s: State, s': State, r: nat, t: nat, vpn: nat, w: nat, own: bool)
    requires GrownFor(s, s', r, vpn) && t in s'.owner && s'.owner[t].Node? && t < |s'.mem|
    requires own ==> Ppn(w) in s'.owner && !s'.owner[Ppn(w)].Node?
    ensures GrownFor(s, Entered(s', t, vpn, w, own), r, vpn)
  {
  }

  /** Taking and filling a frame makes no table missing. */
  lemma PreparedMissing(s: State, page: Page, c: nat)
    requires Wf(s) && s.fl != [] && s.fl[0] < |s.mem| && IsRoot(s, c)
    ensures var s' := Filled(Popped(s), s.fl[0], page);
            |s'.fl| == |s.fl| - 1 && forall v :: 0 <= v < MAXVPN ==> Missing(s'.mem, c, v) == Missing(s.mem, c, v)
  {
    var g, p := s.fl[0], Popped(s);
    assert s.owner[g] == Free;
    hide FreeOk, Down, Up, LeafOk, Lookup, Missing;
    PoppedLookup(s);
    FilledCore(p, g, page);
    LookupKept(p, Filled(p, g, page).mem, c);
  }

  lemma GrownForTrans(s: State, s': State, s'': State, r: nat, vpn: nat)
    requires GrownFor(s, s', r, vpn) && GrownFor(s', s'', r, vpn)
    ensures GrownFor(s, s'', r, vpn)
  {
  }

  /** How many tables are missing for v once those for vpn are there. */
  function Less(miss: nat, v: nat, vpn: nat): nat {
    if v / 512 == vpn / 512 then 0 else if v / 512 / 512 == vpn / 512 / 512 then Min(miss, 1) else miss
  }

  lemma GrownMissing(s: State, s': State, r: nat, vpn: nat, q: nat, v: nat)
    requires Wf(s) && Wf(s') && GrownFor(s, s', r, vpn) && IsRoot(s, r) && IsRoot(s, q) && v < MAXVPN && vpn < MAXVPN
    requires Missing(s'.mem, r, vpn) == 0
    ensures IsRoot(s', q)
    ensures Missing(s'.mem, q, v) == if q == r then Less(Missing(s.mem, r, v), v, vpn) else Missing(s.mem, q, v)
  {
    hide Wf, Missing, HasTable;
    MissingPlaces(s, q, v);
    MissingPlaces(s', q, v);
    MissingPlaces(s', r, vpn);
    PlaceKept(s, s', r, vpn, q, 0, v / 512);
    PlaceKept(s, s', r, vpn, q, 1, v / 512 / 512);
  }

  lemma PlaceKept(s: State, s': State, r: nat, vpn: nat, q: nat, level: nat, pre: nat)
    requires GrownFor(s, s', r, vpn)
    ensures HasTable(s, q, level, pre) ==> HasTable(s', q, level, pre)
    ensures !(q == r && pre == Pre(level, vpn)) ==> HasTable(s, q, level, pre) == HasTable(s', q, level, pre)
  {
    if HasTable(s, q, level, pre) {
      var f :| f in s.owner && TableOfPlace(s.owner[f], q, level, pre);
      assert TableOfPlace(s'.owner[f], q, level, pre);
    } else if HasTable(s', q, level, pre) {
      var f :| f in s'.owner && TableOfPlace(s'.owner[f], q, level, pre);
      assert !TableOfPlace(s.owner[f], q, level, pre);
    }
  }

  // ------------------------------------------------- tables for some pages

  /** The level-1 and level-0 tables that root c lacks for some pages, by their prefixes. */
  ghost function MiddleLacking(s: State, c: nat, pages: set<nat>): set<nat> {
    set v | v in pages && Missing(s.mem, c, v) == 2 :: v / 512 / 512
  }

  ghost function LowLacking(s: State, c: nat, pages: set<nat>): set<nat> {
    set v | v in pages && Missing(s.mem, c, v) >= 1 :: v / 512
  }

  /** How many tables mapping those pages takes. */
  ghost function TablesFor(s: State, c: nat, pages: set<nat>): nat {
    |MiddleLacking(s, c, pages)| + |LowLacking(s, c, pages)|
  }

  /** What is still missing for v when those pages are mapped. */
  ghost function StillMissing(s: State, c: nat, pages: set<nat>, v: nat): nat {
    (if Missing(s.mem, c, v) == 2 && v / 512 / 512 !in MiddleLacking(s, c, pages) then 1 else 0)
    + (if Missing(s.mem, c, v) >= 1 && v / 512 !in LowLacking(s, c, pages) then 1 else 0)
  }

  /** From s0 to s, just the tables for those pages were built under c. */
  ghost predicate TablesBuilt(s0: State, s: State, c: nat, pages: set<nat>) {
    forall v :: 0 <= v < MAXVPN ==> Missing(s.mem, c, v) == StillMissing(s0, c, pages, v)
  }

  lemma NoTables(s: State, c: nat)
    requires Wf(s) && IsRoot(s, c)
    ensures TablesFor(s, c, {}) == 0 && TablesBuilt(s, s, c, {})
  {
    hide Wf, Missing;
    assert MiddleLacking(s, c, {}) == {} && LowLacking(s, c, {}) == {};
    forall v | 0 <= v < MAXVPN
      ensures Missing(s.mem, c, v) == StillMissing(s, c, {}, v)
    {
      MissingPlaces(s, c, v);
    }
  }

  lemma LackingAdd(s: State, c: nat, pages: set<nat>, x: nat)
    ensures MiddleLacking(s, c, pages + {x})
            == MiddleLacking(s, c, pages) + if Missing(s.mem, c, x) == 2 then {x / 512 / 512} else {}
    ensures LowLacking(s, c, pages + {x})
            == LowLacking(s, c, pages) + if Missing(s.mem, c, x) >= 1 then {x / 512} else {}
  {
    hide Missing;
  }

  /** One page more takes what is still missing for it. */
  lemma TablesAdd(s: State, c: nat, pages: set<nat>, x: nat)
    ensures TablesFor(s, c, pages + {x}) == TablesFor(s, c, pages) + StillMissing(s, c, pages, x)
  {
    hide Missing, MiddleLacking, LowLacking;
    LackingAdd(s, c, pages, x);
    AddOne(MiddleLacking(s, c, pages), x / 512 / 512);
    AddOne(LowLacking(s, c, pages), x / 512);
  }

  lemma AddOne(a: set<nat>, x: nat)
    ensures |a + {x}| == |a| + if x in a then 0 else 1
    ensures |a + {}| == |a|
  {
    assert x in a ==> a + {x} == a;
    assert a + {} == a;
  }

  /** Pages under one table lack it or have it together. */
  lemma LackTogether(s: State, c: nat, v: nat, u: nat)
    requires Wf(s) && IsRoot(s, c) && v < MAXVPN && u < MAXVPN
    ensures Missing(s.mem, c, v) <= 2
    ensures v / 512 == u / 512 ==> Missing(s.mem, c, v) == Missing(s.mem, c, u)
    ensures v / 512 / 512 == u / 512 / 512 ==> (Missing(s.mem, c, v) == 2 <==> Missing(s.mem, c, u) == 2)
  {
    hide Wf, Missing, HasTable;
    MissingPlaces(s, c, v);
    MissingPlaces(s, c, u);
  }

  /** A level-0 table built meanwhile came with its level-1 table. */
  lemma LowHasMiddle(s: State, c: nat, pages: set<nat>, v: nat)
    requires Wf(s) && IsRoot(s, c) && v < MAXVPN && forall u :: u in pages ==> u < MAXVPN
    requires v / 512 in LowLacking(s, c, pages) && Missing(s.mem, c, v) == 2
    ensures v / 512 / 512 in MiddleLacking(s, c, pages)
  {
    hide Wf, Missing;
    var u :| u in pages && Missing(s.mem, c, u) >= 1 && u / 512 == v / 512;
    LackTogether(s, c, v, u);
  }

  /** Mapping page x takes away from what is missing for v just what a walk to x builds. */
  lemma StillAdd(s: State, c: nat, pages: set<nat>, x: nat, v: nat)
    requires Wf(s) && IsRoot(s, c) && v < MAXVPN && x < MAXVPN && forall u :: u in pages ==> u < MAXVPN
    ensures StillMissing(s, c, pages + {x}, v) == Less(StillMissing(s, c, pages, v), v, x)
  {
    hide Wf, Missing, MiddleLacking, LowLacking;
    LackingAdd(s, c, pages, x);
    LackTogether(s, c, v, x);
    if v / 512 in LowLacking(s, c, pages) && Missing(s.mem, c, v) == 2 {
      LowHasMiddle(s, c, pages, v);
    }
  }

  /** A walk to page x builds the tables for it. */
  lemma BuiltAdd(s0: State, s: State, s': State, c: nat, pages: set<nat>, x: nat)
    requires Wf(s0) && IsRoot(s0, c) && TablesBuilt(s0, s, c, pages)
    requires x < MAXVPN && forall u :: u in pages ==> u < MAXVPN
    requires Wf(s) && Wf(s') && IsRoot(s, c) && GrownFor(s, s', c, x) && Missing(s'.mem, c, x) == 0
    ensures TablesBuilt(s0, s', c, pages + {x})
  {
    hide Wf, Missing, StillMissing, GrownFor, Less;
    forall v | 0 <= v < MAXVPN
      ensures Missing(s'.mem, c, v) == StillMissing(s0, c, pages + {x}, v)
    {
      StillAdd(s0, c, pages, x, v);
      GrownMissing(s, s', c, x, c, v);
    }
  }

  // --------------------------------------------------------------- a range

  /** The pages v0 .. v0+k. */
  function Range(v0: nat, k: nat): (r: set<nat>)
    ensures forall v :: v in r <==> v0 <= v < v0 + k
  {
    if k == 0 then {} else Range(v0, k - 1) + {v0 + k - 1}
  }

  lemma RangeNext(v0: nat, k: nat)
    ensures Range(v0, k + 1) == Range(v0, k) + {v0 + k} && Range(v0, 0) == {}
  {
  }

  lemma {:induction false} TablesGrow(s: State, c: nat, v0: nat, k: nat, n: nat)
    requires k <= n
    ensures TablesFor(s, c, Range(v0, k)) <= TablesFor(s, c, Range(v0, n))
    decreases n - k
  {
    hide TablesFor, StillMissing, Range;
    if k < n {
      RangeNext(v0, k);
      TablesAdd(s, c, Range(v0, k), v0 + k);
      TablesGrow(s, c, v0, k + 1, n);
    }
  }

  /** So far k pages from v0 on are mapped. */
  ghost predicate RangeCount(s0: State, s: State, r: nat, v0: nat, k: nat) {
    |s.fl| + TablesFor(s0, r, Range(v0, k)) == |s0.fl| && TablesBuilt(s0, s, r, Range(v0, k))
  }

  lemma RangeStart(s: State, r: nat, v0: nat)
    requires Wf(s) && IsRoot(s, r)
    ensures RangeCount(s, s, r, v0, 0)
  {
    RangeNext(v0, 0);
    NoTables(s, r);
  }

  lemma RangeStep(s0: State, s: State, s': State, r: nat, v0: nat, k: nat)
    requires Wf(s0) && IsRoot(s0, r) && RangeCount(s0, s, r, v0, k) && v0 + k < MAXVPN
    requires Wf(s) && Wf(s') && IsRoot(s, r) && GrownFor(s, s', r, v0 + k) && Missing(s'.mem, r, v0 + k) == 0
    requires |s'.fl| + Missing(s.mem, r, v0 + k) == |s.fl|
    ensures RangeCount(s0, s', r, v0, k + 1)
  {
    hide Wf, Missing, StillMissing, GrownFor, TablesFor;
    RangeNext(v0, k);
    TablesAdd(s0, r, Range(v0, k), v0 + k);
    BuiltAdd(s0, s, s', r, Range(v0, k), v0 + k);
  }

  /** Page v0 + k finds too few frames. */
  lemma RangeFails(s0: State, s: State, r: nat, v0: nat, k: nat, n: nat)
    requires RangeCount(s0, s, r, v0, k) && k < n && v0 + k < MAXVPN && |s.fl| < Missing(s.mem, r, v0 + k)
    ensures TablesFor(s0, r, Range(v0, k)) <= |s0.fl| < TablesFor(s0, r, Range(v0, k + 1))
    ensures |s0.fl| < TablesFor(s0, r, Range(v0, n))
  {
    hide Missing, StillMissing, TablesFor, Range;
    RangeNext(v0, k);
    TablesAdd(s0, r, Range(v0, k), v0 + k);
    TablesGrow(s0, r, v0, k + 1, n);
  }

  lemma RangeOf(s0: State, s: State, r: nat, v0: nat, k: nat)
    requires RangeCount(s0, s, r, v0, k)
    ensures |s.fl| + TablesFor(s0, r, Range(v0, k)) == |s0.fl|
  {
  }

  // --------------------------------------------------------------- a copy

  /** The pages v0 .. v0+k that root r maps. */
  ghost function MappedIn(s: State, r: nat, v0: nat, k: nat): set<nat> {
    set v: nat | v0 <= v < v0 + k && Lookup(s.mem, r, v).Some?
  }

  /** The pages below n that root p maps. */
  ghost function PagesOf(s: State, p: nat, n: nat): set<nat> { MappedIn(s, p, 0, n) }

  /** The frames that copying those pages to c takes: one for each page and for each table. */
  ghost function Needed(s: State, p: nat, c: nat, n: nat): nat {
    |PagesOf(s, p, n)| + TablesFor(s, c, PagesOf(s, p, n))
  }

  lemma PagesNext(s: State, p: nat, n: nat)
    ensures PagesOf(s, p, n + 1) == PagesOf(s, p, n) + if Lookup(s.mem, p, n).Some? then {n} else {}
    ensures n !in PagesOf(s, p, n) && forall v :: v in PagesOf(s, p, n) ==> v < n
  {
    hide Lookup;
  }

  /** One page more. */
  lemma NeededNext(s: State, p: nat, c: nat, n: nat)
    ensures Needed(s, p, c, n + 1)
            == Needed(s, p, c, n) + if Lookup(s.mem, p, n).Some? then 1 + StillMissing(s, c, PagesOf(s, p, n), n) else 0
  {
    hide Lookup, PagesOf, TablesFor, StillMissing;
    PagesNext(s, p, n);
    AddOne(PagesOf(s, p, n), n);
    assert PagesOf(s, p, n) + {} == PagesOf(s, p, n);
    TablesAdd(s, c, PagesOf(s, p, n), n);
  }

  lemma {:induction false} NeededGrows(s: State, p: nat, c: nat, n: nat, N: nat)
    requires n <= N
    ensures Needed(s, p, c, n) <= Needed(s, p, c, N)
    decreases N - n
  {
    hide Needed, StillMissing;
    if n < N {
      NeededNext(s, p, c, n);
      NeededGrows(s, p, c, n + 1, N);
    }
  }

  /** So far n pages are copied: what is missing for each page, and how many frames are left. */
  ghost predicate CopyCount(s0: State, s: State, p: nat, c: nat, n: nat) {
    |s.fl| + Needed(s0, p, c, n) == |s0.fl| && TablesBuilt(s0, s, c, PagesOf(s0, p, n))
  }

  lemma CountStart(s: State, p: nat, c: nat)
    requires Wf(s) && IsRoot(s, c)
    ensures CopyCount(s, s, p, c, 0)
  {
    assert PagesOf(s, p, 0) == {};
    NoTables(s, c);
  }

  lemma CountSkip(s0: State, s: State, p: nat, c: nat, n: nat)
    requires CopyCount(s0, s, p, c, n) && Lookup(s0.mem, p, n) == None
    ensures CopyCount(s0, s, p, c, n + 1)
  {
    hide Needed, Lookup, PagesOf;
    NeededNext(s0, p, c, n);
    PagesNext(s0, p, n);
    assert PagesOf(s0, p, n) + {} == PagesOf(s0, p, n);
  }

  /** Page n is copied: a frame was taken and filled, and the walk to n took what was missing. */
  lemma CountStep(s0: State, s: State, s2: State, s3: State, p: nat, c: nat, n: nat)
    requires Wf(s0) && IsRoot(s0, c) && n < MAXVPN && CopyCount(s0, s, p, c, n) && Lookup(s0.mem, p, n).Some?
    requires Wf(s2) && Wf(s3) && IsRoot(s2, c) && GrownFor(s2, s3, c, n) && Missing(s3.mem, c, n) == 0
    requires forall v :: 0 <= v < MAXVPN ==> Missing(s2.mem, c, v) == Missing(s.mem, c, v)
    requires |s3.fl| + 1 + Missing(s2.mem, c, n) == |s.fl|
    ensures CopyCount(s0, s3, p, c, n + 1)
  {
    hide Wf, Missing, Needed, StillMissing, Lookup, GrownFor, PagesOf;
    NeededNext(s0, p, c, n);
    PagesNext(s0, p, n);
    BuiltAdd(s0, s2, s3, c, PagesOf(s0, p, n), n);
  }

  /** Page n could not be copied, so the whole copy needs more frames than there were. */
  lemma CountFails(s0: State, s: State, p: nat, c: nat, n: nat, N: nat)
    requires CopyCount(s0, s, p, c, n) && n < N && n < MAXVPN && Lookup(s0.mem, p, n).Some?
    requires |s.fl| < 1 + Missing(s.mem, c, n)
    ensures StopsAt(s0, p, c, n) && Needed(s0, p, c, N) > |s0.fl|
  {
    hide Missing, Needed, StillMissing, Lookup, PagesOf;
    NeededNext(s0, p, c, n);
    NeededGrows(s0, p, c, n + 1, N);
  }

  /** The first n pages can be copied, but page n cannot. */
  ghost predicate StopsAt(s: State, p: nat, c: nat, n: nat) {
    Needed(s, p, c, n) <= |s.fl| < Needed(s, p, c, n + 1)
  }

  /** What a copy that stops at page n leaves free: the frames of the copied pages, and its own if it got
      one; the others have become tables. */
  ghost function FreeAfterStop(s: State, p: nat, c: nat, n: nat): nat {
    |PagesOf(s, p, n)| + if Needed(s, p, c, n) < |s.fl| then 1 else 0
  }

  lemma CountOf(s0: State, s: State, p: nat, c: nat, n: nat)
    requires CopyCount(s0, s, p, c, n)
    ensures |s.fl| + Needed(s0, p, c, n) == |s0.fl|
  {
  }

  /** The copied pages are those the parent maps. */
  lemma CopiedPages(s0: State, s: State, p: nat, c: nat, n: nat)
    requires Copied(s0, s, p, c, n)
    ensures MappedIn(s, c, 0, n) == PagesOf(s0, p, n)
  {
    hide Lookup, OwnPage;
    forall v: nat | v < n
      ensures Lookup(s.mem, c, v).Some? <==> Lookup(s0.mem, p, v).Some?
    {
      assert PageCopied(s0, s, p, c, v);
    }
  }

  // -------------------------------------------------------------- unmapping

  /** The frames that uvmunmap gives back, one page at a time. */
  lemma ClearedNextCount(s0: State, s: State, r: nat, v0: nat, k: nat, free: bool)
    requires PagesCleared(s0, s, r, v0, k, free) && IsRoot(s0, r) && v0 + k < MAXVPN
    ensures |MappedIn(s0, r, v0, k + 1)| == |MappedIn(s0, r, v0, k)| + if Lookup(s.mem, r, v0 + k).Some? then 1 else 0
  {
    hide Wf, Lookup, Missing;
    var one: set<nat> := if Lookup(s.mem, r, v0 + k).Some? then {v0 + k} else {};
    assert Lookup(s.mem, r, v0 + k) == Lookup(s0.mem, r, v0 + k);
    assert MappedIn(s0, r, v0, k + 1) == MappedIn(s0, r, v0, k) + one;
    AddOne(MappedIn(s0, r, v0, k), v0 + k);
    assert v0 + k !in MappedIn(s0, r, v0, k);
  }

  lemma MappedNone(s: State, r: nat, v0: nat)
    ensures MappedIn(s, r, v0, 0) == {}
  {
  }

  /** Equal translations below n map the same pages. */
  lemma MappedSame(s: State, s': State, r: nat, v0: nat, k: nat)
    requires v0 + k <= MAXVPN && forall v :: 0 <= v < MAXVPN ==> Lookup(s'.mem, r, v) == Lookup(s.mem, r, v)
    ensures MappedIn(s', r, v0, k) == MappedIn(s, r, v0, k)
  {
    hide Lookup;
  }

  // ------------------------------------------------------- counting frames

  function FreeFrames(s: State): set<nat> { set f | f in s.owner && s.owner[f].Free? }

  function TablesOf(s: State, r: nat): set<nat> { set f | f in s.owner && s.owner[f].Node? && s.owner[f].root == r }

  predicate NoRepeat(l: seq<nat>) { forall i, j :: 0 <= i < j < |l| ==> l[i] != l[j] }

  function Members(l: seq<nat>): set<nat> { set f | f in l }

  lemma LastMember(l: seq<nat>)
    requires l != [] && NoRepeat(l)
    ensures var n := |l| - 1; NoRepeat(l[..n]) && l[n] !in Members(l[..n]) && Members(l) == Members(l[..n]) + {l[n]}
  {
    var n := |l| - 1;
    assert l == l[..n] + [l[n]];
  }

  lemma {:induction false} DistinctCount(l: seq<nat>)
    requires NoRepeat(l)
    ensures |Members(l)| == |l|
    decreases |l|
  {
    if l == [] {
      assert Members(l) == {};
    } else {
      LastMember(l);
      hide NoRepeat, Members;
      DistinctCount(l[..|l| - 1]);
      AddOne(Members(l[..|l| - 1]), l[|l| - 1]);
    }
  }

  /** The length of the free list is the number of free frames. */
  lemma FreeCounted(s: State)
    requires Wf(s)
    ensures |s.fl| == |FreeFrames(s)|
  {
    hide Down, Up, LeafOk;
    DistinctCount(s.fl);
    assert Members(s.fl) == FreeFrames(s);
  }
}
