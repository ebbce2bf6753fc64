/** What the entries in memory translate to, how each step on a tree changes it,
    and its agreement with the Sv39 algorithm. */
module Translation {
  import opened Words
  import opened PageTables

  /** Table t is on the path to vpn in the tree of root r. */
  ghost predicate OnPath(s: State, r: nat, t: nat, vpn: nat) {
    && Wf(s) && t in s.owner && s.owner[t].Node? && s.owner[t].root == r
    && s.owner[t].level <= 2 && s.owner[t].pre == Pre(s.owner[t].level, vpn)
  }

  lemma OnPathIn(s: State, r: nat, t: nat, vpn: nat)
    requires OnPath(s, r, t, vpn)
    ensures t in s.owner && s.owner[t].Node? && s.owner[t].root == r && s.owner[t].level <= 2
    ensures 0 < s.lo <= t < |s.mem| && s.owner[t].pre == Pre(s.owner[t].level, vpn)
  {
  }

  lemma MissingStep(mem: seq<Page>, t: nat, level: nat, vpn: nat)
    requires t < |mem|
    ensures MissingFrom(mem, t, level, vpn)
            == if level == 0 then 0
               else if V(mem[t][PX(level, vpn)]) then MissingFrom(mem, Ppn(mem[t][PX(level, vpn)]), level - 1, vpn)
               else level
  {
  }

  lemma RootOnPath(s: State, r: nat, vpn: nat)
    requires Wf(s) && IsRoot(s, r) && vpn < MAXVPN
    ensures OnPath(s, r, r, vpn)
  {
    assert UpAt(s, r);
  }

  lemma ChildOnPath(s: State, r: nat, t: nat, vpn: nat)
    requires OnPath(s, r, t, vpn) && s.owner[t].level > 0 && V(s.mem[t][PX(s.owner[t].level, vpn)])
    ensures var g := Ppn(s.mem[t][PX(s.owner[t].level, vpn)]);
            OnPath(s, r, g, vpn) && s.owner[g].level == s.owner[t].level - 1 && g < |s.mem|
  {
    assert DownAt(s, t, PX(s.owner[t].level, vpn));
    PreStep(s.owner[t].level, vpn);
    var g := Ppn(s.mem[t][PX(s.owner[t].level, vpn)]);
    assert UpAt(s, g);
  }

  /** The table reached is the level-0 table of that place, and the leaf is read from it. */
  lemma {:induction false} FromNode(s: State, r: nat, t: nat, vpn: nat)
    requires OnPath(s, r, t, vpn)
    ensures var w := WalkFrom(s.mem, t, s.owner[t].level, vpn);
            && (w.Some? ==> OnPath(s, r, w.value, vpn) && s.owner[w.value].level == 0)
            && (w.None? <==> MissingFrom(s.mem, t, s.owner[t].level, vpn) > 0)
            && LookupFrom(s.mem, t, s.owner[t].level, vpn) ==
               if w.Some? && V(s.mem[w.value][vpn % 512]) then Some(s.mem[w.value][vpn % 512]) else None
    decreases s.owner[t].level
  {
    if s.owner[t].level > 0 && V(s.mem[t][PX(s.owner[t].level, vpn)]) {
      ChildOnPath(s, r, t, vpn);
      FromNode(s, r, Ppn(s.mem[t][PX(s.owner[t].level, vpn)]), vpn);
    }
  }

  /** A level-0 table of a root is reached from that root. */
  lemma NodeReached(s: State, t: nat, i: nat)
    requires Wf(s) && t in s.owner && s.owner[t].Node? && s.owner[t].level == 0 && i < 512
    ensures var r, vpn := s.owner[t].root, s.owner[t].pre * 512 + i;
            IsRoot(s, r) && vpn < MAXVPN && WalkFrom(s.mem, r, 2, vpn) == Some(t)
  {
    var r, vpn := s.owner[t].root, s.owner[t].pre * 512 + i;
    assert UpAt(s, t);
    var p := s.owner[t].parent;
    assert UpAt(s, p);
    var q := s.owner[p].parent;
    assert UpAt(s, q);
    assert q == r;
    assert vpn / 512 == s.owner[t].pre;
    PteParts(t, 0);
    PteParts(p, 0);
    assert WalkFrom(s.mem, t, 0, vpn) == Some(t);
    assert WalkFrom(s.mem, p, 1, vpn) == WalkFrom(s.mem, t, 0, vpn);
    assert WalkFrom(s.mem, r, 2, vpn) == WalkFrom(s.mem, p, 1, vpn);
  }

  /** Two level-0 tables of one place are the same frame. */
  lemma NodeUnique(s: State, t: nat, t': nat)
    requires Wf(s) && t in s.owner && s.owner[t].Node? && s.owner[t].level == 0
    requires t' in s.owner && s.owner[t'].Node? && s.owner[t'].level == 0
    requires s.owner[t].root == s.owner[t'].root && s.owner[t].pre == s.owner[t'].pre
    ensures t == t'
  {
    hide Wf;
    NodeReached(s, t, 0);
    NodeReached(s, t', 0);
  }

  /** Nothing but the tables of a root decides its translations. */
  lemma {:induction false} FromKept(s: State, mem: seq<Page>, r: nat, t: nat, vpn: nat)
    requires OnPath(s, r, t, vpn) && |mem| == |s.mem|
    requires forall f :: f in s.owner && s.owner[f].Node? && s.owner[f].root == r ==> mem[f] == s.mem[f]
    ensures WalkFrom(mem, t, s.owner[t].level, vpn) == WalkFrom(s.mem, t, s.owner[t].level, vpn)
    ensures LookupFrom(mem, t, s.owner[t].level, vpn) == LookupFrom(s.mem, t, s.owner[t].level, vpn)
    ensures MissingFrom(mem, t, s.owner[t].level, vpn) == MissingFrom(s.mem, t, s.owner[t].level, vpn)
    decreases s.owner[t].level
  {
    if s.owner[t].level > 0 && V(s.mem[t][PX(s.owner[t].level, vpn)]) {
      ChildOnPath(s, r, t, vpn);
      FromKept(s, mem, r, Ppn(s.mem[t][PX(s.owner[t].level, vpn)]), vpn);
    }
  }

  lemma LookupKept(s: State, mem: seq<Page>, r: nat)
    requires Wf(s) && IsRoot(s, r) && |mem| == |s.mem|
    requires forall f :: f in s.owner && s.owner[f].Node? && s.owner[f].root == r ==> mem[f] == s.mem[f]
    ensures forall v :: 0 <= v < MAXVPN ==> Lookup(mem, r, v) == Lookup(s.mem, r, v)
    ensures forall v :: 0 <= v < MAXVPN ==> Missing(mem, r, v) == Missing(s.mem, r, v)
  {
    forall v | 0 <= v < MAXVPN
      ensures Lookup(mem, r, v) == Lookup(s.mem, r, v) && Missing(mem, r, v) == Missing(s.mem, r, v)
    {
      RootOnPath(s, r, v);
      FromKept(s, mem, r, r, v);
    }
  }

  /** A new empty table changes no translation, and one table fewer is missing below it. */
  lemma {:induction false} FromLinked(s: State, t: nat, i: nat, g: nat, r: nat, cur: nat, vpn: nat)
    requires Wf(s) && CanLink(s, t, i, g) && OnPath(s, r, cur, vpn)
    ensures LookupFrom(Linked(s, t, i, g).mem, cur, s.owner[cur].level, vpn)
            == LookupFrom(s.mem, cur, s.owner[cur].level, vpn)
    decreases s.owner[cur].level
  {
    var level := s.owner[cur].level;
    var mem' := Linked(s, t, i, g).mem;
    assert g != t && cur != g;
    PteParts(g, 0);
    if cur == t && PX(level, vpn) == i {
      assert mem'[g] == ZeroPage();
      assert LookupFrom(mem', g, level - 1, vpn) == None;
    } else if level > 0 && V(s.mem[cur][PX(level, vpn)]) {
      ChildOnPath(s, r, cur, vpn);
      FromLinked(s, t, i, g, r, Ppn(s.mem[cur][PX(level, vpn)]), vpn);
    }
  }

  /** A word stored at level 0 decides the translation of its own page and of no other. */
  lemma {:induction false} FromStored(s: State, t: nat, i: nat, w: nat, r: nat, cur: nat, vpn: nat)
    requires OnPath(s, r, cur, vpn) && t in s.owner && s.owner[t].Node? && s.owner[t].level == 0 && i < 512
    ensures var mem' := Stored(s, t, i, w).mem;
            && MissingFrom(mem', cur, s.owner[cur].level, vpn) == MissingFrom(s.mem, cur, s.owner[cur].level, vpn)
            && LookupFrom(mem', cur, s.owner[cur].level, vpn) ==
               if WalkFrom(s.mem, cur, s.owner[cur].level, vpn) == Some(t) && vpn % 512 == i
               then if V(w) then Some(w) else None
               else LookupFrom(s.mem, cur, s.owner[cur].level, vpn)
    decreases s.owner[cur].level
  {
    var level := s.owner[cur].level;
    if level > 0 && V(s.mem[cur][PX(level, vpn)]) {
      ChildOnPath(s, r, cur, vpn);
      FromStored(s, t, i, w, r, Ppn(s.mem[cur][PX(level, vpn)]), vpn);
    }
  }

  lemma LookupStored(s: State, t: nat, i: nat, w: nat)
    requires Wf(s) && t in s.owner && s.owner[t].Node? && s.owner[t].level == 0 && i < 512
    ensures forall r, v :: IsRoot(s, r) && 0 <= v < MAXVPN ==>
              && Missing(Stored(s, t, i, w).mem, r, v) == Missing(s.mem, r, v)
              && Lookup(Stored(s, t, i, w).mem, r, v) ==
                 if r == s.owner[t].root && v == s.owner[t].pre * 512 + i
                 then if V(w) then Some(w) else None
                 else Lookup(s.mem, r, v)
  {
    forall r, v | IsRoot(s, r) && 0 <= v < MAXVPN
      ensures && Missing(Stored(s, t, i, w).mem, r, v) == Missing(s.mem, r, v)
              && Lookup(Stored(s, t, i, w).mem, r, v) ==
                 if r == s.owner[t].root && v == s.owner[t].pre * 512 + i
                 then if V(w) then Some(w) else None
                 else Lookup(s.mem, r, v)
    {
      RootOnPath(s, r, v);
      FromNode(s, r, r, v);
      FromStored(s, t, i, w, r, r, v);
      NodeReached(s, t, i);
    }
  }

  /** The entry of a page, read in its level-0 table. */
  lemma LookupAt(s: State, t: nat, vpn: nat)
    requires Wf(s) && t in s.owner && s.owner[t].Node? && s.owner[t].level == 0 && s.owner[t].pre == vpn / 512
    ensures IsRoot(s, s.owner[t].root) && vpn < MAXVPN
    ensures Missing(s.mem, s.owner[t].root, vpn) == 0
    ensures Lookup(s.mem, s.owner[t].root, vpn) ==
            if V(s.mem[t][vpn % 512]) then Some(s.mem[t][vpn % 512]) else None
  {
    NodeReached(s, t, vpn % 512);
    RootOnPath(s, s.owner[t].root, vpn);
    FromNode(s, s.owner[t].root, s.owner[t].root, vpn);
  }

  /** A translated page lies in a level-0 table of its root. */
  lemma TableOf(s: State, r: nat, vpn: nat) returns (t: nat)
    requires Wf(s) && IsRoot(s, r) && vpn < MAXVPN && Missing(s.mem, r, vpn) == 0
    ensures t in s.owner && s.owner[t].Node? && s.owner[t].root == r && s.owner[t].level == 0
    ensures s.owner[t].pre == vpn / 512
    ensures WalkFrom(s.mem, r, 2, vpn) == Some(t)
  {
    RootOnPath(s, r, vpn);
    FromNode(s, r, r, vpn);
    t := WalkFrom(s.mem, r, 2, vpn).value;
  }

  lemma MappedNotMissing(s: State, r: nat, vpn: nat)
    requires Wf(s) && IsRoot(s, r) && vpn < MAXVPN && Lookup(s.mem, r, vpn).Some?
    ensures Missing(s.mem, r, vpn) == 0
  {
    RootOnPath(s, r, vpn);
    FromNode(s, r, r, vpn);
  }

  /** Pages that share a level-0 table miss the same tables. */
  lemma MissingShared(s: State, r: nat, v: nat, v': nat)
    requires Wf(s) && IsRoot(s, r) && v < MAXVPN && v' < MAXVPN && v / 512 == v' / 512
    requires Missing(s.mem, r, v) == 0
    ensures Missing(s.mem, r, v') == 0
  {
    var t := TableOf(s, r, v);
    LookupAt(s, t, v');
  }

  /** An owned leaf frame is what its page translates to. */
  lemma OwnedMapped(s: State, f: nat)
    requires Wf(s) && f in s.owner && s.owner[f].Leaf?
    ensures IsRoot(s, s.owner[f].root) && s.owner[f].vpn < MAXVPN
    ensures Lookup(s.mem, s.owner[f].root, s.owner[f].vpn).Some?
    ensures Ppn(Lookup(s.mem, s.owner[f].root, s.owner[f].vpn).value) == f
  {
    assert LeafAt(s, f);
    LookupAt(s, s.owner[f].table, s.owner[f].vpn);
  }
}
