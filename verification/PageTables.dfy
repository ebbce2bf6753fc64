/** Physical frames, their owners and the page-table trees they hold. */
module PageTables {
  import opened Words

  /** What a managed frame is used for. A frame has one owner, so two roles never meet in it.
      Dying is a table that freewalk has entered: the entries below cut are done with. */
  datatype Owner =
    | Free
    | Held
    | Trapframe(slot: nat)
    | Node(root: nat, level: nat, pre: nat, parent: nat)
    | Dying(root: nat, level: nat, pre: nat, cut: nat)
    | Leaf(root: nat, vpn: nat, table: nat)

  /** Memory by frame number, the owners of the frames in [lo, |mem|), and the free list. */
  datatype State = State(lo: nat, mem: seq<Page>, owner: map<nat, Owner>, fl: seq<nat>)

  predicate IsTable(o: Owner) { o.Node? || o.Dying? }

  predicate IsRoot(s: State, r: nat) {
    r in s.owner && s.owner[r].Node? && s.owner[r].level == 2
  }

  /** The address that a free frame stores in its first word. */
  function NextPtr(fl: seq<nat>, i: nat): nat {
    if i + 1 < |fl| then fl[i + 1] * PGSIZE else 0
  }

  ghost predicate DomOk(s: State) {
    && 0 < s.lo <= |s.mem|
    && forall f :: f in s.owner <==> s.lo <= f < |s.mem|
  }

  /** The free list is duplicate-free, threaded through the frames, and holds the free frames. */
  ghost predicate FreeOk(s: State)
    requires DomOk(s)
  {
    && (forall i, j :: 0 <= i < j < |s.fl| ==> s.fl[i] != s.fl[j])
    && (forall f :: f in s.owner ==> (s.owner[f] == Free <==> f in s.fl))
    && (forall i :: 0 <= i < |s.fl| ==> s.fl[i] in s.owner)
    && (forall i :: 0 <= i < |s.fl| ==> s.mem[s.fl[i]][0] == NextPtr(s.fl, i))
  }

  /** A valid entry above level 0 is a bare pointer to a table of that very place. */
  ghost predicate Down(s: State)
    requires DomOk(s)
  {
    forall f, i {:trigger s.mem[f][i]} ::
      f in s.owner && IsTable(s.owner[f]) && s.owner[f].level > 0 && 0 <= i < 512
      && (s.owner[f].Dying? ==> s.owner[f].cut <= i) && V(s.mem[f][i])
      ==> DownAt(s, f, i)
  }

  ghost predicate DownAt(s: State, f: nat, i: nat)
    requires DomOk(s) && f in s.owner && IsTable(s.owner[f]) && s.owner[f].level > 0 && i < 512
  {
    var g := Ppn(s.mem[f][i]);
    && s.mem[f][i] == g * 1024 + PTE_V
    && g in s.owner
    && s.owner[g] == Node(s.owner[f].root, s.owner[f].level - 1, s.owner[f].pre * 512 + i, f)
  }

  /** A table below the root is pointed to by its parent, at the index its place gives. */
  ghost predicate Up(s: State)
    requires DomOk(s)
  {
    forall g :: g in s.owner ==> UpAt(s, g)
  }

  ghost predicate UpAt(s: State, g: nat)
    requires DomOk(s) && g in s.owner
  {
    && (IsTable(s.owner[g]) ==>
          && s.owner[g].level <= 2
          && (s.owner[g].level == 2 ==> g == s.owner[g].root && s.owner[g].pre == 0))
    && (s.owner[g].Node? ==>
          && (s.owner[g].level == 1 ==> s.owner[g].pre < 256)
          && (s.owner[g].level == 0 ==> s.owner[g].pre < 0x20000)
          && (s.owner[g].level < 2 ==> HangsFrom(s, g, s.owner[g].parent)))
  }

  ghost predicate HangsFrom(s: State, g: nat, p: nat)
    requires DomOk(s) && g in s.owner && s.owner[g].Node?
  {
    && p in s.owner && IsTable(s.owner[p])
    && s.owner[p].root == s.owner[g].root
    && s.owner[p].level == s.owner[g].level + 1
    && s.owner[p].pre == s.owner[g].pre / 512
    && s.mem[p][s.owner[g].pre % 512] == g * 1024 + PTE_V
    && (s.owner[p].Dying? ==> s.owner[p].cut <= s.owner[g].pre % 512)
  }

  /** An owned leaf frame is mapped at the page its owner names. */
  ghost predicate LeafOk(s: State)
    requires DomOk(s)
  {
    forall f :: f in s.owner && s.owner[f].Leaf? ==> LeafAt(s, f)
  }

  ghost predicate LeafAt(s: State, f: nat)
    requires DomOk(s) && f in s.owner && s.owner[f].Leaf?
  {
    var t, vpn := s.owner[f].table, s.owner[f].vpn;
    && t in s.owner && s.owner[t].Node?
    && s.owner[t].root == s.owner[f].root && s.owner[t].level == 0 && s.owner[t].pre == vpn / 512
    && V(s.mem[t][vpn % 512]) && Ppn(s.mem[t][vpn % 512]) == f
  }

  ghost predicate Core(s: State) {
    DomOk(s) && FreeOk(s) && Down(s) && Up(s) && LeafOk(s)
  }

  /** The invariant outside freewalk. */
  ghost predicate Wf(s: State) {
    Core(s) && forall f :: f in s.owner ==> !s.owner[f].Dying?
  }

  // --------------------------------------------------------- memory as read

  /** The level-0 table that the entries of memory lead to. */
  function WalkFrom(mem: seq<Page>, t: nat, level: nat, vpn: nat): Option<nat>
    decreases level
  {
    if t >= |mem| then None
    else if level == 0 then Some(t)
    else if V(mem[t][PX(level, vpn)]) then WalkFrom(mem, Ppn(mem[t][PX(level, vpn)]), level - 1, vpn)
    else None
  }

  /** The valid leaf entry that the entries of memory lead to. */
  function LookupFrom(mem: seq<Page>, t: nat, level: nat, vpn: nat): Option<nat>
    decreases level
  {
    if t >= |mem| || !V(mem[t][PX(level, vpn)]) then None
    else if level == 0 then Some(mem[t][PX(level, vpn)])
    else LookupFrom(mem, Ppn(mem[t][PX(level, vpn)]), level - 1, vpn)
  }

  /** How many tables are missing on the way to a page. */
  function MissingFrom(mem: seq<Page>, t: nat, level: nat, vpn: nat): nat
    decreases level
  {
    if level == 0 || t >= |mem| then 0
    else if V(mem[t][PX(level, vpn)]) then MissingFrom(mem, Ppn(mem[t][PX(level, vpn)]), level - 1, vpn)
    else level
  }

  function Lookup(mem: seq<Page>, r: nat, vpn: nat): Option<nat> { LookupFrom(mem, r, 2, vpn) }

  function Missing(mem: seq<Page>, r: nat, vpn: nat): nat { MissingFrom(mem, r, 2, vpn) }

  // -------------------------------------------------------------- the steps

  /** No tree or mapping hangs on a frame with this owner. */
  predicate Plain(o: Owner) { o.Free? || o.Held? || o.Trapframe? }

  predicate Spent(o: Owner) { o.Dying? && (o.cut >= 512 || o.level == 0) }

  /** From s to s', only frames that carry no tree change, or lose the role of leaf or spent table. */
  ghost predicate TablesKept(s: State, s': State)
    requires DomOk(s)
  {
    && DomOk(s') && s'.owner.Keys == s.owner.Keys && |s'.mem| == |s.mem| && s'.lo == s.lo
    && (forall f :: f in s.owner ==>
          || s'.owner[f] == s.owner[f]
          || (Plain(s'.owner[f]) && (Plain(s.owner[f]) || s.owner[f].Leaf? || Spent(s.owner[f]))))
    && (forall f :: f in s.owner && IsTable(s'.owner[f]) ==> s'.mem[f] == s.mem[f])
  }

  lemma KeptDown(s: State, s': State)
    requires DomOk(s) && Down(s) && TablesKept(s, s')
    ensures Down(s')
  {
    forall g, i | g in s'.owner && IsTable(s'.owner[g]) && s'.owner[g].level > 0 && 0 <= i < 512
                  && (s'.owner[g].Dying? ==> s'.owner[g].cut <= i) && V(s'.mem[g][i])
      ensures DownAt(s', g, i)
    {
      assert s.mem[g][i] == s'.mem[g][i];
      assert DownAt(s, g, i);
    }
  }

  lemma KeptUp(s: State, s': State)
    requires DomOk(s) && Up(s) && TablesKept(s, s')
    ensures Up(s')
  {
    forall g | g in s'.owner ensures UpAt(s', g) {
      assert UpAt(s, g);
    }
  }

  lemma KeptLeaf(s: State, s': State)
    requires DomOk(s) && LeafOk(s) && TablesKept(s, s')
    ensures LeafOk(s')
  {
    forall g | g in s'.owner && s'.owner[g].Leaf? ensures LeafAt(s', g) {
      assert LeafAt(s, g);
    }
  }

  lemma KeptTrees(s: State, s': State)
    requires Core(s) && TablesKept(s, s')
    ensures Down(s') && Up(s') && LeafOk(s')
  {
    KeptDown(s, s');
    KeptUp(s, s');
    KeptLeaf(s, s');
  }

  /** kalloc: the head of the list is zeroed and handed out. */
  function Popped(s: State): State
    requires s.fl != [] && s.fl[0] < |s.mem|
  {
    State(s.lo, s.mem[s.fl[0] := ZeroPage()], s.owner[s.fl[0] := Held], s.fl[1..])
  }

  lemma PoppedFree(s: State)
    requires DomOk(s) && FreeOk(s) && s.fl != []
    ensures DomOk(Popped(s)) && FreeOk(Popped(s))
  {
    var s' := Popped(s);
    forall i | 0 <= i < |s'.fl|
      ensures s'.mem[s'.fl[i]][0] == NextPtr(s'.fl, i)
    {
      assert s'.fl[i] == s.fl[i + 1];
      assert s.mem[s.fl[i + 1]][0] == NextPtr(s.fl, i + 1);
    }
  }

  lemma PoppedCore(s: State)
    requires Core(s) && s.fl != []
    ensures Core(Popped(s))
  {
    PoppedFree(s);
    KeptTrees(s, Popped(s));
  }

  /** A frame nothing refers to any more, or whose page the caller is about to unmap. */
  predicate Freeable(o: Owner) {
    o.Held? || o.Trapframe? || o.Leaf? || Spent(o)
  }

  /** kfree: the frame becomes the head of the list and stores the old head. */
  function Pushed(s: State, f: nat): State
    requires f < |s.mem|
  {
    State(s.lo, s.mem[f := s.mem[f][0 := NextPtr([f] + s.fl, 0)]], s.owner[f := Free], [f] + s.fl)
  }

  lemma PushedFree(s: State, f: nat)
    requires DomOk(s) && FreeOk(s) && f in s.owner && s.owner[f] != Free
    ensures DomOk(Pushed(s, f)) && FreeOk(Pushed(s, f))
  {
    var s' := Pushed(s, f);
    assert f !in s.fl;
    forall i | 0 <= i < |s'.fl|
      ensures s'.fl[i] in s'.owner && s'.mem[s'.fl[i]][0] == NextPtr(s'.fl, i)
    {
      if i > 0 {
        assert s'.fl[i] == s.fl[i - 1];
        assert s.mem[s.fl[i - 1]][0] == NextPtr(s.fl, i - 1);
      }
    }
  }

  lemma PushedCore(s: State, f: nat)
    requires Core(s) && f in s.owner && Freeable(s.owner[f])
    ensures Core(Pushed(s, f))
  {
    PushedFree(s, f);
    KeptTrees(s, Pushed(s, f));
  }

  predicate IsData(o: Owner) { o.Held? || o.Trapframe? || o.Leaf? }

  /** The whole contents of a data frame are replaced. */
  function Filled(s: State, f: nat, p: Page): State
    requires f < |s.mem|
  {
    State(s.lo, s.mem[f := p], s.owner, s.fl)
  }

  lemma FilledCore(s: State, f: nat, p: Page)
    requires Core(s) && f in s.owner && IsData(s.owner[f])
    ensures Core(Filled(s, f, p))
  {
    KeptTrees(s, Filled(s, f, p));
  }

  /** A held, zeroed frame becomes the table under entry i of table t. */
  function Linked(s: State, t: nat, i: nat, g: nat): State
    requires t < |s.mem| && t in s.owner && s.owner[t].Node? && s.owner[t].level > 0 && i < 512
  {
    State(s.lo, s.mem[t := s.mem[t][i := Pte(g, 0)]],
          s.owner[g := Node(s.owner[t].root, s.owner[t].level - 1, s.owner[t].pre * 512 + i, t)], s.fl)
  }

  ghost predicate CanLink(s: State, t: nat, i: nat, g: nat)
    requires DomOk(s)
  {
    && t in s.owner && s.owner[t].Node? && s.owner[t].level > 0
    && i < 512 && (s.owner[t].level == 2 ==> i < 256)
    && !V(s.mem[t][i])
    && g in s.owner && s.owner[g] == Held && s.mem[g] == ZeroPage()
  }

  lemma LinkedDown(s: State, t: nat, i: nat, g: nat)
    requires DomOk(s) && Down(s) && CanLink(s, t, i, g)
    ensures Down(Linked(s, t, i, g))
  {
    var s' := Linked(s, t, i, g);
    forall h, j | h in s'.owner && IsTable(s'.owner[h]) && s'.owner[h].level > 0 && 0 <= j < 512
                  && (s'.owner[h].Dying? ==> s'.owner[h].cut <= j) && V(s'.mem[h][j])
      ensures DownAt(s', h, j)
    {
      if h == t && j == i {
        PteParts(g, 0);
      } else {
        assert h != g;
        assert s.mem[h][j] == s'.mem[h][j];
        assert DownAt(s, h, j);
      }
    }
  }

  lemma LinkedHangs(s: State, t: nat, i: nat, g: nat, h: nat, p: nat)
    requires DomOk(s) && CanLink(s, t, i, g) && h in s.owner && h != g && s.owner[h].Node?
    requires HangsFrom(s, h, p)
    ensures HangsFrom(Linked(s, t, i, g), h, p)
  {
    assert V(s.mem[p][s.owner[h].pre % 512]);
    assert p != g && (p != t || s.owner[h].pre % 512 != i);
  }

  lemma LinkedUpAt(s: State, t: nat, i: nat, g: nat, h: nat)
    requires DomOk(s) && CanLink(s, t, i, g) && h in s.owner && h != g && UpAt(s, h)
    ensures UpAt(Linked(s, t, i, g), h)
  {
    hide HangsFrom;
    if s.owner[h].Node? && s.owner[h].level < 2 {
      LinkedHangs(s, t, i, g, h, s.owner[h].parent);
    }
  }

  lemma LinkedUp(s: State, t: nat, i: nat, g: nat)
    requires DomOk(s) && Up(s) && CanLink(s, t, i, g)
    ensures Up(Linked(s, t, i, g))
  {
    var s' := Linked(s, t, i, g);
    assert UpAt(s, t);
    forall h | h in s'.owner ensures UpAt(s', h) {
      if h == g {
        assert UpAt(s', g);
      } else {
        LinkedUpAt(s, t, i, g, h);
      }
    }
  }

  lemma LinkedLeaf(s: State, t: nat, i: nat, g: nat)
    requires DomOk(s) && LeafOk(s) && CanLink(s, t, i, g)
    ensures LeafOk(Linked(s, t, i, g))
  {
    var s' := Linked(s, t, i, g);
    forall h | h in s'.owner && s'.owner[h].Leaf? ensures LeafAt(s', h) {
      assert LeafAt(s, h);
    }
  }

  lemma LinkedCore(s: State, t: nat, i: nat, g: nat)
    requires Core(s) && CanLink(s, t, i, g)
    ensures Core(Linked(s, t, i, g))
  {
    LinkedDown(s, t, i, g);
    LinkedUp(s, t, i, g);
    LinkedLeaf(s, t, i, g);
  }

  /** A word is stored in a level-0 table. */
  function Stored(s: State, t: nat, i: nat, w: nat): State
    requires t < |s.mem| && i < 512
  {
    State(s.lo, s.mem[t := s.mem[t][i := w]], s.owner, s.fl)
  }

  /** No owned leaf hangs on entry i of table t. */
  ghost predicate Loose(s: State, t: nat, i: nat) {
    forall f :: f in s.owner && s.owner[f].Leaf? && s.owner[f].table == t ==> s.owner[f].vpn % 512 != i
  }

  lemma StoredDown(s: State, t: nat, i: nat, w: nat)
    requires DomOk(s) && Down(s) && t in s.owner && s.owner[t].Node? && s.owner[t].level == 0 && i < 512
    ensures Down(Stored(s, t, i, w))
  {
    var s' := Stored(s, t, i, w);
    forall h, j | h in s'.owner && IsTable(s'.owner[h]) && s'.owner[h].level > 0 && 0 <= j < 512
                  && (s'.owner[h].Dying? ==> s'.owner[h].cut <= j) && V(s'.mem[h][j])
      ensures DownAt(s', h, j)
    {
      assert s.mem[h][j] == s'.mem[h][j];
      assert DownAt(s, h, j);
    }
  }

  lemma StoredCore(s: State, t: nat, i: nat, w: nat)
    requires Core(s) && t in s.owner && s.owner[t].Node? && s.owner[t].level == 0 && i < 512
    requires Loose(s, t, i)
    ensures Core(Stored(s, t, i, w))
  {
    var s' := Stored(s, t, i, w);
    StoredDown(s, t, i, w);
    hide Down;
    forall h | h in s'.owner ensures UpAt(s', h) {
      assert UpAt(s, h);
    }
    forall h | h in s'.owner && s'.owner[h].Leaf? ensures LeafAt(s', h) {
      assert LeafAt(s, h);
    }
  }

  /** The held frame that a valid level-0 entry names passes from its holder to the page. */
  function Adopted(s: State, t: nat, i: nat): State
    requires t < |s.mem| && i < 512 && t in s.owner && s.owner[t].Node?
  {
    State(s.lo, s.mem, s.owner[Ppn(s.mem[t][i]) := Leaf(s.owner[t].root, s.owner[t].pre * 512 + i, t)], s.fl)
  }

  ghost predicate CanAdopt(s: State, t: nat, i: nat)
    requires DomOk(s)
  {
    && t in s.owner && s.owner[t].Node? && s.owner[t].level == 0 && i < 512
    && V(s.mem[t][i]) && Ppn(s.mem[t][i]) in s.owner && s.owner[Ppn(s.mem[t][i])] == Held
  }

  lemma AdoptedDown(s: State, t: nat, i: nat)
    requires DomOk(s) && Down(s) && CanAdopt(s, t, i)
    ensures Down(Adopted(s, t, i))
  {
    var s' := Adopted(s, t, i);
    forall h, j | h in s'.owner && IsTable(s'.owner[h]) && s'.owner[h].level > 0 && 0 <= j < 512
                  && (s'.owner[h].Dying? ==> s'.owner[h].cut <= j) && V(s'.mem[h][j])
      ensures DownAt(s', h, j)
    {
      assert DownAt(s, h, j);
    }
  }

  lemma AdoptedUp(s: State, t: nat, i: nat)
    requires DomOk(s) && Up(s) && CanAdopt(s, t, i)
    ensures Up(Adopted(s, t, i))
  {
    var s' := Adopted(s, t, i);
    forall h | h in s'.owner ensures UpAt(s', h) {
      assert UpAt(s, h);
    }
  }

  lemma AdoptedCore(s: State, t: nat, i: nat)
    requires Core(s) && CanAdopt(s, t, i)
    ensures Core(Adopted(s, t, i))
  {
    var s' := Adopted(s, t, i);
    AdoptedDown(s, t, i);
    AdoptedUp(s, t, i);
    hide Down, Up;
    forall h | h in s'.owner && s'.owner[h].Leaf? ensures LeafAt(s', h) {
      if h != Ppn(s.mem[t][i]) {
        assert LeafAt(s, h);
      }
    }
  }
}
