/** The address translation algorithm of the RISC-V Privileged Architecture v1.12,
    section 4.3.2, with the Sv39 parameters of section 4.4. */
module Sv39 {
  import opened Words
  import opened PageTables
  import opened Translation

  datatype Access = Load | Store | Fetch

  const RESERVED: nat := 0x40_0000_0000_0000

  /** Step 5, with SUM = 0 and MXR = 0. */
  predicate Permits(pte: nat, a: Access, user: bool) {
    && U(pte) == user
    && (a.Load? ==> R(pte))
    && (a.Store? ==> W(pte))
    && (a.Fetch? ==> X(pte))
  }

  /** Step 3: what makes an entry fault before it is even told leaf from pointer. */
  predicate Faulty(pte: nat) {
    !V(pte) || (!R(pte) && W(pte)) || pte >= RESERVED
  }

  function Pow512(i: nat): (p: nat)
    ensures p > 0
  {
    if i == 0 then 1 else 512 * Pow512(i - 1)
  }

  /** Steps 2 to 8 from table a at level i; None is a page fault. */
  function Translate(mem: seq<Page>, a: nat, i: nat, va: nat, acc: Access, user: bool): Option<nat>
    decreases i
  {
    if a >= |mem| then None
    else
      var pte := mem[a][PX(i, va / PGSIZE)];
      if Faulty(pte) then None
      else if R(pte) || X(pte) then
        if !Permits(pte, acc, user) || Ppn(pte) % Pow512(i) != 0 then None
        else Some((Ppn(pte) + va / PGSIZE % Pow512(i)) * PGSIZE + va % PGSIZE)
      else if i == 0 then None
      else Translate(mem, Ppn(pte), i - 1, va, acc, user)
  }

  /** What the hardware does with the leaf that walk finds. */
  function LeafTranslation(leaf: Option<nat>, va: nat, acc: Access, user: bool): Option<nat> {
    if leaf.None? || Faulty(leaf.value) || !(R(leaf.value) || X(leaf.value)) then None
    else if !Permits(leaf.value, acc, user) then None
    else Some(Ppn(leaf.value) * PGSIZE + va % PGSIZE)
  }

  /** A pointer to a table is neither leaf nor fault, and its table is the next one. */
  lemma PointerStep(mem: seq<Page>, a: nat, i: nat, va: nat, acc: Access, user: bool, g: nat)
    requires a < |mem| && i > 0 && mem[a][PX(i, va / PGSIZE)] == g * 1024 + PTE_V && g * 1024 + PTE_V < RESERVED
    ensures Translate(mem, a, i, va, acc, user) == Translate(mem, g, i - 1, va, acc, user)
  {
    PointerBits(g);
  }

  lemma LastStep(mem: seq<Page>, a: nat, va: nat, acc: Access, user: bool)
    requires a < |mem|
    ensures Translate(mem, a, 0, va, acc, user) == LeafTranslation(LookupFrom(mem, a, 0, va / PGSIZE), va, acc, user)
  {
    assert Pow512(0) == 1;
  }

  lemma {:induction false} TranslateFrom(s: State, r: nat, t: nat, va: nat, acc: Access, user: bool)
    requires OnPath(s, r, t, va / PGSIZE) && |s.mem| * 1024 < RESERVED
    ensures Translate(s.mem, t, s.owner[t].level, va, acc, user)
            == LeafTranslation(LookupFrom(s.mem, t, s.owner[t].level, va / PGSIZE), va, acc, user)
    decreases s.owner[t].level
  {
    var level, vpn := s.owner[t].level, va / PGSIZE;
    var pte := s.mem[t][PX(level, vpn)];
    if level == 0 {
      LastStep(s.mem, t, va, acc, user);
    } else if V(pte) {
      assert DownAt(s, t, PX(level, vpn));
      ChildOnPath(s, r, t, vpn);
      TranslateFrom(s, r, Ppn(pte), va, acc, user);
      PointerStep(s.mem, t, level, va, acc, user, Ppn(pte));
    }
  }

  /** The trees this kernel builds translate, under the Sv39 algorithm, exactly as its own
      lookup says: through level-0 leaves only, so that no superpage is ever met. */
  lemma AgreesWithSv39(s: State, r: nat, va: nat, acc: Access, user: bool)
    requires Wf(s) && IsRoot(s, r) && va < MAXVA && |s.mem| * 1024 < RESERVED
    ensures Translate(s.mem, r, 2, va, acc, user)
            == LeafTranslation(Lookup(s.mem, r, va / PGSIZE), va, acc, user)
  {
    RootOnPath(s, r, va / PGSIZE);
    TranslateFrom(s, r, r, va, acc, user);
  }

  /** The same, by the bits of the entry: 1 valid, 2 read, 4 write, 8 execute, 16 user. */
  lemma GrantsByBits(s: State, r: nat, va: nat, acc: Access, user: bool)
    requires Wf(s) && IsRoot(s, r) && va < MAXVA && |s.mem| * 1024 < RESERVED
    ensures var leaf, got := Lookup(s.mem, r, va / 4096), Translate(s.mem, r, 2, va, acc, user);
            && (leaf.None? ==> got == None)
            && (leaf.Some? ==>
                  var w := leaf.value;
                  var need := match acc case Load => 2 case Store => 4 case Fetch => 8;
                  got == if w % 2 == 1 && (w / 16 % 2 == 1 <==> user) && w / need % 2 == 1
                            && (w / 4 % 2 == 1 ==> w / 2 % 2 == 1) && w < 0x40_0000_0000_0000
                         then Some(w / 1024 * 4096 + va % 4096) else None)
  {
    AgreesWithSv39(s, r, va, acc, user);
    hide Translate, Lookup, Wf;
  }

  /** What the entries that this kernel makes grant. */
  lemma EntryGrants(g: nat, acc: Access, user: bool)
    requires g * 1024 + 31 < RESERVED
    ensures LeafTranslation(Some(g * 1024 + 31), 0, acc, user) == if user then Some(g * 4096) else None
    ensures LeafTranslation(Some(g * 1024 + 7), 0, acc, user)
            == if !user && !acc.Fetch? then Some(g * 4096) else None
    ensures LeafTranslation(Some(g * 1024 + 11), 0, acc, user)
            == if !user && !acc.Store? then Some(g * 4096) else None
  {
    FlagParts(g, 31);
    FlagParts(g, 7);
    FlagParts(g, 11);
  }

  lemma FlagParts(g: nat, n: nat)
    requires n < 1024
    ensures var w := g * 1024 + n;
            && w % 2 == n % 2 && w / 2 % 2 == n / 2 % 2 && w / 4 % 2 == n / 4 % 2 && w / 8 % 2 == n / 8 % 2
            && w / 16 % 2 == n / 16 % 2 && w / 1024 == g
  {
    ReadBit(g * 256, n);
    WriteBit(g * 128, n);
    ExecuteBit(g * 64, n);
    UserBit(g * 32, n);
    Parity1024(g, n);
    Split1024(g, n);
  }

  lemma ReadBit(h: nat, n: nat)
    ensures (h * 4 + n) / 2 % 2 == n / 2 % 2
  {
    assert (h * 4 + n) / 2 == 2 * h + n / 2;
  }

  lemma WriteBit(h: nat, n: nat)
    ensures (h * 8 + n) / 4 % 2 == n / 4 % 2
  {
    assert (h * 8 + n) / 4 == 2 * h + n / 4;
  }

  lemma ExecuteBit(h: nat, n: nat)
    ensures (h * 16 + n) / 8 % 2 == n / 8 % 2
  {
    assert (h * 16 + n) / 8 == 2 * h + n / 8;
  }

  lemma UserBit(h: nat, n: nat)
    ensures (h * 32 + n) / 16 % 2 == n / 16 % 2
  {
    assert (h * 32 + n) / 16 == 2 * h + n / 16;
  }
}
