/** What the hardware lets a process and the kernel do in the address space of a process. */
module Access {
  import opened Words
  import opened PageTables
  import opened Translation
  import opened Changes
  import opened UserBytes
  import opened Space
  import opened Exec
  import opened Sv39

  /** Above its size user mode reaches nothing; the two shared pages are the kernel's: the trapframe for loads
      and stores, the trampoline for loads and fetches. */
  lemma BeyondSize(s: State, r: nat, tf: nat, tramp: nat, sz: nat, va: nat, acc: Access)
    requires SpaceOk(s, r, tf, tramp, sz) && Pages(sz) * 4096 <= va < MAXVA && |s.mem| * 1024 < RESERVED
    requires tf * 1024 + 31 < RESERVED && tramp * 1024 + 31 < RESERVED
    ensures Translate(s.mem, r, 2, va, acc, true) == None
    ensures Translate(s.mem, r, 2, va, acc, false)
            == if va / 4096 == 0x3ff_fffe && !acc.Fetch? then Some(tf * 4096 + va % 4096)
               else if va / 4096 == 0x3ff_ffff && !acc.Store? then Some(tramp * 4096 + va % 4096)
               else None
  {
    hide Wf, Lookup, Translate, OwnPage, Pages;
    AgreesWithSv39(s, r, va, acc, true);
    AgreesWithSv39(s, r, va, acc, false);
    FlagParts(tf, 7);
    FlagParts(tramp, 11);
    assert Pages(sz) <= va / PGSIZE;
    if va / PGSIZE == TRAPFRAME {
      assert Lookup(s.mem, r, va / PGSIZE) == Some(tf * 1024 + 7);
    } else if va / PGSIZE == TRAMPOLINE {
      assert Lookup(s.mem, r, va / PGSIZE) == Some(tramp * 1024 + 11);
    } else {
      assert Lookup(s.mem, r, va / PGSIZE) == None;
    }
  }

  /** Behind exec user mode may load, store and fetch everywhere in page 0, and the kernel nothing: the page is a
      frame that was free, and it is the only one. */
  lemma NewImageAccess(s: State, s': State, r: nat, tf: nat, tramp: nat, va: nat, acc: Access)
    requires ImageGone(s, s', r) && SpaceOk(s', r, tf, tramp, PGSIZE) && Lookup(s'.mem, r, 0).Some?
    requires va < 4096 && |s'.mem| * 1024 < RESERVED && forall f :: f in s.fl ==> f * 1024 + 31 < RESERVED
    ensures exists g :: g in s.fl && Translate(s'.mem, r, 2, va, acc, true) == Some(g * 4096 + va)
    ensures Translate(s'.mem, r, 2, va, acc, false) == None
  {
    hide Wf, Translate, OwnPage, Lookup;
    AgreesWithSv39(s', r, va, acc, true);
    AgreesWithSv39(s', r, va, acc, false);
    var w := Lookup(s'.mem, r, 0).value;
    assert w == w / 1024 * 1024 + 31;
    FlagParts(w / 1024, 31);
    assert w / 1024 in s.fl && va / PGSIZE == 0;
  }

  /** The byte at a physical address. */
  function PhysByte(mem: seq<Page>, pa: nat): Byte
    requires pa / 4096 < |mem|
  {
    Bytes(mem[pa / 4096])[pa % 4096]
  }

  /** Where a load of user mode is granted, it gets the byte that copyin takes for this address; and copyin takes no
      other bytes, but from pages without the read flag. */
  lemma LoadIsCopyin(s: State, r: nat, va: nat)
    requires Wf(s) && IsRoot(s, r) && va < MAXVA && |s.mem| * 1024 < RESERVED
    ensures var t := Translate(s.mem, r, 2, va, Load, true);
            && (t.Some? && 0 < t.value / 4096 < |s.mem| ==> UByte(s, r, va) == Some(PhysByte(s.mem, t.value)))
            && (UByte(s, r, va).Some? && ReadFlag(s, r, va / 4096) ==> t.Some? && t.value / 4096 < |s.mem|)
  {
    hide Wf, Translate, Lookup, Bytes;
    AgreesWithSv39(s, r, va, Load, true);
    LookupValid(s, r, va / PGSIZE);
  }

  predicate ReadFlag(s: State, r: nat, v: nat) {
    var w := Lookup(s.mem, r, v);
    w.Some? && w.value / 2 % 2 == 1 && w.value < RESERVED
  }

  /** Where a store of user mode is granted copyout may write, and nowhere else, but for pages without the read
      flag. */
  lemma StoreIsCopyout(s: State, r: nat, va: nat)
    requires Wf(s) && IsRoot(s, r) && va < MAXVA && |s.mem| * 1024 < RESERVED
    ensures var t := Translate(s.mem, r, 2, va, Store, true);
            && (t.Some? && t.value / 4096 > 0 ==>
                  Writable(s, r, va / 4096) && t.value == UserFrame(s, r, va / 4096) * 4096 + va % 4096)
            && (Writable(s, r, va / 4096) && ReadFlag(s, r, va / 4096) ==> t.Some?)
  {
    hide Wf, Translate, Lookup;
    AgreesWithSv39(s, r, va, Store, true);
    LookupValid(s, r, va / PGSIZE);
  }

  lemma LookupValid(s: State, r: nat, v: nat)
    ensures Lookup(s.mem, r, v).Some? ==> V(Lookup(s.mem, r, v).value)
  {
  }
}
