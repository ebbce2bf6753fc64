/** The exec system call: arguments are read through the old address space and found in the new. */
module SystemExec {
  import opened Words
  import opened PageTables
  import opened Translation
  import opened Changes
  import opened Places
  import opened UserBytes
  import opened Space
  import opened ExecLayout
  import opened PhysicalMemory
  import opened ProcessMemory
  import opened Exec

  // ----------------------------------------------- argv, as memory says it

  /** The pointer at a user address, if all its bytes are there. */
  ghost function UWord(s: State, r: nat, a: nat): Option<nat> {
    if forall k :: a <= k < a + 8 ==> UByte(s, r, k).Some? then Some(FromLE(WordBytes(s, r, a, 8))) else None
  }

  ghost function WordBytes(s: State, r: nat, a: nat, n: nat): seq<Byte>
    requires forall k :: a <= k < a + n ==> UByte(s, r, k).Some?
  {
    if n == 0 then [] else WordBytes(s, r, a, n - 1) + [UByte(s, r, a + n - 1).value]
  }

  /** The string at a user address, if its NUL comes within max readable bytes. */
  ghost function UString(s: State, r: nat, a: nat, max: nat): Option<seq<Byte>>
    decreases max
  {
    if max == 0 || UByte(s, r, a).None? then None
    else if UByte(s, r, a).value == 0 then Some([])
    else Prefixed([UByte(s, r, a).value], UString(s, r, a + 1, max - 1))
  }

  function Prefixed<T>(a: seq<T>, b: Option<seq<T>>): Option<seq<T>> {
    if b.None? then None else Some(a + b.value)
  }

  /** The arguments from the i-th on: strings of less than MAXPATH bytes behind readable pointers, the
      null pointer before the MAXARG-th. */
  ghost function ArgvFrom(s: State, r: nat, uargv: nat, i: nat): Option<seq<seq<Byte>>>
    decreases MAXARG - i
  {
    if i >= MAXARG then None
    else
      var w := UWord(s, r, (uargv + 8 * i) % TWO64);
      if w.None? then None
      else if w.value == 0 then Some([])
      else
        var str := UString(s, r, w.value, MAXPATH);
        if str.None? then None else Prefixed([str.value], ArgvFrom(s, r, uargv, i + 1))
  }

  lemma NoPrefix<T>(b: Option<seq<T>>)
    ensures Prefixed([], b) == b
  {
    if b.Some? {
      assert [] + b.value == b.value;
    }
  }

  lemma {:induction false} WordRead(s: State, r: nat, a: nat, b: seq<Byte>)
    requires Reads(s, r, a, b)
    ensures forall k :: a <= k < a + |b| ==> UByte(s, r, k).Some?
    ensures WordBytes(s, r, a, |b|) == b
    decreases |b|
  {
    hide UByte;
    if b != [] {
      WordRead(s, r, a, b[..|b| - 1]);
    }
  }

  /** What copyin of a pointer says about it. */
  lemma WordIs(s: State, r: nat, a: nat, got: seq<Byte>)
    requires |got| <= 8 && Reads(s, r, a, got) && (|got| < 8 ==> UByte(s, r, a + |got|) == None)
    ensures UWord(s, r, a) == if |got| == 8 then Some(FromLE(got)) else None
  {
    hide UByte, FromLE;
    WordRead(s, r, a, got);
  }

  /** What copyinstr says about a string. */
  lemma {:induction false} StringIs(s: State, r: nat, a: nat, max: nat, str: seq<Byte>)
    requires Reads(s, r, a, str) && 0 !in str && |str| <= max
    requires |str| < max ==> UByte(s, r, a + |str|) == None || UByte(s, r, a + |str|) == Some(0)
    ensures UString(s, r, a, max) == if |str| < max && UByte(s, r, a + |str|) == Some(0) then Some(str) else None
    decreases max
  {
    hide UByte;
    if str != [] {
      assert UByte(s, r, a) == Some(str[0]) && str[0] in str;
      assert [str[0]] + str[1..] == str;
      StringIs(s, r, a + 1, max - 1, str[1..]);
    }
  }

  lemma SameByte(s: State, s': State, r: nat, a: nat)
    requires SameUser(s, s', r)
    ensures UByte(s', r, a) == UByte(s, r, a)
  {
    hide UByte;
  }

  lemma {:induction false} SameString(s: State, s': State, r: nat, a: nat, max: nat)
    requires SameUser(s, s', r)
    ensures UString(s', r, a, max) == UString(s, r, a, max)
    decreases max
  {
    hide UByte;
    SameByte(s, s', r, a);
    if max > 0 {
      SameString(s, s', r, a + 1, max - 1);
    }
  }

  lemma {:induction false} SameBytes(s: State, s': State, r: nat, a: nat, n: nat)
    requires SameUser(s, s', r) && forall k :: a <= k < a + n ==> UByte(s, r, k).Some?
    ensures forall k :: a <= k < a + n ==> UByte(s', r, k).Some?
    ensures WordBytes(s', r, a, n) == WordBytes(s, r, a, n)
  {
    hide UByte, SameUser;
    if n > 0 {
      SameBytes(s, s', r, a, n - 1);
      SameByte(s, s', r, a + n - 1);
    }
  }

  lemma SameWord(s: State, s': State, r: nat, a: nat)
    requires SameUser(s, s', r)
    ensures UWord(s', r, a) == UWord(s, r, a)
  {
    hide UByte, FromLE, SameUser;
    forall k | a <= k < a + 8
      ensures UByte(s', r, k) == UByte(s, r, k)
    {
      SameByte(s, s', r, k);
    }
    if forall k :: a <= k < a + 8 ==> UByte(s, r, k).Some? {
      SameBytes(s, s', r, a, 8);
    }
  }

  lemma {:induction false} FromLEBound(s: seq<Byte>)
    ensures FromLE(s) < Pow256(|s|)
  {
    if s != [] {
      FromLEBound(s[1..]);
    }
  }

  lemma Pow8()
    ensures Pow256(8) == TWO64
  {
    assert Pow256(2) == 0x1_0000;
    assert Pow256(4) == 0x1_0000_0000;
    assert Pow256(6) == 0x1_0000_0000_0000;
  }

  /** Slot j of the argument buffer holds a string. */
  predicate Slot(b: seq<Byte>, j: nat, str: seq<Byte>) {
    && |str| < MAXPATH && 0 !in str && MAXPATH * j + MAXPATH <= |b|
    && b[MAXPATH * j..MAXPATH * j + |str|] == str && b[MAXPATH * j + |str|] == 0
  }

  lemma SlotWritten(b: seq<Byte>, i: nat, str: seq<Byte>)
    requires |b| == PGSIZE && i < MAXARG && |str| < MAXPATH && 0 !in str
    ensures Slot(Splice(b, MAXPATH * i, str + [0]), i, str)
  {
  }

  lemma SlotKept(b: seq<Byte>, i: nat, str: seq<Byte>, j: nat, x: seq<Byte>)
    requires |b| == PGSIZE && i < MAXARG && |str| < MAXPATH && j < i && Slot(b, j, x)
    ensures Slot(Splice(b, MAXPATH * i, str + [0]), j, x)
  {
    var c := Splice(b, MAXPATH * i, str + [0]);
    assert c[..MAXPATH * i] == b[..MAXPATH * i];
    FrontKept(b, c, MAXPATH * i, MAXPATH * j, MAXPATH * j + |x|);
  }

  lemma FrontKept(b: seq<Byte>, c: seq<Byte>, n: nat, lo: nat, hi: nat)
    requires n <= |b| && n <= |c| && c[..n] == b[..n] && lo <= hi < n
    ensures c[lo..hi] == b[lo..hi] && c[hi] == b[hi]
  {
    forall k | lo <= k <= hi
      ensures c[k] == b[k]
    {
      assert c[..n][k] == b[..n][k];
    }
  }

  lemma SlotString(b: seq<Byte>, j: nat, x: seq<Byte>)
    requires Slot(b, j, x)
    ensures StrAt(b, MAXPATH * j) == x
  {
    StrAtIs(b, MAXPATH * j, x);
  }

  /** User memory reads the same in two states. */
  ghost predicate SameUser(s: State, s': State, r: nat) {
    forall a :: 0 <= a ==> UByte(s', r, a) == UByte(s, r, a)
  }

  /** A process and its bytes, when one frame that belongs to no process is taken, filled or given back. */
  lemma Apart(s: State, s': State, g: nat, kroot: nat, slot: nat, r: nat, tf: nat, tramp: nat, z: nat)
    requires ProcOk(s, kroot, slot, r, tf, tramp, z) && Wf(s') && Local(s, s', kroot, {g}) && Local(s, s', r, {g})
    requires g in s.owner && (s.owner[g].Free? || s.owner[g].Held?)
    requires g in s'.owner && (s'.owner[g].Free? || s'.owner[g].Held?)
    ensures ProcOk(s', kroot, slot, r, tf, tramp, z) && SameUser(s, s', r)
  {
    hide Wf, SpaceOk, KernelPartOk, Local, UByte;
    SpaceIsWf(s, r, tf, tramp, z);
    SpaceApart(s, s', kroot, g, kroot, slot, r, tf, tramp, z);
    KernelApart(s, s', r, g, kroot, slot, tf);
    OtherBytes(s, s', kroot, {g}, kroot, slot, r, tf, tramp, z);
    forall a | a >= MAXVA
      ensures UByte(s, r, a) == None && UByte(s', r, a) == None
    {
      BeyondUser(s, r, a);
      BeyondUser(s', r, a);
    }
  }

  lemma BeyondUser(s: State, r: nat, a: nat)
    requires a >= MAXVA
    ensures UByte(s, r, a) == None
  {
    hide Lookup;
  }

  lemma ReadsUser(s: State, s': State, r: nat, a: nat, x: seq<Byte>)
    requires SameUser(s, s', r) && Reads(s', r, a, x)
    ensures Reads(s, r, a, x)
  {
    hide UByte;
  }

  /** What sys_exec keeps while it collects arguments in the held frame ab. */
  ghost predicate Collecting(s0: State, s: State, kroot: nat, slot: nat, r: nat, tf: nat, tramp: nat, z: nat, ab: nat) {
    && ProcOk(s, kroot, slot, r, tf, tramp, z) && SameUser(s0, s, r)
    && Local(s0, s, r, {ab}) && Local(s0, s, kroot, {ab})
    && ab in s0.owner && s0.owner[ab].Free? && ab in s.owner && s.owner[ab].Held? && ab < |s.mem|
  }

  lemma CollectFirst(s0: State, kroot: nat, slot: nat, r: nat, tf: nat, tramp: nat, z: nat)
    requires ProcOk(s0, kroot, slot, r, tf, tramp, z) && s0.fl != [] && s0.fl[0] < |s0.mem| && Wf(Popped(s0))
    ensures Collecting(s0, Popped(s0), kroot, slot, r, tf, tramp, z, s0.fl[0])
  {
    hide Down, Up, LeafOk, SpaceOk, KernelPartOk, Local, Lookup, Missing, SameUser;
    SpaceIsWf(s0, r, tf, tramp, z);
    PoppedLocal(s0, r);
    PoppedLocal(s0, kroot);
    assert s0.owner[s0.fl[0]] == Free;
    Apart(s0, Popped(s0), s0.fl[0], kroot, slot, r, tf, tramp, z);
  }

  lemma CollectMore(s0: State, s: State, page: Page, kroot: nat, slot: nat, r: nat, tf: nat, tramp: nat, z: nat,
      ab: nat)
    requires Collecting(s0, s, kroot, slot, r, tf, tramp, z, ab) && Wf(Filled(s, ab, page))
    ensures Collecting(s0, Filled(s, ab, page), kroot, slot, r, tf, tramp, z, ab)
  {
    hide Wf, ProcOk, Local, UByte;
    FilledLocal(s, r, ab, page);
    FilledLocal(s, kroot, ab, page);
    LocalTrans(s0, s, Filled(s, ab, page), r, {ab});
    LocalTrans(s0, s, Filled(s, ab, page), kroot, {ab});
    Apart(s, Filled(s, ab, page), ab, kroot, slot, r, tf, tramp, z);
  }

  lemma CollectFacts(s0: State, s: State, kroot: nat, slot: nat, r: nat, tf: nat, tramp: nat, z: nat, ab: nat)
    requires Collecting(s0, s, kroot, slot, r, tf, tramp, z, ab)
    ensures ProcOk(s, kroot, slot, r, tf, tramp, z) && IsRoot(s, r) && UserOwned(s, r)
    ensures ab in s.owner && s.owner[ab].Held? && ab < |s.mem|
  {
    hide Wf, SpaceOk, KernelPartOk, Local, SameUser, UserOwned;
    SpaceIsWf(s, r, tf, tramp, z);
    SpaceUserOwned(s, r, tf, tramp, z);
  }

  /** The strings collected so far: read through the old space, and stored in the buffer. */
  ghost predicate Collected(s0: State, r: nat, uargv: nat, b: seq<Byte>, strs: seq<seq<Byte>>, uptrs: seq<nat>) {
    && |uptrs| == |strs|
    && forall i :: 0 <= i < |strs| ==>
         && 0 < uptrs[i] < TWO64 && Slot(b, i, strs[i])
         && Reads(s0, r, (uargv + 8 * i) % TWO64, ToLE(uptrs[i], 8)) && Reads(s0, r, uptrs[i], strs[i] + [0])
  }

  lemma CollectedMore(s0: State, r: nat, uargv: nat, b: seq<Byte>, strs: seq<seq<Byte>>, uptrs: seq<nat>,
      str: seq<Byte>, ptr: nat)
    requires Collected(s0, r, uargv, b, strs, uptrs) && |b| == PGSIZE && |strs| < MAXARG
    requires |str| < MAXPATH && 0 !in str && 0 < ptr < TWO64
    requires Reads(s0, r, (uargv + 8 * |strs|) % TWO64, ToLE(ptr, 8)) && Reads(s0, r, ptr, str + [0])
    ensures Collected(s0, r, uargv, Splice(b, MAXPATH * |strs|, str + [0]), strs + [str], uptrs + [ptr])
  {
    hide Reads, Slot, Splice, ToLE;
    SlotWritten(b, |strs|, str);
    forall j | 0 <= j < |strs|
      ensures Slot(Splice(b, MAXPATH * |strs|, str + [0]), j, strs[j])
    {
      SlotKept(b, |strs|, str, j, strs[j]);
    }
  }

  lemma CollectedArgs(s0: State, r: nat, uargv: nat, b: seq<Byte>, strs: seq<seq<Byte>>, uptrs: seq<nat>)
    requires Collected(s0, r, uargv, b, strs, uptrs) && Reads(s0, r, (uargv + 8 * |strs|) % TWO64, ToLE(0, 8))
    ensures ArgsAt(s0, r, uargv, strs, uptrs)
    ensures forall i :: 0 <= i < |strs| ==> StrAt(b, MAXPATH * i) == strs[i] && 0 !in strs[i]
  {
    hide Reads, StrAt, ToLE;
    forall i | 0 <= i < |strs|
      ensures StrAt(b, MAXPATH * i) == strs[i]
    {
      SlotString(b, i, strs[i]);
    }
  }

  /** So far only the buffer, the first free frame of s0, has been taken and filled. */
  ghost predicate BufferOnly(s0: State, s: State, ab: nat) {
    && s0.fl != [] && ab == s0.fl[0] && ab in s0.owner && s0.owner[ab].Free?
    && s.lo == s0.lo && |s.mem| == |s0.mem| && s.fl == s0.fl[1..] && s.owner == s0.owner[ab := Held]
    && forall f :: 0 <= f < |s.mem| && f != ab ==> s.mem[f] == s0.mem[f]
  }

  /** All is as it was: every owner, the free list, every frame that is not free, and with them what user mode
      reads through r and how r translates. */
  ghost predicate AllAsBefore(s: State, s': State, r: nat) {
    && s'.lo == s.lo && |s'.mem| == |s.mem| && s'.owner == s.owner && s'.fl == s.fl
    && (forall f :: 0 <= f < |s.mem| && f !in s.fl ==> s'.mem[f] == s.mem[f])
    && (forall v :: 0 <= v < MAXVPN ==> Lookup(s'.mem, r, v) == Lookup(s.mem, r, v))
    && SameUser(s, s', r)
  }

  lemma BufferBack(s0: State, s: State, ab: nat, r: nat, kroot: nat)
    requires Wf(s0) && IsRoot(s0, r) && r != kroot && BufferOnly(s0, s, ab) && SameUser(s0, s, r)
    requires SameUser(s, Pushed(s, ab), r)
    ensures AllAsBefore(s0, Pushed(s, ab), r)
  {
    hide Down, Up, LeafOk, Lookup, Missing, UByte;
    var s' := Pushed(s, ab);
    assert s'.owner == s0.owner;
    assert s'.fl == s0.fl;
    assert Local(s0, s', kroot, {ab});
    LocalLookup(s0, s', kroot, {ab}, r);
  }

  lemma SameAll(s: State, r: nat)
    ensures AllAsBefore(s, s, r)
  {
  }

  /** The old image is gone, as exec leaves it, with the buffer taken before and given back behind. */
  lemma GoneAround(s0: State, s1: State, s2: State, ab: nat, r: nat, kroot: nat)
    requires BufferOnly(s0, s1, ab) && ImageGone(s1, s2, r) && Wf(s2) && IsRoot(s2, r) && r != kroot
    requires ab in s2.owner && s2.owner[ab].Held?
    ensures ImageGone(s0, Pushed(s2, ab), r)
  {
    hide FreeOk, Down, Up, LeafOk, Lookup, Missing;
    PushedLocal(s2, kroot, ab);
    LocalLookup(s2, Pushed(s2, ab), kroot, {ab}, r);
    PushedOwner(s2, ab);
    assert forall x :: x in s1.fl ==> x in s0.fl;
  }

  /** Giving the buffer back. */
  lemma BufferFreed(s0: State, s: State, kroot: nat, slot: nat, r: nat, tf: nat, tramp: nat, z: nat, ab: nat,
      x: set<nat>)
    requires ProcOk(s, kroot, slot, r, tf, tramp, z) && Local(s0, s, r, x + {ab}) && ab !in x && ab in s.owner
    requires s.owner[ab].Held?
    requires ab in s0.owner && s0.owner[ab].Free? && ab < |s.mem| && Wf(Pushed(s, ab))
    ensures ProcOk(Pushed(s, ab), kroot, slot, r, tf, tramp, z) && Local(s0, Pushed(s, ab), r, x)
    ensures SameUser(s, Pushed(s, ab), r)
  {
    hide FreeOk, Down, Up, LeafOk, SpaceOk, KernelPartOk, Local, SameUser, Pushed;
    SpaceIsWf(s, r, tf, tramp, z);
    PushedLocal(s, r, ab);
    PushedLocal(s, kroot, ab);
    PushedOwner(s, ab);
    Apart(s, Pushed(s, ab), ab, kroot, slot, r, tf, tramp, z);
    BufferLocal(s0, s, r, ab, x);
  }

  lemma BufferLocal(s0: State, s: State, r: nat, ab: nat, x: set<nat>)
    requires Local(s0, s, r, x + {ab}) && ab !in x && ab in s.owner && ab in s0.owner && s0.owner[ab].Free?
    requires DomOk(s)
    ensures Local(s0, Pushed(s, ab), r, x)
  {
    hide Local, Pushed;
    PushedLocal(s, r, ab);
    PushedOwner(s, ab);
    LocalMore(s, Pushed(s, ab), r, {ab}, x + {ab});
    LocalTrans(s0, s, Pushed(s, ab), r, x + {ab});
    LocalDrop(s0, Pushed(s, ab), r, x + {ab}, ab);
    assert x + {ab} - {ab} == x;
  }

  /** sys_exec up to kexec: argv is copied into the buffer. */
  method Collect(pm: PhysMem, p: Proc, kroot: nat, ghost tramp: nat, ab: nat, uargv: nat, ghost s0: State)
    returns (ok: bool, n: nat, ghost strs: seq<seq<Byte>>, ghost uptrs: seq<nat>)
    requires pm.Valid() && Collecting(s0, pm.S(), kroot, p.slot, p.pagetable, p.trapframe, tramp, p.sz, ab)
    modifies pm, pm.mem
    ensures pm.Valid() && Collecting(s0, pm.S(), kroot, p.slot, p.pagetable, p.trapframe, tramp, p.sz, ab)
    ensures ok ==> n == |strs| < MAXARG && ArgsAt(s0, p.pagetable, uargv, strs, uptrs)
    ensures ok ==> forall i :: 0 <= i < n ==> StrAt(Bytes(pm.mem[ab]), MAXPATH * i) == strs[i] && 0 !in strs[i]
    ensures ok <==> ArgvFrom(s0, p.pagetable, uargv, 0).Some?
    ensures ok ==> ArgvFrom(s0, p.pagetable, uargv, 0) == Some(strs)
    ensures pm.fl == old(pm.fl) && (BufferOnly(s0, old(pm.S()), ab) ==> BufferOnly(s0, pm.S(), ab))
  {
    hide FreeOk, Down, Up, LeafOk, Lookup, Missing, Collecting, Collected, Reads, ToLE, FromLE, Bytes, FromBytes,
        Splice, StrAt, UserOwned, SameUser, ArgsAt, UWord, UString, ArgvFrom;
    var i := 0;
    strs, uptrs := [], [];
    NoPrefix(ArgvFrom(s0, p.pagetable, uargv, 0));
    CollectFacts(s0, pm.S(), kroot, p.slot, p.pagetable, p.trapframe, tramp, p.sz, ab);
    CollectedNone(s0, p.pagetable, uargv, Bytes(pm.mem[ab]));
    while i < MAXARG
      invariant i == |strs| <= MAXARG
      invariant pm.Valid() && Collecting(s0, pm.S(), kroot, p.slot, p.pagetable, p.trapframe, tramp, p.sz, ab)
      invariant ab < pm.mem.Length && Collected(s0, p.pagetable, uargv, Bytes(pm.mem[ab]), strs, uptrs)
      invariant pm.fl == old(pm.fl) && (BufferOnly(s0, old(pm.S()), ab) ==> BufferOnly(s0, pm.S(), ab))
      invariant ArgvFrom(s0, p.pagetable, uargv, 0) == Prefixed(strs, ArgvFrom(s0, p.pagetable, uargv, i))
    {
      ghost var s := pm.S();
      CollectFacts(s0, s, kroot, p.slot, p.pagetable, p.trapframe, tramp, p.sz, ab);
      var found, uarg, str := FetchArg(pm, p.pagetable, (uargv + 8 * i) % TWO64);
      CollectReads(s0, s, kroot, p.slot, p.pagetable, p.trapframe, tramp, p.sz, ab);
      ArgvNext(s0, s, p.pagetable, uargv, i, strs);
      if !found {
        return false, i, strs, uptrs;
      }
      ReadsUser(s0, s, p.pagetable, (uargv + 8 * i) % TWO64, ToLE(uarg, 8));
      if uarg == 0 {
        CollectedArgs(s0, p.pagetable, uargv, Bytes(pm.mem[ab]), strs, uptrs);
        return true, i, strs, uptrs;
      }
      ReadsUser(s0, s, p.pagetable, uarg, str + [0]);
      CollectedMore(s0, p.pagetable, uargv, Bytes(pm.mem[ab]), strs, uptrs, str, uarg);
      BytesOfPage(Splice(Bytes(pm.mem[ab]), MAXPATH * i, str + [0]));
      ghost var page := FromBytes(Splice(Bytes(pm.mem[ab]), MAXPATH * i, str + [0]));
      pm.FillPage(ab, FromBytes(Splice(Bytes(pm.mem[ab]), MAXPATH * i, str + [0])));
      CollectMore(s0, s, page, kroot, p.slot, p.pagetable, p.trapframe, tramp, p.sz, ab);
      strs, uptrs := strs + [str], uptrs + [uarg];
      i := i + 1;
    }
    ArgvEnds(s0, p.pagetable, uargv, i);
    return false, i, strs, uptrs;
  }

  /** One round of the loop, as it is read in the space s that has the same bytes. */
  lemma ArgvNext(s0: State, s: State, r: nat, uargv: nat, i: nat, strs: seq<seq<Byte>>)
    requires SameUser(s0, s, r) && i < MAXARG
    ensures var w := UWord(s, r, (uargv + 8 * i) % TWO64);
            var all := Prefixed(strs, ArgvFrom(s0, r, uargv, i));
            && (w.None? ==> all == None)
            && (w == Some(0) ==> all == Some(strs))
            && (w.Some? && w.value != 0 ==>
                  var str := UString(s, r, w.value, MAXPATH);
                  all == if str.None? then None else Prefixed(strs + [str.value], ArgvFrom(s0, r, uargv, i + 1)))
  {
    hide UWord, UString, SameUser;
    var a := (uargv + 8 * i) % TWO64;
    SameWord(s0, s, r, a);
    if UWord(s0, r, a).Some? {
      SameString(s0, s, r, UWord(s0, r, a).value, MAXPATH);
    }
    assert strs + [] == strs;
    var rest := ArgvFrom(s0, r, uargv, i + 1);
    if rest.Some? && UWord(s0, r, a).Some? && UString(s0, r, UWord(s0, r, a).value, MAXPATH).Some? {
      var str := UString(s0, r, UWord(s0, r, a).value, MAXPATH).value;
      assert strs + ([str] + rest.value) == strs + [str] + rest.value;
    }
  }

  lemma ArgvEnds(s: State, r: nat, uargv: nat, i: nat)
    requires i >= MAXARG
    ensures ArgvFrom(s, r, uargv, i) == None
  {
  }

  lemma CollectedNone(s0: State, r: nat, uargv: nat, b: seq<Byte>)
    ensures Collected(s0, r, uargv, b, [], [])
  {
  }

  lemma CollectReads(s0: State, s: State, kroot: nat, slot: nat, r: nat, tf: nat, tramp: nat, z: nat, ab: nat)
    requires Collecting(s0, s, kroot, slot, r, tf, tramp, z, ab)
    ensures SameUser(s0, s, r)
  {
    hide ProcOk, Local, SameUser;
  }

  /** One pointer of argv and, unless it is null, the string behind it. */
  method FetchArg(pm: PhysMem, r: nat, a: nat) returns (ok: bool, uarg: nat, str: seq<Byte>)
    requires pm.Valid() && IsRoot(pm.S(), r) && UserOwned(pm.S(), r)
    modifies pm, pm.mem
    ensures pm.Valid() && pm.S() == old(pm.S())
    ensures ok ==> uarg < TWO64 && Reads(pm.S(), r, a, ToLE(uarg, 8))
    ensures ok && uarg != 0 ==> |str| < MAXPATH && 0 !in str && Reads(pm.S(), r, uarg, str + [0])
    ensures var w := UWord(pm.S(), r, a);
            && (ok <==> w.Some? && (w.value == 0 || UString(pm.S(), r, w.value, MAXPATH).Some?))
            && (ok ==> uarg == w.value && (uarg != 0 ==> UString(pm.S(), r, uarg, MAXPATH) == Some(str)))
  {
    hide FreeOk, Down, Up, LeafOk, Lookup, Missing, Reads, ToLE, FromLE, UserOwned, UByte, UWord, UString;
    var got;
    str := [];
    ok, got := pm.Copyin(r, a, 8);
    uarg := FromLE(got);
    WordIs(pm.S(), r, a, got);
    if !ok {
      return;
    }
    LEBytes(got);
    FromLEBound(got);
    Pow8();
    if uarg == 0 {
      return;
    }
    ok, str := pm.Copyinstr(r, uarg, MAXPATH);
    StringIs(pm.S(), r, uarg, MAXPATH, str);
    if ok {
      ReadsOneMore(pm.S(), r, uarg, str, 0);
    }
  }

  /** exec goes through: argv can be read, there is such a program of at most a page, everything fits
      into its page, and there are frames for the argument buffer, the page and the tables it lacks. */
  ghost predicate CanExec(s: State, r: nat, sz: nat, prog: Option<seq<Byte>>, uargv: nat) {
    && |s.fl| >= 2 && Missing(s.mem, r, 0) <= |s.fl| - 2 + |PagesOf(s, r, Pages(sz))|
    && prog.Some? && |prog.value| <= PGSIZE
    && ArgvFrom(s, r, uargv, 0).Some? && ArgsFit(|prog.value|, ArgvFrom(s, r, uargv, 0).value)
  }

  /** exec comes as far as giving the old pages up: argv can be read, there is such a program of at most a
      page, and there are frames for the argument buffer and the page. */
  ghost predicate Commits(s: State, r: nat, prog: Option<seq<Byte>>, uargv: nat) {
    |s.fl| >= 2 && prog.Some? && |prog.value| <= PGSIZE && ArgvFrom(s, r, uargv, 0).Some?
  }

  /** Collecting arguments changes no table of the process. */
  lemma CollectPages(s0: State, s: State, kroot: nat, slot: nat, r: nat, tf: nat, tramp: nat, z: nat, ab: nat)
    requires Collecting(s0, s, kroot, slot, r, tf, tramp, z, ab) && ProcOk(s0, kroot, slot, r, tf, tramp, z)
    ensures Missing(s.mem, r, 0) == Missing(s0.mem, r, 0) && PagesOf(s, r, Pages(z)) == PagesOf(s0, r, Pages(z))
  {
    hide Wf, Lookup, Missing, Pages, MappedIn, SpaceOk, KernelPartOk, SameUser, Local;
    SpaceIsWf(s0, r, tf, tramp, z);
    LocalLookup(s0, s, kroot, {ab}, r);
    MappedSame(s0, s, r, 0, Pages(z));
  }

  lemma PageComes(s0: State, s1: State, r: nat, z: nat)
    requires |s1.fl| == |s0.fl| - 1 && Missing(s1.mem, r, 0) == Missing(s0.mem, r, 0)
    requires PagesOf(s1, r, Pages(z)) == PagesOf(s0, r, Pages(z))
    ensures PageCanCome(s1, r, z) <==> |s0.fl| >= 2 && Missing(s0.mem, r, 0) <= |s0.fl| - 2 + |PagesOf(s0, r, Pages(z))|
  {
    hide Missing, Pages, MappedIn;
  }

  /** sys_exec. On success the new program reads through a1 exactly the arguments that were read
      through uargv before, and no frame is lost or gained outside the process. */
  method SysExec(pm: PhysMem, p: Proc, kroot: nat, ghost tramp: nat, prog: Option<seq<Byte>>, uargv: nat)
    returns (rc: int, ghost strs: seq<seq<Byte>>, ghost uptrs: seq<nat>, ghost ptrs: seq<nat>)
    requires pm.Valid() && p.Live(pm.S(), kroot, tramp) && p.sz % PGSIZE == 0
    modifies p`sz, pm, pm.mem
    ensures pm.Valid() && Local(old(pm.S()), pm.S(), p.pagetable, {p.trapframe})
    ensures rc == -1 || rc == |strs| < MAXARG
    ensures p.sz == if rc >= 0 then PGSIZE else old(p.sz)
    ensures rc >= 0 || old(p.sz) > 0 || !Commits(old(pm.S()), p.pagetable, prog, uargv) ==>
              p.Live(pm.S(), kroot, tramp)
    ensures rc >= 0 ==>
              && prog.Some? && p.trapframe < pm.mem.Length
              && ArgsAt(old(pm.S()), p.pagetable, uargv, strs, uptrs)
              && ArgsAt(pm.S(), p.pagetable, pm.mem[p.trapframe][TF_A1], strs, ptrs)
              && Laid(pm.S(), p.pagetable, prog.value, strs, ptrs, pm.mem[p.trapframe][TF_A1])
              && RegistersAt(old(pm.mem[..])[p.trapframe], pm.mem[p.trapframe], pm.mem[p.trapframe][TF_A1])
    ensures rc >= 0 <==> CanExec(old(pm.S()), p.pagetable, old(p.sz), prog, uargv)
    ensures if Commits(old(pm.S()), p.pagetable, prog, uargv) then ImageGone(old(pm.S()), pm.S(), p.pagetable)
            else rc == -1 && AllAsBefore(old(pm.S()), pm.S(), p.pagetable)
    ensures rc == -1 ==> p.trapframe < pm.mem.Length && pm.mem[p.trapframe] == old(pm.mem[..])[p.trapframe]
    ensures rc >= 0 ==> ArgvFrom(old(pm.S()), p.pagetable, uargv, 0) == Some(strs)
  {
    hide FreeOk, Down, Up, LeafOk, Lookup, Missing, Collecting, ProcOk, Local, ArgsAt, Laid, StrAt, Bytes, SameUser,
        ArgvFrom, ArgsFit, BufStrs, PageCanCome, Pages, MappedIn, AllAsBefore, BufferOnly, ImageGone, RegistersAt;
    ghost var s0, r, tf := pm.S(), p.pagetable, p.trapframe;
    rc, strs, uptrs, ptrs := -1, [], [], [];
    LocalRefl(s0, r, {tf});
    SameAll(s0, r);
    TrapframeOf(s0, kroot, p.slot, r, tf, tramp, p.sz);
    var ab := pm.Kalloc();
    if ab == 0 {
      return;
    }
    CollectFirst(s0, kroot, p.slot, r, tf, tramp, p.sz);
    BufferTaken(s0);
    var ok, n;
    ok, n, strs, uptrs := Collect(pm, p, kroot, tramp, ab, uargv, s0);
    ghost var s1 := pm.S();
    CollectEnd(s0, s1, kroot, p.slot, r, tf, tramp, p.sz, ab);
    CollectPages(s0, s1, kroot, p.slot, r, tf, tramp, p.sz, ab);
    PageComes(s0, s1, r, p.sz);
    LocalRefl(s1, r, {tf});
    if ok {
      ghost var strs';
      BufStrsIs(Bytes(pm.mem[ab]), n, strs);
      rc, strs', ptrs := KExec(pm, p, kroot, tramp, prog, ab, n);
      if rc >= 0 {
        assert strs' == strs;
      }
    }
    ghost var s2 := pm.S();
    BufferFacts(s0, s1, ab);
    ExecBuffer(s0, s1, s2, r, tf, ab);
    pm.Kfree(ab);
    ghost var kept := !Commits(s0, r, prog, uargv);
    if !kept { GoneAround(s0, s1, s2, ab, r, kroot); }
    if rc >= 0 || p.sz > 0 || kept {
      BufferFreed(s0, s2, kroot, p.slot, r, tf, tramp, p.sz, ab, {tf});
      if rc >= 0 {
        LaidUser(s2, pm.S(), r, prog.value, strs, ptrs, s2.mem[tf][TF_A1]);
        LaidArgs(pm.S(), r, prog.value, strs, ptrs, s2.mem[tf][TF_A1]);
      } else if kept {
        BufferBack(s0, s1, ab, r, kroot);
      }
    } else {
      BufferLocal(s0, s2, r, ab, {tf});
    }
  }

  lemma TrapframeOf(s: State, kroot: nat, slot: nat, r: nat, tf: nat, tramp: nat, z: nat)
    requires ProcOk(s, kroot, slot, r, tf, tramp, z)
    ensures Wf(s) && IsRoot(s, r) && r != kroot && tf in s.owner && s.owner[tf] == Trapframe(slot) && tf < |s.mem|
  {
    hide Lookup, OwnPage, Down, Up, LeafOk, FreeOk;
  }

  lemma BufferTaken(s: State)
    requires DomOk(s) && FreeOk(s) && s.fl != []
    ensures BufferOnly(s, Popped(s), s.fl[0])
  {
    assert s.owner[s.fl[0]] == Free;
  }

  lemma BufferFacts(s0: State, s: State, ab: nat)
    requires BufferOnly(s0, s, ab)
    ensures |s.mem| == |s0.mem| && |s.fl| == |s0.fl| - 1
    ensures forall f :: 0 <= f < |s.mem| && f != ab ==> s.mem[f] == s0.mem[f]
  {
  }

  lemma CollectEnd(s0: State, s: State, kroot: nat, slot: nat, r: nat, tf: nat, tramp: nat, z: nat, ab: nat)
    requires Collecting(s0, s, kroot, slot, r, tf, tramp, z, ab)
    ensures ProcOk(s, kroot, slot, r, tf, tramp, z) && Local(s0, s, r, {ab}) && SameUser(s0, s, r)
    ensures ab in s0.owner && s0.owner[ab].Free? && ab in s.owner && s.owner[ab].Held? && ab < |s.mem| && ab != tf
  {
    hide SpaceOk, Local, SameUser, Lookup;
  }

  /** The buffer is still held, with its contents, after kexec. */
  lemma ExecBuffer(s0: State, s1: State, s2: State, r: nat, tf: nat, ab: nat)
    requires Local(s0, s1, r, {ab}) && ab != tf && ab in s1.owner && s1.owner[ab].Held? && ab < |s1.mem|
    requires Local(s1, s2, r, {tf})
    ensures Local(s0, s2, r, {tf} + {ab}) && ab in s2.owner && s2.owner[ab].Held? && ab < |s2.mem|
  {
    hide Local;
    LocalHeld(s1, s2, r, {tf}, ab);
    LocalMore(s0, s1, r, {ab}, {tf} + {ab});
    LocalMore(s1, s2, r, {tf}, {tf} + {ab});
    LocalTrans(s0, s1, s2, r, {tf} + {ab});
  }

  lemma LaidUser(s: State, s': State, r: nat, prog: seq<Byte>, strs: seq<seq<Byte>>, ptrs: seq<nat>, a1: nat)
    requires Laid(s, r, prog, strs, ptrs, a1) && SameUser(s, s', r)
    ensures Laid(s', r, prog, strs, ptrs, a1)
  {
    hide UByte, Laid;
    LaidSame(s, s', r, prog, strs, ptrs, a1);
  }

  lemma LaidArgs(s: State, r: nat, prog: seq<Byte>, strs: seq<seq<Byte>>, ptrs: seq<nat>, a1: nat)
    requires Laid(s, r, prog, strs, ptrs, a1) && |prog| <= PGSIZE
    requires forall i :: 0 <= i < |strs| ==> 0 !in strs[i]
    ensures ArgsAt(s, r, a1, strs, ptrs)
  {
    hide UByte, Reads, Image, PtrBytes, ArgsAt;
    ImageArgs(s, r, prog, strs, ptrs, a1);
  }
}
