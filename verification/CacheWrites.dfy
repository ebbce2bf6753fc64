/** When the last user of a buffer may leave it without bwrite: exactly when its bytes are those on
    disk. */
module CacheWrites {
  import opened Words
  import opened CacheModel

  // ---------------------------------------------------------------- eviction

  ghost function FreeBufs(bufs: seq<Buffer>): set<nat> { set j: nat | j < |bufs| && bufs[j].ref == 0 }

  /** The device numbers with a cached block 0, and that of block k. */
  ghost function Taken(bufs: seq<Buffer>, k: Key): set<nat> {
    if bufs == [] then {k.0} else Taken(bufs[1..], k) + {bufs[0].key.0}
  }

  lemma {:induction false} TakenAll(bufs: seq<Buffer>, k: Key)
    ensures |Taken(bufs, k)| <= |bufs| + 1 && k.0 in Taken(bufs, k)
    ensures forall j :: 0 <= j < |bufs| ==> bufs[j].key.0 in Taken(bufs, k)
    decreases |bufs|
  {
    if bufs != [] {
      TakenAll(bufs[1..], k);
      forall j | 0 <= j < |bufs|
        ensures bufs[j].key.0 in Taken(bufs, k)
      {
        if j > 0 { assert bufs[j] == bufs[1..][j - 1]; }
      }
    }
  }

  /** Of n numbers, one is not in a set of fewer. */
  lemma {:induction false} Unused(a: set<nat>, n: nat) returns (d: nat)
    requires |a| < n
    ensures d < n && d !in a
    decreases n
  {
    if n - 1 !in a {
      d := n - 1;
    } else {
      d := Unused(a - {n - 1}, n - 1);
    }
  }

  /** A block with a small device number, as good as any. */
  predicate Small(c: Cache, k: Key) { k.0 < |c.bufs| + 2 && k.1 == 0 }

  /** A block that is not cached, and is not block k. */
  lemma NewKey(c: Cache, k: Key) returns (kf: Key)
    ensures kf != k && Small(c, kf) && Find(c.bufs, kf) == |c.bufs|
    ensures forall j :: 0 <= j < |c.bufs| ==> c.bufs[j].key != kf
  {
    TakenAll(c.bufs, k);
    var d := Unused(Taken(c.bufs, k), |c.bufs| + 2);
    kf := (d, 0);
  }

  /** Reading a block that is not cached takes over the last free buffer. */
  lemma ReadNew(c: Cache, k: Key)
    requires Victim(c.bufs) >= 0 && Find(c.bufs, k) == |c.bufs|
    ensures CanGet(c, k)
    ensures var v := Victim(c.bufs);
            Read(c, k)
            == Cache(c.bufs[v := Buffer(k, true, 1, At(c.disk, k), true, c.bufs[v].freedAt)], c.disk, c.clock)
  {
  }

  predicate Reads(c: Cache, ops: seq<Op>) { forall op :: op in ops ==> op.ReadOp? && Small(c, op.k) }

  /** No buffer is free and none holds block k; the block `last` is cached, unchanged, for one user. */
  ghost predicate Full(e: Cache, k: Key, last: Key) {
    && (forall j :: 0 <= j < |e.bufs| ==> e.bufs[j].ref > 0 && e.bufs[j].key != k)
    && Find(e.bufs, last) < |e.bufs| && e.bufs[Find(e.bufs, last)].ref == 1 && e.bufs[Find(e.bufs, last)].clean
  }

  /** Reading blocks that are not cached recycles one free buffer after the other. */
  lemma {:induction false} Evict(c: Cache, k: Key) returns (ops: seq<Op>, e: Cache, last: Key)
    requires Victim(c.bufs) >= 0 && forall j :: 0 <= j < |c.bufs| && c.bufs[j].ref > 0 ==> c.bufs[j].key != k
    ensures Legal(c, ops) && Reads(c, ops) && Run(c, ops).1 == e
    ensures e.disk == c.disk && Full(e, k, last) && Small(c, last)
    decreases |FreeBufs(c.bufs)|
  {
    hide Victim, Find, Run, Legal, Full;
    var kf := NewKey(c, k);
    var v := Victim(c.bufs);
    ReadNew(c, kf);
    var c1 := Read(c, kf);
    assert FreeBufs(c1.bufs) == FreeBufs(c.bufs) - {v as nat};
    OneOp(c, ReadOp(kf));
    if Victim(c1.bufs) < 0 {
      ops, e, last := [ReadOp(kf)], c1, kf;
      AllTaken(c1, k, kf, v);
    } else {
      var rest;
      rest, e, last := Evict(c1, k);
      ops := [ReadOp(kf)] + rest;
      RunCat(c, [ReadOp(kf)], rest);
    }
  }

  lemma AllTaken(c: Cache, k: Key, kf: Key, v: nat)
    requires Victim(c.bufs) < 0 && v < |c.bufs| && c.bufs[v].key == kf && c.bufs[v].ref == 1 && c.bufs[v].clean
    requires forall j :: 0 <= j < |c.bufs| && c.bufs[j].ref > 0 ==> c.bufs[j].key != k
    requires forall j :: 0 <= j < |c.bufs| && j != v ==> c.bufs[j].key != kf
    ensures Full(c, k, kf)
  {
    assert Find(c.bufs, kf) == v;
  }

  lemma OneOp(c: Cache, op: Op)
    requires Allowed(c, op)
    ensures Legal(c, [op]) && Run(c, [op]) == (Result(c, op), Do(c, op))
  {
    assert [op][1..] == [];
    assert Run(Do(c, op), []) == ([], Do(c, op));
    assert Result(c, op) + [] == Result(c, op);
  }

  /** One run after another. */
  lemma {:induction false} RunCat(c: Cache, a: seq<Op>, b: seq<Op>)
    requires Legal(c, a) && Legal(Run(c, a).1, b)
    ensures Legal(c, a + b) && Run(c, a + b) == (Run(c, a).0 + Run(Run(c, a).1, b).0, Run(Run(c, a).1, b).1)
    decreases |a|
  {
    hide Do, Result, Allowed;
    if a == [] {
      assert a + b == b;
      assert [] + Run(c, b).0 == Run(c, b).0;
    } else {
      assert (a + b)[1..] == a[1..] + b;
      var d := Do(c, a[0]);
      RunCat(d, a[1..], b);
      var x, y, z := Result(c, a[0]), Run(d, a[1..]).0, Run(Run(c, a).1, b).0;
      assert x + (y + z) == (x + y) + z;
    }
  }

  // ------------------------------------------------------------ the lost write

  /** What is read back when every free buffer has been recycled. */
  lemma ReadBack(e: Cache, k: Key, last: Key)
    requires Full(e, k, last)
    ensures Legal(e, [ReleaseOp(last), ReadOp(k)]) && Run(e, [ReleaseOp(last), ReadOp(k)]).0 == [At(e.disk, k)]
  {
    var p := Find(e.bufs, last);
    var e1 := Release(e, p);
    assert Find(e1.bufs, k) == |e1.bufs|;
    assert Victim(e1.bufs) == 0;
    ReadNew(e1, k);
    OneOp(e, ReleaseOp(last));
    OneOp(e1, ReadOp(k));
    RunCat(e, [ReleaseOp(last)], [ReadOp(k)]);
    assert [ReleaseOp(last)] + [ReadOp(k)] == [ReleaseOp(last), ReadOp(k)];
  }

  /** The state after the last user of buffer i has gone. */
  lemma LeftFree(c: Cache, i: nat)
    requires Inv(c) && i < |c.bufs| && c.bufs[i].ref == 1
    ensures var r := Release(c, i);
            && r.disk == c.disk && |r.bufs| == |c.bufs| && Victim(r.bufs) >= 0
            && forall j :: 0 <= j < |r.bufs| && r.bufs[j].ref > 0 ==> r.bufs[j].key != c.bufs[i].key
  {
    Moved(c, i);
    MovedHead(c, i);
    var r := Release(c, i);
    assert r.bufs[0].ref == 0;
    hide Release;
    forall j | 0 <= j < |r.bufs| && r.bufs[j].ref > 0
      ensures r.bufs[j].key != c.bufs[i].key
    {
      assert j > 0 && r.bufs[j] == c.bufs[Before(i, j)];
    }
  }

  /** Whatever the cache holds: when the last user of a buffer leaves it with bytes that are not on disk,
      some reads and releases that are legal hand out the old block. */
  lemma UnwrittenIsLost(c: Cache, i: nat) returns (ops: seq<Op>)
    requires Inv(c) && i < |c.bufs| && c.bufs[i].ref == 1
    ensures Legal(Release(c, i), ops) && forall op :: op in ops ==> op.ReadOp? || op.ReleaseOp?
    ensures forall op :: op in ops ==> op.k == c.bufs[i].key || Small(c, op.k)
    ensures ops != [] && ops[|ops| - 1] == ReadOp(c.bufs[i].key)
    ensures var out := Run(Release(c, i), ops).0; out != [] && out[|out| - 1] == At(c.disk, c.bufs[i].key)
  {
    hide Inv, Release, Run, Legal, Victim, Find;
    var k := c.bufs[i].key;
    LeftFree(c, i);
    var r := Release(c, i);
    var fills, e, last := Evict(r, k);
    ReadBack(e, k, last);
    RunCat(r, fills, [ReleaseOp(last), ReadOp(k)]);
    ops := fills + [ReleaseOp(last), ReadOp(k)];
  }

  /** Users that change nothing read from a flat disk what is on it. */
  lemma {:induction false} FlatLast(m: map<Key, Block>, ops: seq<Op>)
    requires ops != [] && ops[|ops| - 1].ReadOp? && forall op :: op in ops ==> op.ReadOp? || op.ReleaseOp?
    ensures var out := FlatRun(m, ops); out != [] && out[|out| - 1] == At(m, ops[|ops| - 1].k)
    decreases |ops|
  {
    if |ops| > 1 {
      FlatLast(m, ops[1..]);
    }
  }

  // ------------------------------------------------ what was not changed

  /** The same caches, but that some buffers of b are known to be as on disk. */
  predicate Cleaner(a: Cache, b: Cache) {
    && |a.bufs| == |b.bufs| && a.disk == b.disk && a.clock == b.clock
    && forall j :: 0 <= j < |a.bufs| ==> SameBuf(a.bufs[j], b.bufs[j])
  }

  predicate SameBuf(a: Buffer, b: Buffer) {
    && a.key == b.key && a.valid == b.valid && a.ref == b.ref && a.data == b.data && a.freedAt == b.freedAt
    && (a.clean ==> b.clean)
  }

  lemma CleanerFinds(a: Cache, b: Cache, k: Key)
    requires Cleaner(a, b)
    ensures Find(a.bufs, k) == Find(b.bufs, k) && Victim(a.bufs) == Victim(b.bufs)
  {
    FindIs(b.bufs, k, Find(a.bufs, k));
    VictimIs(b.bufs, Victim(a.bufs));
  }

  lemma CleanerRead(a: Cache, b: Cache, k: Key)
    requires Cleaner(a, b) && CanGet(a, k)
    ensures CanGet(b, k) && Result(a, ReadOp(k)) == Result(b, ReadOp(k)) && Cleaner(Read(a, k), Read(b, k))
  {
    hide Find, Victim;
    CleanerFinds(a, b, k);
  }

  lemma CleanerRelease(a: Cache, b: Cache, i: nat)
    requires Cleaner(a, b) && i < |a.bufs| && a.bufs[i].ref > 0
    ensures Cleaner(Release(a, i), Release(b, i))
  {
    if a.bufs[i].ref == 1 {
      Moved(a, i);
      Moved(b, i);
      MovedHead(a, i);
      MovedHead(b, i);
      hide Release;
      forall j | 0 < j < |a.bufs|
        ensures SameBuf(Release(a, i).bufs[j], Release(b, i).bufs[j])
      {
        assert Release(a, i).bufs[j] == a.bufs[Before(i, j)];
        assert Release(b, i).bufs[j] == b.bufs[Before(i, j)];
      }
    }
  }

  lemma CleanerDo(a: Cache, b: Cache, op: Op)
    requires Cleaner(a, b) && Allowed(a, op)
    ensures Allowed(b, op) && Result(a, op) == Result(b, op) && Cleaner(Do(a, op), Do(b, op))
  {
    hide Find, Victim, Release, Read;
    CleanerFinds(a, b, op.k);
    match op
    case ReadOp(k) => CleanerRead(a, b, k);
    case ReleaseOp(k) => CleanerRelease(a, b, Find(a.bufs, k));
    case _ =>
  }

  lemma {:induction false} CleanerRun(a: Cache, b: Cache, ops: seq<Op>)
    requires Cleaner(a, b) && Legal(a, ops)
    ensures Legal(b, ops) && Run(a, ops).0 == Run(b, ops).0
    decreases |ops|
  {
    hide Do, Result, Allowed, Cleaner;
    if ops != [] {
      CleanerDo(a, b, ops[0]);
      CleanerRun(Do(a, ops[0]), Do(b, ops[0]), ops[1..]);
    }
  }

  /** Buffer i is said to be as on disk. */
  function Cleaned(c: Cache, i: nat): Cache
    requires i < |c.bufs|
  {
    var b := c.bufs[i];
    Cache(c.bufs[i := Buffer(b.key, b.valid, b.ref, b.data, true, b.freedAt)], c.disk, c.clock)
  }

  lemma CleanedOk(c: Cache, m: map<Key, Block>, i: nat)
    requires Inv(c) && Agrees(c, m) && i < |c.bufs| && c.bufs[i].ref == 1 && c.bufs[i].data == At(c.disk, c.bufs[i].key)
    ensures Inv(Cleaned(c, i)) && Agrees(Cleaned(c, i), m) && Cleaner(Release(c, i), Release(Cleaned(c, i), i))
  {
    var c', b := Cleaned(c, i), c.bufs[i];
    assert KeysOk(c') && DiskOk(c') && LruOk(c');
    forall k
      ensures Current(c', k) == At(m, k)
    {
      assert Current(c, k) == At(m, k);
      LiveIsFound(c, i);
      CurrentPatched(c, i, Buffer(b.key, b.valid, b.ref, b.data, true, b.freedAt), c.disk, c.clock, k);
    }
  }

  lemma ReleasedAgrees(c: Cache, m: map<Key, Block>, i: nat)
    requires Inv(c) && Agrees(c, m) && i < |c.bufs| && c.bufs[i].ref == 1 && c.bufs[i].clean
    ensures Inv(Release(c, i)) && Agrees(Release(c, i), m)
  {
    ReleaseInv(c, i);
    hide Release, Inv;
    forall k
      ensures Current(Release(c, i), k) == At(m, k)
    {
      ReleaseCurrent(c, i, k);
      assert Current(c, k) == At(m, k);
    }
  }

  /** Device and block numbers are unsigned ints. */
  predicate Uints(ops: seq<Op>) { forall op :: op in ops ==> op.k.0 < UINT && op.k.1 < UINT }

  /** When the last user of a buffer leaves it, the cache goes on handing out what a flat disk would, in
      every legal run, exactly when the buffer's bytes are those on disk: bwrite after the last change is
      enough, and nothing less is. */
  lemma LeaveExactly(c: Cache, m: map<Key, Block>, i: nat)
    requires Inv(c) && Agrees(c, m) && i < |c.bufs| && c.bufs[i].ref == 1
    requires |c.bufs| + 2 <= UINT && c.bufs[i].key.0 < UINT && c.bufs[i].key.1 < UINT
    ensures (forall ops :: Uints(ops) && Legal(Release(c, i), ops) ==> Run(Release(c, i), ops).0 == FlatRun(m, ops))
            <==> c.bufs[i].data == At(c.disk, c.bufs[i].key)
  {
    hide Inv, Agrees, Release, Legal, Run, FlatRun, Cleaned, Cleaner;
    if c.bufs[i].data == At(c.disk, c.bufs[i].key) {
      CleanedOk(c, m, i);
      CleanedBuf(c, i);
      ReleasedAgrees(Cleaned(c, i), m, i);
      forall ops | Uints(ops) && Legal(Release(c, i), ops)
        ensures Run(Release(c, i), ops).0 == FlatRun(m, ops)
      {
        CleanerRun(Release(c, i), Release(Cleaned(c, i), i), ops);
        RunRefinesFlat(Release(Cleaned(c, i), i), m, ops);
      }
    } else {
      HeldBytes(c, m, i);
      var ops := UnwrittenIsLost(c, i);
      FlatLast(m, ops);
      assert Uints(ops);
    }
  }

  lemma CleanedBuf(c: Cache, i: nat)
    requires i < |c.bufs|
    ensures |Cleaned(c, i).bufs| == |c.bufs| && Cleaned(c, i).bufs[i].ref == c.bufs[i].ref
    ensures Cleaned(c, i).bufs[i].clean
  {
  }

  /** A flat disk holds the bytes of a buffer in use. */
  lemma HeldBytes(c: Cache, m: map<Key, Block>, i: nat)
    requires Inv(c) && Agrees(c, m) && i < |c.bufs| && c.bufs[i].ref == 1
    ensures At(m, c.bufs[i].key) == c.bufs[i].data
  {
    CurrentOf(c, c.bufs[i].key, i);
    assert Current(c, c.bufs[i].key) == At(m, c.bufs[i].key);
  }
}
