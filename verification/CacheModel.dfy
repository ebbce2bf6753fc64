/** The buffer cache as a value: buffers in list order, from the most recently released on,
    with a disk behind them. */
module CacheModel {
  import opened Words

  const BSIZE: nat := 1024

  type Block = b: seq<nat> | |b| == BSIZE witness seq(BSIZE, _ => 0)

  type Key = (nat, nat)

  /** The fields of struct buf that matter, and two facts about its past: whether it has been left
      alone since it was last read or written, and when its count last fell to zero. */
  datatype Buffer = Buffer(key: Key, valid: bool, ref: nat, data: Block, clean: bool, freedAt: int)

  /** disk is what virtio_disk_rw reads and writes. */
  datatype Cache = Cache(bufs: seq<Buffer>, disk: map<Key, Block>, clock: int)

  function Empty(): Block { seq(BSIZE, _ => 0) }

  function At(m: map<Key, Block>, k: Key): Block { if k in m then m[k] else Empty() }

  // ----------------------------------------------------------------- bget

  /** The first buffer with this key, from the head of the list on. */
  function Find(bufs: seq<Buffer>, k: Key): (i: nat)
    ensures i <= |bufs|
    ensures i < |bufs| ==> bufs[i].key == k
    ensures forall j :: 0 <= j < i ==> bufs[j].key != k
  {
    if bufs == [] then 0 else if bufs[0].key == k then 0 else 1 + Find(bufs[1..], k)
  }

  /** The last free buffer, from the tail of the list on; -1 when all are in use. */
  function Victim(bufs: seq<Buffer>): (i: int)
    ensures -1 <= i < |bufs|
    ensures i >= 0 ==> bufs[i].ref == 0
    ensures forall j :: i < j < |bufs| ==> bufs[j].ref > 0
  {
    if bufs == [] then -1
    else if bufs[|bufs| - 1].ref == 0 then |bufs| - 1
    else Victim(bufs[..|bufs| - 1])
  }

  lemma FindIs(bufs: seq<Buffer>, k: Key, i: nat)
    requires i <= |bufs| && (forall j :: 0 <= j < i ==> bufs[j].key != k) && (i < |bufs| ==> bufs[i].key == k)
    ensures Find(bufs, k) == i
  {
  }

  lemma VictimIs(bufs: seq<Buffer>, i: int)
    requires -1 <= i < |bufs| && (forall j :: i < j < |bufs| ==> bufs[j].ref > 0) && (i >= 0 ==> bufs[i].ref == 0)
    ensures Victim(bufs) == i
  {
  }

  /** bget does not panic. */
  predicate CanGet(c: Cache, k: Key) {
    Find(c.bufs, k) < |c.bufs| || Victim(c.bufs) >= 0
  }

  function Slot(c: Cache, k: Key): (i: nat)
    requires CanGet(c, k)
    ensures i < |c.bufs|
  {
    if Find(c.bufs, k) < |c.bufs| then Find(c.bufs, k) else Victim(c.bufs)
  }

  /** One user more. */
  function Hit(b: Buffer): Buffer {
    Buffer(b.key, b.valid, b.ref + 1, b.data, b.clean, b.freedAt)
  }

  /** Taken over for another key; what it holds is not that block. */
  function Miss(b: Buffer, k: Key): Buffer {
    Buffer(k, false, 1, b.data, b.clean, b.freedAt)
  }

  /** Filled from disk. */
  function Loaded(c: Cache, i: nat): Buffer
    requires i < |c.bufs|
  {
    var b := c.bufs[i];
    Buffer(b.key, true, b.ref, At(c.disk, b.key), true, b.freedAt)
  }

  function Get(c: Cache, k: Key): Cache
    requires CanGet(c, k)
  {
    var i := Slot(c, k);
    Cache(c.bufs[i := if Find(c.bufs, k) < |c.bufs| then Hit(c.bufs[i]) else Miss(c.bufs[i], k)], c.disk, c.clock)
  }

  /** bread: after bget, a buffer that is not valid is loaded. */
  function Read(c: Cache, k: Key): Cache
    requires CanGet(c, k)
  {
    var g := Get(c, k);
    var i := Slot(c, k);
    if g.bufs[i].valid then g else Cache(g.bufs[i := Loaded(g, i)], g.disk, g.clock)
  }

  /** A user of the buffer stores into its data. */
  function Change(c: Cache, i: nat, d: Block): Cache
    requires i < |c.bufs|
  {
    var b := c.bufs[i];
    Cache(c.bufs[i := Buffer(b.key, b.valid, b.ref, d, false, b.freedAt)], c.disk, c.clock)
  }

  function Write(c: Cache, i: nat): Cache
    requires i < |c.bufs|
  {
    var b := c.bufs[i];
    Cache(c.bufs[i := Buffer(b.key, b.valid, b.ref, b.data, true, b.freedAt)], c.disk[b.key := b.data], c.clock)
  }

  /** One user less; the fall to zero is remembered. */
  function Left(c: Cache, i: nat): Buffer
    requires i < |c.bufs| && c.bufs[i].ref > 0
  {
    var b := c.bufs[i];
    Buffer(b.key, b.valid, b.ref - 1, b.data, b.clean, if b.ref == 1 then c.clock else b.freedAt)
  }

  /** brelse: at zero users the buffer moves to the head of the list. */
  function Release(c: Cache, i: nat): Cache
    requires i < |c.bufs| && c.bufs[i].ref > 0
  {
    if c.bufs[i].ref > 1 then Cache(c.bufs[i := Left(c, i)], c.disk, c.clock)
    else Cache([Left(c, i)] + c.bufs[..i] + c.bufs[i + 1..], c.disk, c.clock + 1)
  }

  // ------------------------------------------------------------ invariants

  /** Among buffers with one key only the first may be valid or in use. */
  ghost predicate KeysOk(c: Cache) {
    forall i, j :: 0 <= i < j < |c.bufs| && c.bufs[i].key == c.bufs[j].key ==> !c.bufs[j].valid && c.bufs[j].ref == 0
  }

  /** A valid buffer left alone equals its disk block; only a buffer in use is not left alone. */
  ghost predicate DiskOk(c: Cache) {
    forall i :: 0 <= i < |c.bufs| ==>
      && (c.bufs[i].ref > 0 ==> c.bufs[i].valid)
      && (c.bufs[i].valid && c.bufs[i].clean ==> c.bufs[i].data == At(c.disk, c.bufs[i].key))
      && (c.bufs[i].valid && c.bufs[i].ref == 0 ==> c.bufs[i].clean)
  }

  /** The free buffers lie in the order of their release, the last released first. */
  ghost predicate LruOk(c: Cache) {
    && (forall i :: 0 <= i < |c.bufs| ==> c.bufs[i].freedAt < c.clock)
    && (forall i, j :: 0 <= i < j < |c.bufs| && c.bufs[i].ref == 0 && c.bufs[j].ref == 0 ==>
          c.bufs[i].freedAt > c.bufs[j].freedAt)
  }

  ghost predicate Inv(c: Cache) { |c.bufs| > 0 && KeysOk(c) && DiskOk(c) && LruOk(c) }

  /** binit: n buffers with the same key (0, 0), none valid, none in use. */
  function Init(n: nat, disk: map<Key, Block>): Cache {
    Cache(seq(n, i => Buffer((0, 0), false, 0, Empty(), true, -i)), disk, 1)
  }

  lemma InitInv(n: nat, disk: map<Key, Block>)
    requires n > 0
    ensures Inv(Init(n, disk))
  {
  }

  /** A live buffer is the one bget finds for its key. */
  lemma LiveIsFound(c: Cache, i: nat)
    requires KeysOk(c) && i < |c.bufs| && (c.bufs[i].valid || c.bufs[i].ref > 0)
    ensures Find(c.bufs, c.bufs[i].key) == i
  {
  }

  /** The victim was released before every other free buffer. */
  lemma VictimIsOldest(c: Cache, j: nat)
    requires LruOk(c) && j < |c.bufs| && c.bufs[j].ref == 0
    ensures 0 <= Victim(c.bufs) && c.bufs[Victim(c.bufs)].freedAt <= c.bufs[j].freedAt
    ensures c.bufs[Victim(c.bufs)].freedAt == c.bufs[j].freedAt ==> j == Victim(c.bufs)
  {
  }

  lemma ReadInv(c: Cache, k: Key)
    requires Inv(c) && CanGet(c, k)
    ensures Inv(Read(c, k))
    ensures var b := Read(c, k).bufs[Slot(c, k)]; b.key == k && b.valid && b.ref > 0
  {
    var i, c' := Slot(c, k), Read(c, k);
    assert forall j :: 0 <= j < |c.bufs| && j != i ==> c'.bufs[j] == c.bufs[j];
  }

  lemma ChangeInv(c: Cache, i: nat, d: Block)
    requires Inv(c) && i < |c.bufs| && c.bufs[i].ref > 0
    ensures Inv(Change(c, i, d))
  {
    var c' := Change(c, i, d);
    assert forall j :: 0 <= j < |c.bufs| && j != i ==> c'.bufs[j] == c.bufs[j];
  }

  lemma WriteInv(c: Cache, i: nat)
    requires Inv(c) && i < |c.bufs| && c.bufs[i].ref > 0
    ensures Inv(Write(c, i))
  {
    var c' := Write(c, i);
    assert forall j :: 0 <= j < |c.bufs| && j != i ==> c'.bufs[j] == c.bufs[j];
  }

  /** Position j of the list after a release to zero, in the old list. */
  function Before(i: nat, j: nat): nat {
    if j == 0 then i else if j <= i then j - 1 else j
  }

  /** The buffers after a release to zero, by their old positions. */
  lemma Moved(c: Cache, i: nat)
    requires i < |c.bufs| && c.bufs[i].ref == 1
    ensures |Release(c, i).bufs| == |c.bufs|
    ensures forall j :: 0 < j < |c.bufs| ==> Before(i, j) < |c.bufs| && Before(i, j) != i
    ensures forall j :: 0 < j < |c.bufs| ==> Release(c, i).bufs[j] == c.bufs[Before(i, j)]
    ensures forall j, k :: 0 < j < k < |c.bufs| ==> Before(i, j) < Before(i, k)
  {
  }

  lemma MovedKeys(c: Cache, i: nat)
    requires KeysOk(c) && i < |c.bufs| && c.bufs[i].ref == 1
    ensures KeysOk(Release(c, i))
  {
    Moved(c, i);
    var c' := Release(c, i);
    hide Release;
    forall j, k | 0 <= j < k < |c'.bufs| && c'.bufs[j].key == c'.bufs[k].key
      ensures !c'.bufs[k].valid && c'.bufs[k].ref == 0
    {
      var b := c.bufs[Before(i, k)];
      if j == 0 {
        assert c'.bufs[0].key == c.bufs[i].key by { MovedHead(c, i); }
        assert Before(i, k) != i;
      } else {
        assert c'.bufs[j] == c.bufs[Before(i, j)];
      }
    }
  }

  lemma MovedHead(c: Cache, i: nat)
    requires i < |c.bufs| && c.bufs[i].ref == 1
    ensures Release(c, i).bufs[0]
            == Buffer(c.bufs[i].key, c.bufs[i].valid, 0, c.bufs[i].data, c.bufs[i].clean, c.clock)
    ensures Release(c, i).clock == c.clock + 1 && Release(c, i).disk == c.disk
  {
  }

  lemma MovedRest(c: Cache, i: nat)
    requires DiskOk(c) && LruOk(c) && i < |c.bufs| && c.bufs[i].ref == 1 && c.bufs[i].clean
    ensures DiskOk(Release(c, i)) && LruOk(Release(c, i))
  {
    Moved(c, i);
    MovedHead(c, i);
    hide Release;
  }

  lemma ReleaseInv(c: Cache, i: nat)
    requires Inv(c) && i < |c.bufs| && c.bufs[i].ref > 0
    // The user's bwrite came after the last change, so the last user leaves it clean.
    requires c.bufs[i].ref == 1 ==> c.bufs[i].clean
    ensures Inv(Release(c, i))
  {
    if c.bufs[i].ref > 1 {
      assert forall j :: 0 <= j < |c.bufs| && j != i ==> Release(c, i).bufs[j] == c.bufs[j];
    } else {
      Moved(c, i);
      MovedKeys(c, i);
      MovedRest(c, i);
      hide Release, KeysOk, DiskOk, LruOk;
    }
  }

  // --------------------------------------------- runs against a flat disk

  /** What the users of the cache do; a buffer in use is named by its key. */
  datatype Op = ReadOp(k: Key) | ChangeOp(k: Key, d: Block) | WriteOp(k: Key) | ReleaseOp(k: Key)

  /** The call is legal: no panic in bget, only buffers in use are touched, and the last user of a
      buffer writes it after the last change. */
  predicate Allowed(c: Cache, op: Op) {
    if op.ReadOp? then CanGet(c, op.k)
    else
      var i := Find(c.bufs, op.k);
      && i < |c.bufs| && c.bufs[i].ref > 0
      && (op.ReleaseOp? && c.bufs[i].ref == 1 ==> c.bufs[i].clean)
  }

  function Do(c: Cache, op: Op): Cache
    requires Allowed(c, op)
  {
    match op
    case ReadOp(k) => Read(c, k)
    case ChangeOp(k, d) => Change(c, Find(c.bufs, k), d)
    case WriteOp(k) => Write(c, Find(c.bufs, k))
    case ReleaseOp(k) => Release(c, Find(c.bufs, k))
  }

  /** The bytes a call hands out. */
  function Result(c: Cache, op: Op): seq<Block>
    requires Allowed(c, op)
  {
    if op.ReadOp? then [Read(c, op.k).bufs[Slot(c, op.k)].data] else []
  }

  /** The same users on a plain map from block to bytes. */
  function FlatDo(m: map<Key, Block>, op: Op): map<Key, Block> {
    if op.ChangeOp? then m[op.k := op.d] else m
  }

  function FlatResult(m: map<Key, Block>, op: Op): seq<Block> {
    if op.ReadOp? then [At(m, op.k)] else []
  }

  function FlatRun(m: map<Key, Block>, ops: seq<Op>): seq<Block>
    decreases |ops|
  {
    if ops == [] then [] else FlatResult(m, ops[0]) + FlatRun(FlatDo(m, ops[0]), ops[1..])
  }

  predicate Legal(c: Cache, ops: seq<Op>)
    decreases |ops|
  {
    ops == [] || (Allowed(c, ops[0]) && Legal(Do(c, ops[0]), ops[1..]))
  }

  function Run(c: Cache, ops: seq<Op>): (seq<Block>, Cache)
    requires Legal(c, ops)
    decreases |ops|
  {
    if ops == [] then ([], c)
    else
      var rest := Run(Do(c, ops[0]), ops[1..]);
      (Result(c, ops[0]) + rest.0, rest.1)
  }

  /** The bytes of a block now: in its valid buffer if there is one, else on disk. */
  function Current(c: Cache, k: Key): Block {
    var i := Find(c.bufs, k);
    if i < |c.bufs| && c.bufs[i].valid then c.bufs[i].data else At(c.disk, k)
  }

  ghost predicate Agrees(c: Cache, m: map<Key, Block>) {
    forall k :: Current(c, k) == At(m, k)
  }

  lemma CurrentOf(c: Cache, k: Key, i: nat)
    requires KeysOk(c) && i < |c.bufs| && c.bufs[i].key == k && c.bufs[i].valid
    ensures Current(c, k) == c.bufs[i].data
  {
    LiveIsFound(c, i);
  }

  lemma CurrentNone(c: Cache, k: Key)
    requires forall i :: 0 <= i < |c.bufs| && c.bufs[i].key == k ==> !c.bufs[i].valid
    ensures Current(c, k) == At(c.disk, k)
  {
  }

  /** Replacing buffer i by one with the same key and validity changes at most its own bytes. */
  lemma CurrentPatched(c: Cache, i: nat, b: Buffer, disk: map<Key, Block>, clock: int, k: Key)
    requires i < |c.bufs| && b.key == c.bufs[i].key && b.valid == c.bufs[i].valid && KeysOk(c)
    requires At(disk, k) == At(c.disk, k) || (k == b.key && b.valid)
    ensures Current(Cache(c.bufs[i := b], disk, clock), k) == if k == b.key && b.valid then b.data else Current(c, k)
  {
    var c' := Cache(c.bufs[i := b], disk, clock);
    FindPatched(c.bufs, i, b, k);
    if k == b.key && b.valid {
      LiveIsFound(c, i);
    }
  }

  lemma FindPatched(bufs: seq<Buffer>, i: nat, b: Buffer, k: Key)
    requires i < |bufs| && b.key == bufs[i].key
    ensures Find(bufs[i := b], k) == Find(bufs, k)
  {
    var x, y := Find(bufs[i := b], k), Find(bufs, k);
    assert x < |bufs| ==> bufs[x].key == k;
    assert y < |bufs| ==> bufs[i := b][y].key == k;
  }

  lemma ReadHit(c: Cache, k: Key, k': Key)
    requires Inv(c) && Find(c.bufs, k) < |c.bufs|
    ensures Current(Read(c, k), k') == Current(c, k')
    ensures Result(c, ReadOp(k)) == [Current(c, k)]
  {
    var i := Find(c.bufs, k);
    FindPatched(c.bufs, i, Read(c, k).bufs[i], k');
    assert Read(c, k).bufs == c.bufs[i := Read(c, k).bufs[i]];
  }

  lemma ReadMiss(c: Cache, k: Key, k': Key)
    requires Inv(c) && Find(c.bufs, k) == |c.bufs| && CanGet(c, k)
    ensures Current(Read(c, k), k') == Current(c, k')
    ensures Result(c, ReadOp(k)) == [Current(c, k)]
  {
    var i, c' := Slot(c, k), Read(c, k);
    var was := c.bufs[i];
    ReadInv(c, k);
    assert c'.bufs[i].key == k && c'.bufs[i].data == At(c.disk, k) && was.key != k;
    assert forall j :: 0 <= j < |c.bufs| && j != i ==> c'.bufs[j] == c.bufs[j];
    hide Read;
    if k' == k {
      CurrentOf(c', k, i);
    } else if k' == was.key && was.valid {
      CurrentOf(c, k', i);
      CurrentNone(c', k');
    } else {
      CurrentSame(c, c', k');
    }
  }

  lemma ReleaseCurrent(c: Cache, i: nat, k: Key)
    requires Inv(c) && i < |c.bufs| && c.bufs[i].ref == 1 && c.bufs[i].clean
    ensures Current(Release(c, i), k) == Current(c, k)
  {
    ReleaseInv(c, i);
    Moved(c, i);
    MovedHead(c, i);
    var c' := Release(c, i);
    hide Release;
    forall a | 0 <= a < |c.bufs| && c.bufs[a].key == k && c.bufs[a].valid
      ensures exists j ::
                0 <= j < |c'.bufs| && c'.bufs[j].key == k && c'.bufs[j].valid && c'.bufs[j].data == c.bufs[a].data
    {
      var j := if a == i then 0 else if a < i then a + 1 else a;
      assert j > 0 ==> Before(i, j) == a && c'.bufs[j] == c.bufs[a];
      assert c'.bufs[j].key == k;
    }
    forall j | 0 <= j < |c'.bufs| && c'.bufs[j].key == k && c'.bufs[j].valid
      ensures exists a :: 0 <= a < |c.bufs| && c.bufs[a].key == k && c.bufs[a].valid
    {
      assert c.bufs[Before(i, j)].key == k && c.bufs[Before(i, j)].valid;
    }
    CurrentSame(c, c', k);
  }

  /** The current bytes depend only on which valid buffers there are. */
  lemma CurrentSame(c: Cache, c': Cache, k: Key)
    requires KeysOk(c) && KeysOk(c') && At(c.disk, k) == At(c'.disk, k)
    requires forall i :: 0 <= i < |c.bufs| && c.bufs[i].key == k && c.bufs[i].valid ==>
               exists j ::
                 0 <= j < |c'.bufs| && c'.bufs[j].key == k && c'.bufs[j].valid && c'.bufs[j].data == c.bufs[i].data
    requires forall j :: 0 <= j < |c'.bufs| && c'.bufs[j].key == k && c'.bufs[j].valid ==>
               exists i :: 0 <= i < |c.bufs| && c.bufs[i].key == k && c.bufs[i].valid
    ensures Current(c', k) == Current(c, k)
  {
    if i :| 0 <= i < |c.bufs| && c.bufs[i].key == k && c.bufs[i].valid {
      CurrentOf(c, k, i);
      var j :| 0 <= j < |c'.bufs| && c'.bufs[j].key == k && c'.bufs[j].valid && c'.bufs[j].data == c.bufs[i].data;
      CurrentOf(c', k, j);
    } else {
      CurrentNone(c, k);
      CurrentNone(c', k);
    }
  }

  /** One call of a user, on the cache and on the flat disk. */
  lemma DoAgrees(c: Cache, m: map<Key, Block>, op: Op)
    requires Inv(c) && Agrees(c, m) && Allowed(c, op)
    ensures Inv(Do(c, op)) && Agrees(Do(c, op), FlatDo(m, op)) && Result(c, op) == FlatResult(m, op)
  {
    DoInv(c, op);
    forall k
      ensures Current(Do(c, op), k) == At(FlatDo(m, op), k)
    {
      DoCurrent(c, op, k);
      assert Current(c, k) == At(m, k);
    }
    if op.ReadOp? {
      if Find(c.bufs, op.k) < |c.bufs| { ReadHit(c, op.k, op.k); } else { ReadMiss(c, op.k, op.k); }
      assert Current(c, op.k) == At(m, op.k);
    }
  }

  lemma DoInv(c: Cache, op: Op)
    requires Inv(c) && Allowed(c, op)
    ensures Inv(Do(c, op))
  {
    hide Inv, Read, Change, Write, Release;
    match op
    case ReadOp(k) => ReadInv(c, k);
    case ChangeOp(k, d) => CountInv(c); ChangeInv(c, Find(c.bufs, k), d);
    case WriteOp(k) => CountInv(c); WriteInv(c, Find(c.bufs, k));
    case ReleaseOp(k) => CountInv(c); ReleaseInv(c, Find(c.bufs, k));
  }

  lemma CountInv(c: Cache)
    requires Inv(c)
    ensures KeysOk(c) && DiskOk(c)
  {
  }

  lemma DoCurrent(c: Cache, op: Op, k: Key)
    requires Inv(c) && Allowed(c, op)
    ensures Current(Do(c, op), k) == if op.ChangeOp? && op.k == k then op.d else Current(c, k)
  {
    var i := Find(c.bufs, op.k);
    CountInv(c);
    if op.ReadOp? {
      if i < |c.bufs| { ReadHit(c, op.k, k); } else { ReadMiss(c, op.k, k); }
    } else if op.ReleaseOp? && c.bufs[i].ref == 1 {
      ReleaseCurrent(c, i, k);
    } else {
      var c', b := Do(c, op), c.bufs[i];
      assert b.valid;
      if k == op.k { LiveIsFound(c, i); }
      match op
      case ChangeOp(_, d) => CurrentPatched(c, i, Buffer(b.key, b.valid, b.ref, d, false, b.freedAt), c.disk, c.clock,
          k);
      case WriteOp(_) => CurrentPatched(c, i, Buffer(b.key, b.valid, b.ref, b.data, true, b.freedAt),
          c.disk[b.key := b.data], c.clock, k);
      case ReleaseOp(_) => CurrentPatched(c, i, Buffer(b.key, b.valid, b.ref - 1, b.data, b.clean, b.freedAt), c.disk,
          c.clock, k);
    }
  }

  /** Over any legal run, across any number of recyclings, bread hands out what a flat disk would. */
  lemma {:induction false} RunRefinesFlat(c: Cache, m: map<Key, Block>, ops: seq<Op>)
    requires Inv(c) && Agrees(c, m) && Legal(c, ops)
    ensures Run(c, ops).0 == FlatRun(m, ops) && Inv(Run(c, ops).1)
    decreases |ops|
  {
    if ops != [] {
      DoAgrees(c, m, ops[0]);
      RunRefinesFlat(Do(c, ops[0]), FlatDo(m, ops[0]), ops[1..]);
    }
  }

  /** From binit on. */
  lemma CacheIsDisk(n: nat, disk: map<Key, Block>, ops: seq<Op>)
    requires n > 0 && Legal(Init(n, disk), ops)
    ensures Run(Init(n, disk), ops).0 == FlatRun(disk, ops)
    ensures Inv(Run(Init(n, disk), ops).1)
  {
    InitInv(n, disk);
    RunRefinesFlat(Init(n, disk), disk, ops);
  }

  /** When no buffer is in use, everything that was changed is on disk. */
  lemma IdleIsDurable(c: Cache, m: map<Key, Block>)
    requires Inv(c) && Agrees(c, m) && forall i :: 0 <= i < |c.bufs| ==> c.bufs[i].ref == 0
    ensures forall k :: At(c.disk, k) == At(m, k)
  {
    forall k
      ensures At(c.disk, k) == At(m, k)
    {
      assert Current(c, k) == At(m, k);
    }
  }
}
