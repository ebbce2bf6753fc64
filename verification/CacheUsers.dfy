/** Who uses which buffer, told from the calls alone: the counts, which calls are legal, and which block
    goes when a buffer is taken over. */
module CacheUsers {
  import opened Words
  import opened CacheModel

  // ------------------------------------------------------ told by the calls

  /** A read brings a user, a release takes one away. */
  function Delta(op: Op, k: Key): int {
    if op.k != k then 0 else if op.ReadOp? then 1 else if op.ReleaseOp? then -1 else 0
  }

  /** The reads of block k minus its releases. */
  function Users(ops: seq<Op>, k: Key): int {
    if ops == [] then 0 else Users(ops[..|ops| - 1], k) + Delta(ops[|ops| - 1], k)
  }

  /** Block k was changed after it was last written. */
  predicate Unsaved(ops: seq<Op>, k: Key) {
    && ops != []
    && var op := ops[|ops| - 1];
       if op.k == k && (op.ChangeOp? || op.WriteOp?) then op.ChangeOp? else Unsaved(ops[..|ops| - 1], k)
  }

  /** The last call left a block without users. */
  predicate Frees(ops: seq<Op>) {
    ops != [] && ops[|ops| - 1].ReleaseOp? && Users(ops, ops[|ops| - 1].k) == 0
  }

  /** How often a block was left without users. */
  function Falls(ops: seq<Op>): nat {
    if ops == [] then 0 else Falls(ops[..|ops| - 1]) + if Frees(ops) then 1 else 0
  }

  /** The number of that fall at which block k was last left; 0 when it never was. */
  function LeftAt(ops: seq<Op>, k: Key): nat {
    if ops == [] then 0
    else if Frees(ops) && ops[|ops| - 1].k == k then Falls(ops)
    else LeftAt(ops[..|ops| - 1], k)
  }

  /** The blocks that have users. */
  function Busy(ops: seq<Op>): set<Key> {
    set op | op in ops && Users(ops, op.k) > 0 :: op.k
  }

  /** The call is legal behind ops with n buffers: a read finds its block in use or less than n blocks in
      use; all else is done by a user, and the last user leaves the block saved. */
  predicate Fair(n: nat, ops: seq<Op>, op: Op) {
    if op.ReadOp? then Users(ops, op.k) > 0 || |Busy(ops)| < n
    else Users(ops, op.k) > 0 && (op.ReleaseOp? && Users(ops, op.k) == 1 ==> !Unsaved(ops, op.k))
  }

  predicate AllFair(n: nat, ops: seq<Op>) {
    ops == [] || (AllFair(n, ops[..|ops| - 1]) && Fair(n, ops[..|ops| - 1], ops[|ops| - 1]))
  }

  // -------------------------------------------------- what the cache holds

  /** The valid buffer of block k. */
  function Live(c: Cache, k: Key): Option<Buffer> {
    var i := Find(c.bufs, k);
    if i < |c.bufs| && c.bufs[i].valid then Some(c.bufs[i]) else None
  }

  function Ref(c: Cache, k: Key): nat { if Live(c, k).Some? then Live(c, k).value.ref else 0 }

  lemma LiveIs(c: Cache, i: nat)
    requires KeysOk(c) && i < |c.bufs| && c.bufs[i].valid
    ensures Live(c, c.bufs[i].key) == Some(c.bufs[i])
  {
    LiveIsFound(c, i);
  }

  lemma LiveNone(c: Cache, k: Key)
    requires forall i :: 0 <= i < |c.bufs| && c.bufs[i].key == k ==> !c.bufs[i].valid
    ensures Live(c, k) == None
  {
  }

  /** The live buffer depends only on which valid buffers there are. */
  lemma LiveSame(c: Cache, c': Cache, k: Key)
    requires KeysOk(c) && KeysOk(c')
    requires forall i :: 0 <= i < |c.bufs| && c.bufs[i].key == k && c.bufs[i].valid ==>
               exists j :: 0 <= j < |c'.bufs| && c'.bufs[j] == c.bufs[i]
    requires forall j :: 0 <= j < |c'.bufs| && c'.bufs[j].key == k && c'.bufs[j].valid ==>
               exists i :: 0 <= i < |c.bufs| && c.bufs[i].key == k && c.bufs[i].valid
    ensures Live(c', k) == Live(c, k)
  {
    if i :| 0 <= i < |c.bufs| && c.bufs[i].key == k && c.bufs[i].valid {
      LiveIs(c, i);
      var j :| 0 <= j < |c'.bufs| && c'.bufs[j] == c.bufs[i];
      LiveIs(c', j);
    } else {
      LiveNone(c, k);
      LiveNone(c', k);
    }
  }

  /** One buffer is replaced, key and validity as they were. */
  lemma LivePatched(c: Cache, c': Cache, i: nat, k: Key)
    requires KeysOk(c) && KeysOk(c') && i < |c.bufs| == |c'.bufs| && c'.bufs == c.bufs[i := c'.bufs[i]]
    requires c.bufs[i].valid && c'.bufs[i].valid && c'.bufs[i].key == c.bufs[i].key
    ensures Live(c', k) == if k == c.bufs[i].key then Some(c'.bufs[i]) else Live(c, k)
  {
    LiveIs(c', i);
    if k != c.bufs[i].key {
      forall a | 0 <= a < |c.bufs| && c.bufs[a].key == k && c.bufs[a].valid
        ensures exists j :: 0 <= j < |c'.bufs| && c'.bufs[j] == c.bufs[a]
      {
        assert c'.bufs[a] == c.bufs[a];
      }
      forall j | 0 <= j < |c'.bufs| && c'.bufs[j].key == k && c'.bufs[j].valid
        ensures exists a :: 0 <= a < |c.bufs| && c.bufs[a].key == k && c.bufs[a].valid
      {
        assert c.bufs[j] == c'.bufs[j];
      }
      LiveSame(c, c', k);
    }
  }

  /** What becomes of the live buffer of block k in a call. */
  ghost predicate LiveMoves(c: Cache, c': Cache, op: Op, k: Key) {
    var b, b' := Live(c, k), Live(c', k);
    if op.k != k then b' == b || (op.ReadOp? && b.Some? && b.value.ref == 0 && b' == None)
    else if op.ReadOp? then
      && b'.Some? && b'.value.ref == (if b.Some? then b.value.ref else 0) + 1
      && b'.value.clean == (b.Some? ==> b.value.clean)
    else
      && b.Some? && b'.Some? && b'.value.ref == b.value.ref + Delta(op, k)
      && b'.value.clean == (if op.ChangeOp? then false else if op.WriteOp? then true else b.value.clean)
      && (op.ReleaseOp? && b.value.ref == 1 ==> b'.value.freedAt == c.clock)
  }

  lemma ReadMoves(c: Cache, k0: Key, k: Key)
    requires Inv(c) && CanGet(c, k0)
    ensures LiveMoves(c, Read(c, k0), ReadOp(k0), k)
  {
    ReadInv(c, k0);
    var c', i := Read(c, k0), Slot(c, k0);
    assert c'.bufs == c.bufs[i := c'.bufs[i]];
    LiveIs(c', i);
    if Find(c.bufs, k0) < |c.bufs| && c.bufs[i].valid {
      LiveIs(c, i);
      LivePatched(c, c', i, k);
    } else {
      ReadFills(c, c', i, k0, k);
    }
  }

  /** A buffer that was not valid, or was another block's, is filled. */
  lemma ReadFills(c: Cache, c': Cache, i: nat, k0: Key, k: Key)
    requires Inv(c) && Inv(c') && CanGet(c, k0) && c' == Read(c, k0) && i == Slot(c, k0)
    requires c'.bufs == c.bufs[i := c'.bufs[i]] && Live(c', k0) == Some(c'.bufs[i])
    requires Find(c.bufs, k0) == |c.bufs| || !c.bufs[i].valid
    ensures LiveMoves(c, c', ReadOp(k0), k)
  {
    var was := c.bufs[i];
    assert was.ref == 0 && c'.bufs[i].key == k0 && c'.bufs[i].ref == 1 && c'.bufs[i].clean;
    assert forall j :: 0 <= j < |c.bufs| && j != i ==> c'.bufs[j] == c.bufs[j];
    hide Read;
    if k == k0 {
      assert Live(c, k0) == None;
    } else if was.valid && was.key == k {
      LiveIs(c, i);
      LiveNone(c', k);
    } else {
      LiveSame(c, c', k);
    }
  }

  lemma ReleaseMoves(c: Cache, i: nat, k: Key)
    requires Inv(c) && i < |c.bufs| && c.bufs[i].ref == 1 && c.bufs[i].clean && Find(c.bufs, c.bufs[i].key) == i
    ensures LiveMoves(c, Release(c, i), ReleaseOp(c.bufs[i].key), k)
  {
    ReleaseInv(c, i);
    Moved(c, i);
    MovedHead(c, i);
    var c' := Release(c, i);
    hide Release;
    LiveIs(c, i);
    LiveIs(c', 0);
    if k != c.bufs[i].key {
      forall a | 0 <= a < |c.bufs| && c.bufs[a].key == k && c.bufs[a].valid
        ensures exists j :: 0 <= j < |c'.bufs| && c'.bufs[j] == c.bufs[a]
      {
        var j := if a < i then a + 1 else a;
        assert Before(i, j) == a && c'.bufs[j] == c.bufs[a];
      }
      forall j | 0 <= j < |c'.bufs| && c'.bufs[j].key == k && c'.bufs[j].valid
        ensures exists a :: 0 <= a < |c.bufs| && c.bufs[a].key == k && c.bufs[a].valid
      {
        assert c.bufs[Before(i, j)].key == k && c.bufs[Before(i, j)].valid;
      }
      LiveSame(c, c', k);
    }
  }

  lemma DoMoves(c: Cache, op: Op, k: Key)
    requires Inv(c) && Allowed(c, op)
    ensures LiveMoves(c, Do(c, op), op, k)
  {
    DoInv(c, op);
    CountInv(c);
    CountInv(Do(c, op));
    if op.ReadOp? {
      ReadMoves(c, op.k, k);
    } else {
      var i := Find(c.bufs, op.k);
      LiveIs(c, i);
      if op.ReleaseOp? && c.bufs[i].ref == 1 {
        ReleaseMoves(c, i, k);
      } else {
        hide Inv, KeysOk, DiskOk, LruOk, Live;
        LivePatched(c, Do(c, op), i, k);
      }
    }
  }

  /** A call changes the count of each block as it says. */
  lemma RefStep(c: Cache, op: Op, k: Key)
    requires Inv(c) && Allowed(c, op)
    ensures Ref(Do(c, op), k) == Ref(c, k) + Delta(op, k)
  {
    DoMoves(c, op, k);
    hide Inv, Do, Allowed, Live;
  }

  /** Where the buffer at position j of the list is after the call. */
  function To(c: Cache, op: Op, j: nat): nat
    requires Allowed(c, op)
  {
    var i := Find(c.bufs, op.k);
    if op.ReleaseOp? && c.bufs[i].ref == 1 then (if j == i then 0 else if j < i then j + 1 else j) else j
  }

  /** The list after the call. */
  function Order<T>(c: Cache, op: Op, l: seq<T>): seq<T>
    requires Allowed(c, op) && |l| == |c.bufs|
  {
    var i := Find(c.bufs, op.k);
    if op.ReleaseOp? && c.bufs[i].ref == 1 then [l[i]] + (l[..i] + l[i + 1..]) else l
  }

  lemma OrderAt<T>(c: Cache, op: Op, l: seq<T>)
    requires Allowed(c, op) && |l| == |c.bufs|
    ensures |Order(c, op, l)| == |l| && forall x :: x in Order(c, op, l) ==> x in l
    ensures forall j :: 0 <= j < |l| ==> To(c, op, j) < |l| && Order(c, op, l)[To(c, op, j)] == l[j]
  {
  }

  /** A buffer in use keeps its key through a call, and its count follows the calls on its block. */
  lemma UsedStays(c: Cache, op: Op, j: nat)
    requires Inv(c) && Allowed(c, op) && j < |c.bufs| && c.bufs[j].ref > 0
    ensures |Do(c, op).bufs| == |c.bufs| && To(c, op, j) < |c.bufs|
    ensures var b := Do(c, op).bufs[To(c, op, j)];
            b.key == c.bufs[j].key && b.ref == c.bufs[j].ref + Delta(op, b.key)
  {
    CountInv(c);
    LiveIsFound(c, j);
    var i := Find(c.bufs, op.k);
    if op.ReleaseOp? && c.bufs[i].ref == 1 {
      Moved(c, i);
      MovedHead(c, i);
      assert j != i ==> Before(i, To(c, op, j)) == j;
      hide Release;
    }
  }

  lemma UsedAll(c: Cache, op: Op)
    requires Inv(c) && Allowed(c, op)
    ensures |Do(c, op).bufs| == |c.bufs|
    ensures forall j :: 0 <= j < |c.bufs| && c.bufs[j].ref > 0 ==>
              && To(c, op, j) < |c.bufs| && Do(c, op).bufs[To(c, op, j)].key == c.bufs[j].key
              && Do(c, op).bufs[To(c, op, j)].ref == c.bufs[j].ref + Delta(op, c.bufs[j].key)
  {
    hide Inv, Allowed, Do, To, Delta;
    SizeKept(c, op);
    forall j | 0 <= j < |c.bufs| && c.bufs[j].ref > 0
      ensures To(c, op, j) < |c.bufs| && Do(c, op).bufs[To(c, op, j)].key == c.bufs[j].key
      ensures Do(c, op).bufs[To(c, op, j)].ref == c.bufs[j].ref + Delta(op, c.bufs[j].key)
    {
      UsedStays(c, op, j);
    }
  }

  lemma SizeKept(c: Cache, op: Op)
    requires Allowed(c, op)
    ensures |Do(c, op).bufs| == |c.bufs|
  {
  }

  lemma ReadCounted(c: Cache, op: Op)
    requires Inv(c) && Allowed(c, op) && op.ReadOp?
    ensures var b := Do(c, op).bufs[Slot(c, op.k)]; b.key == op.k && b.ref == Ref(c, op.k) + 1
  {
    ReadInv(c, op.k);
    LiveIs(Do(c, op), Slot(c, op.k));
    RefStep(c, op, op.k);
  }

  // ------------------------------------------------------------- every run

  /** What the cache knows of block k is what the calls say. */
  ghost predicate Told(c: Cache, ops: seq<Op>, k: Key) {
    match Live(c, k)
    case None => Users(ops, k) == 0 && !Unsaved(ops, k)
    case Some(b) =>
      && b.ref == Users(ops, k) && (b.clean <==> !Unsaved(ops, k))
      && (b.ref == 0 ==> b.freedAt == LeftAt(ops, k) > 0)
  }

  ghost predicate AllTold(c: Cache, ops: seq<Op>) {
    && (forall k :: Told(c, ops, k)) && c.clock == Falls(ops) + 1
    && forall i :: 0 <= i < |c.bufs| && !c.bufs[i].valid ==> c.bufs[i].freedAt <= 0
  }

  lemma Snoc(ops: seq<Op>, op: Op)
    ensures (ops + [op])[..|ops|] == ops && (ops + [op])[|ops|] == op
  {
  }

  /** What one more call says. */
  lemma TellsMore(ops: seq<Op>, op: Op, k: Key)
    ensures var all := ops + [op];
            && Users(all, k) == Users(ops, k) + Delta(op, k)
            && (Unsaved(all, k) <==>
                  if op.k == k && (op.ChangeOp? || op.WriteOp?) then op.ChangeOp? else Unsaved(ops, k))
            && (if op == ReleaseOp(k) && Users(all, k) == 0 then LeftAt(all, k) == Falls(ops) + 1
                else LeftAt(all, k) == LeftAt(ops, k))
  {
    Snoc(ops, op);
  }

  lemma ToldStep(c: Cache, ops: seq<Op>, op: Op, k: Key)
    requires Inv(c) && Allowed(c, op) && Told(c, ops, k) && c.clock == Falls(ops) + 1
    ensures Told(Do(c, op), ops + [op], k)
  {
    TellsMore(ops, op, k);
    DoMoves(c, op, k);
    FreeIsSaved(c, k);
    hide Inv, Do, Allowed, Live, Users, Unsaved, LeftAt, Falls;
  }

  lemma UsedIsLive(c: Cache, k: Key)
    requires Inv(c) && Find(c.bufs, k) < |c.bufs| && c.bufs[Find(c.bufs, k)].ref > 0
    ensures Live(c, k) == Some(c.bufs[Find(c.bufs, k)])
  {
    CountInv(c);
  }

  lemma FreeIsSaved(c: Cache, k: Key)
    requires Inv(c)
    ensures Live(c, k).Some? && Live(c, k).value.ref == 0 ==> Live(c, k).value.clean
  {
    CountInv(c);
  }

  lemma ClockStep(c: Cache, ops: seq<Op>, op: Op)
    requires Inv(c) && Allowed(c, op) && Told(c, ops, op.k) && c.clock == Falls(ops) + 1
    ensures Do(c, op).clock == Falls(ops + [op]) + 1
  {
    Snoc(ops, op);
    if op.ReleaseOp? {
      UsedIsLive(c, op.k);
      if c.bufs[Find(c.bufs, op.k)].ref == 1 { MovedHead(c, Find(c.bufs, op.k)); }
    }
  }

  lemma StaleStep(c: Cache, op: Op)
    requires Inv(c) && Allowed(c, op) && forall i :: 0 <= i < |c.bufs| && !c.bufs[i].valid ==> c.bufs[i].freedAt <= 0
    ensures forall i :: 0 <= i < |c.bufs| && !Do(c, op).bufs[i].valid ==> Do(c, op).bufs[i].freedAt <= 0
    ensures |Do(c, op).bufs| == |c.bufs|
  {
    CountInv(c);
    var c', i := Do(c, op), Find(c.bufs, op.k);
    if op.ReadOp? {
      var j := Slot(c, op.k);
      assert forall a :: 0 <= a < |c.bufs| && a != j ==> c'.bufs[a] == c.bufs[a];
      ReadInv(c, op.k);
    } else if op.ReleaseOp? && c.bufs[i].ref == 1 {
      Moved(c, i);
      MovedHead(c, i);
      hide Release;
    } else {
      assert forall a :: 0 <= a < |c.bufs| && a != i ==> c'.bufs[a] == c.bufs[a];
    }
  }

  lemma AllToldStep(c: Cache, ops: seq<Op>, op: Op)
    requires Inv(c) && Allowed(c, op) && AllTold(c, ops)
    ensures AllTold(Do(c, op), ops + [op])
  {
    hide Inv, Allowed, Do, Told;
    forall k
      ensures Told(Do(c, op), ops + [op], k)
    {
      ToldStep(c, ops, op, k);
    }
    ClockStep(c, ops, op);
    StaleStep(c, op);
  }

  lemma InitTold(n: nat, disk: map<Key, Block>)
    requires n > 0
    ensures AllTold(Init(n, disk), [])
  {
    forall k
      ensures Told(Init(n, disk), [], k)
    {
      LiveNone(Init(n, disk), k);
    }
  }

  lemma {:induction false} LegalSnoc(c: Cache, ops: seq<Op>, op: Op)
    ensures Legal(c, ops + [op]) <==> Legal(c, ops) && Allowed(Run(c, ops).1, op)
    ensures Legal(c, ops + [op]) ==> Run(c, ops + [op]).1 == Do(Run(c, ops).1, op)
    decreases |ops|
  {
    hide Allowed, Do, Result;
    if ops == [] {
      assert ops + [op] == [op] && [op][1..] == [];
    } else {
      assert (ops + [op])[0] == ops[0] && (ops + [op])[1..] == ops[1..] + [op];
      if Allowed(c, ops[0]) {
        LegalSnoc(Do(c, ops[0]), ops[1..], op);
      }
    }
  }

  lemma {:induction false} RunTold(n: nat, disk: map<Key, Block>, ops: seq<Op>)
    requires n > 0 && Legal(Init(n, disk), ops)
    ensures var c := Run(Init(n, disk), ops).1; Inv(c) && AllTold(c, ops) && |c.bufs| == n
    decreases |ops|
  {
    hide Inv, AllTold, Legal, Do, Allowed;
    if ops == [] {
      InitInv(n, disk);
      InitTold(n, disk);
    } else {
      var front, op := ops[..|ops| - 1], ops[|ops| - 1];
      assert ops == front + [op];
      LegalSnoc(Init(n, disk), front, op);
      RunTold(n, disk, front);
      var c := Run(Init(n, disk), front).1;
      DoInv(c, op);
      AllToldStep(c, front, op);
      StaleStep(c, op) by { AllToldStale(c, front); }
    }
  }

  lemma AllToldStale(c: Cache, ops: seq<Op>)
    requires AllTold(c, ops)
    ensures forall i :: 0 <= i < |c.bufs| && !c.bufs[i].valid ==> c.bufs[i].freedAt <= 0
  {
  }

  /** In every run the count of a buffer is the number of users of its block, told by the calls alone; a
      block with users has a buffer. */
  lemma CountsUsers(n: nat, disk: map<Key, Block>, ops: seq<Op>, k: Key)
    requires n > 0 && Legal(Init(n, disk), ops)
    ensures var c := Run(Init(n, disk), ops).1;
            && Users(ops, k) >= 0
            && (forall i :: 0 <= i < |c.bufs| && c.bufs[i].key == k && c.bufs[i].ref > 0 ==>
                  c.bufs[i].ref == Users(ops, k))
            && (Users(ops, k) > 0 ==>
                  exists i :: 0 <= i < |c.bufs| && c.bufs[i].key == k && c.bufs[i].valid
                              && c.bufs[i].ref == Users(ops, k))
  {
    RunTold(n, disk, ops);
    var c := Run(Init(n, disk), ops).1;
    hide Legal, Run;
    assert Told(c, ops, k);
    forall i | 0 <= i < |c.bufs| && c.bufs[i].key == k && c.bufs[i].ref > 0
      ensures c.bufs[i].ref == Users(ops, k)
    {
      LiveIs(c, i);
    }
  }

  /** The count of block k behind ops, which began at c. */
  function Count(c: Cache, ops: seq<Op>, k: Key): int { Ref(c, k) + Users(ops, k) }

  /** The i-th call read a block that had users ever since. */
  ghost predicate Held(c: Cache, ops: seq<Op>, i: nat)
    requires i < |ops|
  {
    ops[i].ReadOp? && forall m :: i < m <= |ops| ==> Count(c, ops[..m], ops[i].k) > 0
  }

  lemma HeldBefore(c: Cache, ops: seq<Op>, op: Op, i: nat)
    requires i < |ops| && Held(c, ops + [op], i)
    ensures Held(c, ops, i) && Count(c, ops, ops[i].k) > 0
    ensures Count(c, ops + [op], ops[i].k) == Count(c, ops, ops[i].k) + Delta(op, ops[i].k)
  {
    hide Users, Ref;
    forall m | i < m <= |ops|
      ensures Count(c, ops[..m], ops[i].k) > 0
    {
      assert (ops + [op])[..m] == ops[..m];
    }
    assert ops[..|ops|] == ops;
    TellsMore(ops, op, ops[i].k);
  }

  /** The counts in the cache are those that the calls from c0 on give. */
  ghost predicate CountsFrom(c0: Cache, c: Cache, ops: seq<Op>) { forall k :: Ref(c, k) == Count(c0, ops, k) }

  lemma CountsFromStep(c0: Cache, c: Cache, ops: seq<Op>, op: Op)
    requires Inv(c) && Allowed(c, op) && CountsFrom(c0, c, ops)
    ensures CountsFrom(c0, Do(c, op), ops + [op])
  {
    hide Inv, Allowed, Do, Ref;
    forall k
      ensures Ref(Do(c, op), k) == Count(c0, ops + [op], k)
    {
      RefStep(c, op, k);
      TellsMore(ops, op, k);
    }
  }

  lemma CountsFromRefs(c0: Cache, c: Cache, ops: seq<Op>)
    requires CountsFrom(c0, c, ops)
    ensures forall k :: Ref(c, k) == Count(c0, ops, k)
  {
  }

  lemma NoneDone(c: Cache)
    ensures CountsFrom(c, c, [])
  {
  }

  lemma NewCount(c0: Cache, ops: seq<Op>, op: Op)
    requires Held(c0, ops + [op], |ops|)
    ensures op.ReadOp? && Count(c0, ops + [op], op.k) == Count(c0, ops, op.k) + 1
  {
    TellsMore(ops, op, op.k);
  }

  /** Behind the bytes outs the cache c makes all of them with the calls that are left. */
  ghost predicate GoesOn(all: seq<Block>, outs: seq<Block>, c: Cache, rest: seq<Op>) {
    Legal(c, rest) && outs + Run(c, rest).0 == all
  }

  lemma GoesOnFirst(c: Cache, ops: seq<Op>)
    requires Legal(c, ops)
    ensures GoesOn(Run(c, ops).0, [], c, ops)
  {
    hide Run, Legal;
  }

  lemma GoesOnNext(all: seq<Block>, outs: seq<Block>, c: Cache, rest: seq<Op>)
    requires GoesOn(all, outs, c, rest) && rest != []
    ensures Allowed(c, rest[0]) && GoesOn(all, outs + Result(c, rest[0]), Do(c, rest[0]), rest[1..])
  {
    hide Do, Result, Allowed;
    var r := Run(Do(c, rest[0]), rest[1..]).0;
    assert outs + (Result(c, rest[0]) + r) == (outs + Result(c, rest[0])) + r;
  }

  lemma GoesOnLast(all: seq<Block>, outs: seq<Block>, c: Cache)
    requires GoesOn(all, outs, c, [])
    ensures outs == all
  {
  }

  // ------------------------------------------------- legal, by the calls alone

  function InUse(bufs: seq<Buffer>): set<Key> {
    if bufs == [] then {} else InUse(bufs[1..]) + if bufs[0].ref > 0 then {bufs[0].key} else {}
  }

  lemma {:induction false} InUseHas(bufs: seq<Buffer>, k: Key)
    ensures k in InUse(bufs) <==> exists i :: 0 <= i < |bufs| && bufs[i].key == k && bufs[i].ref > 0
    decreases |bufs|
  {
    if bufs != [] {
      InUseHas(bufs[1..], k);
      if i :| 0 <= i < |bufs| && bufs[i].key == k && bufs[i].ref > 0 {
        assert i > 0 ==> bufs[1..][i - 1] == bufs[i];
      }
    }
  }

  /** As many blocks as buffers are in use exactly when every buffer is. */
  lemma {:induction false} InUseCount(bufs: seq<Buffer>)
    requires forall i, j :: 0 <= i < j < |bufs| && bufs[i].ref > 0 && bufs[j].ref > 0 ==> bufs[i].key != bufs[j].key
    ensures |InUse(bufs)| <= |bufs|
    ensures |InUse(bufs)| == |bufs| <==> forall i :: 0 <= i < |bufs| ==> bufs[i].ref > 0
    decreases |bufs|
  {
    if bufs != [] {
      var rest := bufs[1..];
      InUseCount(rest);
      InUseHas(rest, bufs[0].key);
      assert forall i :: 0 <= i < |rest| ==> rest[i] == bufs[i + 1];
      if forall i :: 0 <= i < |rest| ==> rest[i].ref > 0 {
        assert forall i :: 0 < i < |bufs| ==> bufs[i] == rest[i - 1];
      }
    }
  }

  lemma BusyIsInUse(c: Cache, ops: seq<Op>)
    requires Inv(c) && AllTold(c, ops)
    ensures Busy(ops) == InUse(c.bufs)
  {
    forall k
      ensures k in Busy(ops) <==> k in InUse(c.bufs)
    {
      assert Told(c, ops, k);
      InUseHas(c.bufs, k);
      UserRead(ops, k);
      CountInv(c);
      if k in InUse(c.bufs) {
        var i :| 0 <= i < |c.bufs| && c.bufs[i].key == k && c.bufs[i].ref > 0;
        LiveIs(c, i);
      }
    }
  }

  lemma {:induction false} UserRead(ops: seq<Op>, k: Key)
    ensures Users(ops, k) != 0 ==> exists op :: op in ops && op.k == k
    decreases |ops|
  {
    if ops != [] {
      UserRead(ops[..|ops| - 1], k);
      assert ops[|ops| - 1] in ops;
    }
  }

  lemma FairIsAllowed(n: nat, c: Cache, ops: seq<Op>, op: Op)
    requires Inv(c) && AllTold(c, ops) && |c.bufs| == n
    ensures Fair(n, ops, op) <==> Allowed(c, op)
  {
    assert Told(c, ops, op.k);
    CountInv(c);
    var i := Find(c.bufs, op.k);
    if i < |c.bufs| && c.bufs[i].ref > 0 { UsedIsLive(c, op.k); }
    if op.ReadOp? {
      BusyIsInUse(c, ops);
      InUseCount(c.bufs);
      if i < |c.bufs| && c.bufs[i].ref == 0 { assert !(forall j :: 0 <= j < |c.bufs| ==> c.bufs[j].ref > 0); }
    }
  }

  /** Which runs are legal, told by the calls alone: no bread panics, and only users touch a block. */
  lemma {:induction false} LegalExactly(n: nat, disk: map<Key, Block>, ops: seq<Op>)
    requires n > 0
    ensures Legal(Init(n, disk), ops) <==> AllFair(n, ops)
    decreases |ops|
  {
    hide Inv, AllTold, Legal, Allowed, Fair, Init;
    if ops == [] {
      assert Legal(Init(n, disk), []) by { NoneLegal(Init(n, disk)); }
    } else {
      var front, op := ops[..|ops| - 1], ops[|ops| - 1];
      assert ops == front + [op];
      LegalExactly(n, disk, front);
      LegalSnoc(Init(n, disk), front, op);
      if Legal(Init(n, disk), front) {
        RunTold(n, disk, front);
        FairIsAllowed(n, Run(Init(n, disk), front).1, front, op);
      }
    }
  }

  lemma NoneLegal(c: Cache)
    ensures Legal(c, [])
  {
  }

  // ------------------------------------------------------ the block that goes

  ghost predicate Cached(c: Cache, k: Key) {
    exists i :: 0 <= i < |c.bufs| && c.bufs[i].key == k && c.bufs[i].valid
  }

  lemma CachedIsLive(c: Cache, k: Key)
    requires KeysOk(c)
    ensures Cached(c, k) <==> Live(c, k).Some?
  {
    if i :| 0 <= i < |c.bufs| && c.bufs[i].key == k && c.bufs[i].valid {
      LiveIs(c, i);
    } else {
      LiveNone(c, k);
    }
  }

  /** A block leaves the cache only when another is read, no buffer is unused, and it has no user; and
      then it is the block without users that was left longest ago. */
  lemma LeastRecentGoes(n: nat, disk: map<Key, Block>, ops: seq<Op>, op: Op, k: Key)
    requires n > 0 && Legal(Init(n, disk), ops) && Legal(Init(n, disk), ops + [op])
    requires var c, c' := Run(Init(n, disk), ops).1, Run(Init(n, disk), ops + [op]).1; Cached(c, k) && !Cached(c', k)
    ensures op.ReadOp? && op.k != k && Users(ops, k) == 0
    ensures var c := Run(Init(n, disk), ops).1;
            && (forall i :: 0 <= i < |c.bufs| ==> c.bufs[i].valid)
            && forall k' :: k' != k && Cached(c, k') && Users(ops, k') == 0 ==> LeftAt(ops, k) < LeftAt(ops, k')
  {
    LegalSnoc(Init(n, disk), ops, op);
    RunTold(n, disk, ops);
    Goes(Run(Init(n, disk), ops).1, ops, op, k);
  }

  lemma Goes(c: Cache, ops: seq<Op>, op: Op, k: Key)
    requires Inv(c) && AllTold(c, ops) && Allowed(c, op) && Cached(c, k) && !Cached(Do(c, op), k)
    ensures op.ReadOp? && op.k != k && Users(ops, k) == 0 && forall i :: 0 <= i < |c.bufs| ==> c.bufs[i].valid
    ensures forall k' :: k' != k && Cached(c, k') && Users(ops, k') == 0 ==> LeftAt(ops, k) < LeftAt(ops, k')
  {
    hide Allowed, Do, LruOk, Users, LeftAt, Unsaved;
    DoInv(c, op);
    CachedIsLive(c, k);
    CachedIsLive(Do(c, op), k);
    DoMoves(c, op, k);
    assert Told(c, ops, k);
    var v :| 0 <= v < |c.bufs| && c.bufs[v].key == k && c.bufs[v].valid;
    LiveIs(c, v);
    if v != Victim(c.bufs) { StaysUnlessVictim(c, op, v); }
    forall k' | k' != k && Cached(c, k') && Users(ops, k') == 0
      ensures LeftAt(ops, k) < LeftAt(ops, k')
    {
      assert Told(c, ops, k');
      var j :| 0 <= j < |c.bufs| && c.bufs[j].key == k' && c.bufs[j].valid;
      LiveIs(c, j);
      VictimIsOldest(c, j);
    }
    forall i | 0 <= i < |c.bufs|
      ensures c.bufs[i].valid
    {
      CountInv(c);
      if !c.bufs[i].valid { VictimIsOldest(c, i); }
    }
  }

  lemma StaysUnlessVictim(c: Cache, op: Op, v: nat)
    requires Inv(c) && Allowed(c, op) && op.ReadOp? && v < |c.bufs| && c.bufs[v].valid && v != Victim(c.bufs)
    ensures Cached(Do(c, op), c.bufs[v].key)
  {
    var b := Do(c, op).bufs[v];
    assert b.key == c.bufs[v].key && b.valid;
  }
}
