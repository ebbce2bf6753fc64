/** The buffer cache as the kernel has it: a ring of buffers through a sentinel, relinked in place. */
module BufferCache {
  import opened Words
  import opened CacheModel
  import opened CacheUsers

  class Buf {
    var valid: bool
    var dev: nat
    var blockno: nat
    var refcnt: nat
    var prev: Buf?
    var next: Buf?
    var data: Block
    // What the model knows of the past of the buffer.
    ghost var clean: bool
    ghost var freedAt: int

    constructor (ghost at: int)
      ensures !valid && dev == 0 && blockno == 0 && refcnt == 0 && data == Empty() && clean && freedAt == at
    {
      valid, dev, blockno, refcnt, data := false, 0, 0, 0, Empty();
      prev, next := null, null;
      clean, freedAt := true, at;
    }
  }

  function Succ(i: nat, n: nat): nat { if i + 1 < n then i + 1 else 0 }

  ghost predicate Distinct(q: seq<Buf>) {
    forall i, j :: 0 <= i < j < |q| ==> q[i] != q[j]
  }

  /** q is a circle: next goes along it, prev goes back. */
  ghost predicate Ring(q: seq<Buf>)
    reads q
  {
    && q != [] && Distinct(q)
    && forall i :: 0 <= i < |q| ==> q[i].next == q[Succ(i, |q|)] && q[Succ(i, |q|)].prev == q[i]
  }

  function Without(q: seq<Buf>, k: nat): seq<Buf>
    requires k < |q|
  {
    q[..k] + q[k + 1..]
  }

  /** The four pointer writes of brelse that take b out of the ring; only two cells change. */
  method Unlink(b: Buf, ghost q: seq<Buf>, ghost k: nat)
    requires Ring(q) && 0 < k < |q| && q[k] == b
    modifies q
    ensures Ring(Without(q, k))
    ensures forall x :: x in q ==> Fields(x) == old(Fields(x))
  {
    ghost var p, n := q[k - 1], q[Succ(k, |q|)];
    assert b.prev == p by { assert q[Succ(k - 1, |q|)].prev == q[k - 1]; }
    DistinctWithout(q, k);
    b.next.prev := b.prev;
    b.prev.next := b.next;
    ghost var w := Without(q, k);
    forall i | 0 <= i < |w|
      ensures w[i].next == w[Succ(i, |w|)] && w[Succ(i, |w|)].prev == w[i]
    {
      var j := if i < k then i else i + 1;
      assert w[i] == q[j];
      assert old(q[j].next) == q[Succ(j, |q|)];
      assert old(q[Succ(j, |q|)].prev) == q[j];
    }
  }

  lemma DistinctWithout(q: seq<Buf>, k: nat)
    requires Distinct(q) && k < |q|
    ensures Distinct(Without(q, k))
  {
    var w := Without(q, k);
    forall i, j | 0 <= i < j < |w|
      ensures w[i] != w[j]
    {
      assert w[i] == q[if i < k then i else i + 1];
      assert w[j] == q[if j < k then j else j + 1];
    }
  }

  lemma DistinctPushed(q: seq<Buf>, b: Buf)
    requires q != [] && Distinct(q) && b !in q
    ensures Distinct(Pushed(q, b))
  {
    var w := Pushed(q, b);
    forall i, j | 0 <= i < j < |w|
      ensures w[i] != w[j]
    {
      assert i >= 2 ==> w[i] == q[i - 1];
      assert j >= 2 ==> w[j] == q[j - 1];
    }
  }

  /** Everything in a buffer but its links. */
  ghost function Fields(b: Buf): Buffer
    reads b
  {
    Buffer((b.dev, b.blockno), b.valid, b.refcnt, b.data, b.clean, b.freedAt)
  }

  ghost function FieldsOf(q: seq<Buf>): (s: seq<Buffer>)
    reads q
    ensures |s| == |q| && forall i :: 0 <= i < |s| ==> s[i] == Fields(q[i])
  {
    if q == [] then [] else [Fields(q[0])] + FieldsOf(q[1..])
  }

  function Pushed(q: seq<Buf>, b: Buf): seq<Buf>
    requires q != []
  {
    [q[0], b] + q[1..]
  }

  /** The four pointer writes that put b right behind the sentinel. */
  method PushFront(head: Buf, b: Buf, ghost q: seq<Buf>)
    requires Ring(q) && q[0] == head && b !in q
    modifies q, b
    ensures Ring(Pushed(q, b))
    ensures forall x :: x in q || x == b ==> Fields(x) == old(Fields(x))
    ensures FieldsOf(q[1..]) == old(FieldsOf(q[1..]))
  {
    hide FieldsOf;
    DistinctPushed(q, b);
    b.next := head.next;
    b.prev := head;
    head.next.prev := b;
    head.next := b;
    ghost var w := Pushed(q, b);
    forall i | 0 <= i < |w|
      ensures w[i].next == w[Succ(i, |w|)] && w[Succ(i, |w|)].prev == w[i]
    {
      if i >= 2 {
        assert w[i] == q[i - 1];
        assert old(q[i - 1].next) == q[Succ(i - 1, |q|)];
        assert old(q[Succ(i - 1, |q|)].prev) == q[i - 1];
      } else {
        assert old(q[0].next) == q[Succ(0, |q|)];
      }
    }
    forall j | 0 <= j < |q| - 1
      ensures FieldsOf(q[1..])[j] == old(FieldsOf(q[1..]))[j]
    {
      assert q[1..][j] == q[j + 1];
    }
  }

  class BCache {
    const head: Buf
    // bcache.buf in list order, from head.next on.
    ghost var list: seq<Buf>
    // The disk behind virtio_disk_rw.
    var disk: map<Key, Block>
    ghost var clock: int

    ghost predicate Linked()
      reads this, head, list
    {
      Ring([head] + list)
    }

    ghost function View(): Cache
      reads this, list
    {
      Cache(FieldsOf(list), disk, clock)
    }

    /** binit over n buffers. */
    constructor (n: nat, disk: map<Key, Block>)
      requires n > 0
      ensures Linked() && View() == Init(n, disk)
      ensures fresh(head) && forall j :: 0 <= j < |list| ==> fresh(list[j])
    {
      head := new Buf(0);
      this.disk := disk;
      clock := 1;
      list := [];
      new;
      head.prev := head;
      head.next := head;
      assert [head] + list == [head];
      Fill(n);
    }

    /** The loop of binit. */
    method Fill(n: nat)
      requires Linked() && list == []
      modifies this`list, head
      ensures Linked() && |list| == n && forall j :: 0 <= j < |list| ==> fresh(list[j])
      ensures View() == Cache(Init(n, disk).bufs, disk, clock)
    {
      hide FieldsOf, Fields, Ring;
      var i := 0;
      while i < n
        invariant 0 <= i <= n && |list| == i && Linked()
        invariant forall j :: 0 <= j < |list| ==> fresh(list[j])
        invariant forall j :: 0 <= j < i ==> FieldsOf(list)[j] == Buffer((0, 0), false, 0, Empty(), true, i - n - j)
      {
        AddBuffer(i - n + 1);
        i := i + 1;
      }
    }

    /** The loop body of binit: one more buffer behind the sentinel. */
    method AddBuffer(ghost at: int)
      requires Linked()
      modifies this`list, head, list
      ensures Linked() && |list| == old(|list|) + 1 && fresh(list[0]) && list[1..] == old(list)
      ensures FieldsOf(list) == [Buffer((0, 0), false, 0, Empty(), true, at)] + old(FieldsOf(list))
    {
      hide FieldsOf, Ring, Fields, Pushed;
      var b := new Buf(at);
      FreshFields(b, at);
      ghost var q, l := [head] + list, list;
      assert q[1..] == l;
      PushFront(head, b, q);
      PushedList(head, b, l);
      FieldsCons(b, l);
      list := [b] + l;
    }

    lemma FreshFields(b: Buf, at: int)
      requires !b.valid && b.dev == 0 && b.blockno == 0 && b.refcnt == 0 && b.data == Empty() && b.clean
      requires b.freedAt == at
      ensures Fields(b) == Buffer((0, 0), false, 0, Empty(), true, at)
    {
    }

    /** The first loop of bget: forward to the first buffer with the key, or back at the sentinel. */
    method Lookup(dev: nat, blockno: nat) returns (b: Buf, ghost i: nat)
      requires Linked()
      ensures i == Find(View().bufs, (dev, blockno))
      ensures if i < |list| then b == list[i] && b != head else b == head
    {
      ghost var q := [head] + list;
      assert head.next == q[Succ(0, |q|)] by { assert q[0].next == q[Succ(0, |q|)]; }
      b := head.next;
      i := 0;
      while b != head
        invariant i <= |list| && b == q[Succ(i, |q|)]
        invariant forall j :: 0 <= j < i ==> Fields(list[j]).key != (dev, blockno)
        decreases |list| - i
      {
        assert i < |list| && b == list[i];
        if b.dev == dev && b.blockno == blockno {
          FindIs(View().bufs, (dev, blockno), i);
          return;
        }
        assert q[i + 1].next == q[Succ(i + 1, |q|)];
        b := b.next;
        i := i + 1;
      }
      FindIs(View().bufs, (dev, blockno), i);
    }

    /** The second loop of bget: backward to the last free buffer, or back at the sentinel. */
    method FindFree() returns (b: Buf, ghost i: int)
      requires Linked()
      ensures i == Victim(View().bufs)
      ensures if i >= 0 then b == list[i] && b != head else b == head
    {
      ghost var q := [head] + list;
      assert q[Succ(|list|, |q|)] == head && head.prev == q[|list|];
      b := head.prev;
      i := |list| - 1;
      while b != head
        invariant -1 <= i < |list| && b == q[i + 1]
        invariant forall j :: i < j < |list| ==> Fields(list[j]).ref > 0
        decreases i
      {
        assert i >= 0 && b == list[i];
        if b.refcnt == 0 {
          VictimIs(View().bufs, i);
          return;
        }
        assert q[Succ(i, |q|)].prev == q[i];
        b := b.prev;
        i := i - 1;
      }
      VictimIs(View().bufs, -1);
    }

    /** bget on a hit: one more user. */
    method Share(b: Buf, ghost i: nat)
      requires Linked() && i < |list| && b == list[i]
      modifies b
      ensures Linked() && View() == Cache(old(View()).bufs[i := Hit(old(View()).bufs[i])], disk, clock)
    {
      InList(i);
      b.refcnt := b.refcnt + 1;
    }

    /** bget on a miss: the buffer is taken for another block. */
    method Recycle(b: Buf, ghost i: nat, dev: nat, blockno: nat)
      requires Linked() && i < |list| && b == list[i]
      modifies b
      ensures Linked() && View() == Cache(old(View()).bufs[i := Miss(old(View()).bufs[i], (dev, blockno))], disk, clock)
    {
      InList(i);
      b.dev := dev;
      b.blockno := blockno;
      b.valid := false;
      b.refcnt := 1;
    }

    lemma InList(i: nat)
      requires Linked() && i < |list|
      ensures list[i] != head && forall j :: 0 <= j < |list| && j != i ==> list[j] != list[i]
    {
      var q := [head] + list;
      assert q[0] == head && list[i] == q[i + 1];
      assert forall j :: 0 <= j < |list| ==> list[j] == q[j + 1];
    }

    /** bget: null stands for the panic when every buffer is in use. */
    method Bget(dev: nat, blockno: nat) returns (b: Buf?)
      requires Linked()
      modifies list
      ensures Linked()
      ensures b == null <==> !CanGet(old(View()), (dev, blockno))
      ensures b == null ==> View() == old(View())
      ensures b != null ==> View() == Get(old(View()), (dev, blockno)) && b == list[Slot(old(View()), (dev, blockno))]
    {
      hide Ring, FieldsOf, Fields, Find, Victim;
      ghost var i, v;
      var f;
      f, i := Lookup(dev, blockno);
      if f != head {
        Share(f, i);
        return f;
      }
      f, v := FindFree();
      if f != head {
        Recycle(f, v, dev, blockno);
        return f;
      }
      return null;
    }

    /** bread. */
    method Bread(dev: nat, blockno: nat) returns (b: Buf?)
      requires Linked()
      modifies list
      ensures Linked()
      ensures b == null <==> !CanGet(old(View()), (dev, blockno))
      ensures b == null ==> View() == old(View())
      ensures b != null ==> View() == Read(old(View()), (dev, blockno)) && b == list[Slot(old(View()), (dev, blockno))]
    {
      hide Ring, FieldsOf, Find, Victim;
      ghost var c := View();
      b := Bget(dev, blockno);
      if b != null && !b.valid {
        Load(b, Slot(c, (dev, blockno)));
      }
    }

    /** virtio_disk_rw(b, 0) and the valid flag. */
    method Load(b: Buf, ghost i: nat)
      requires Linked() && i < |list| && b == list[i]
      modifies b
      ensures Linked() && View() == Cache(old(View()).bufs[i := Loaded(old(View()), i)], disk, clock)
    {
      InList(i);
      b.data := At(disk, (b.dev, b.blockno));
      b.clean := true;
      b.valid := true;
    }

    /** A user of the buffer stores into its data. */
    method Store(b: Buf, ghost i: nat, d: Block)
      requires Linked() && i < |list| && b == list[i]
      modifies b
      ensures Linked() && View() == Change(old(View()), i, d)
    {
      InList(i);
      b.data := d;
      b.clean := false;
    }

    /** bwrite: virtio_disk_rw(b, 1). */
    method Bwrite(b: Buf, ghost i: nat)
      requires Linked() && i < |list| && b == list[i]
      modifies this`disk, b
      ensures Linked() && View() == Write(old(View()), i)
    {
      InList(i);
      disk := disk[(b.dev, b.blockno) := b.data];
      b.clean := true;
    }

    /** brelse. */
    method Brelse(b: Buf, ghost i: nat)
      requires Linked() && i < |list| && b == list[i] && b.refcnt > 0
      modifies this`list, this`clock, head, list
      ensures Linked() && View() == Release(old(View()), i)
      ensures list == if old(b.refcnt) == 1 then [b] + Without(old(list), i) else old(list)
    {
      hide Ring, FieldsOf;
      Leave(b, i);
      if b.refcnt == 0 {
        clock := clock + 1;
        MoveToFront(b, i);
      }
    }

    /** One user less. */
    method Leave(b: Buf, ghost i: nat)
      requires Linked() && i < |list| && b == list[i] && b.refcnt > 0
      modifies b
      ensures Linked() && b.refcnt == old(b.refcnt) - 1
      ensures View() == Cache(old(View()).bufs[i := Left(old(View()), i)], disk, clock)
    {
      hide FieldsOf;
      InList(i);
      b.refcnt := b.refcnt - 1;
      if b.refcnt == 0 {
        b.freedAt := clock;
      }
    }

    /** brelse's move of a buffer to the head of the list. */
    method MoveToFront(b: Buf, ghost i: nat)
      requires Linked() && i < |list| && b == list[i]
      modifies this`list, head, list
      ensures Linked()
      ensures View() == Cache([old(View()).bufs[i]] + old(View()).bufs[..i] + old(View()).bufs[i + 1..], disk, clock)
      ensures list == [b] + Without(old(list), i)
    {
      hide FieldsOf, Fields, Ring, Pushed, Without;
      RelinkList(b, i);
      FieldsMoved(list, i);
      MovedIn(list, i);
      list := [b] + Without(list, i);
    }

    /** The pointer writes of that move. */
    method RelinkList(b: Buf, ghost i: nat)
      requires Linked() && i < |list| && b == list[i]
      modifies head, list
      ensures Ring([head] + ([b] + Without(list, i))) && FieldsOf(list) == old(FieldsOf(list))
    {
      hide FieldsOf, Fields, Ring, Pushed, Without;
      ghost var q := [head] + list;
      assert q[1..] == list;
      Relink(head, b, q, i + 1);
      MovedRing(head, list, i);
    }

    /** One call of a user; b is the buffer it is about. */
    method Call(op: Op) returns (out: seq<Block>, b: Buf)
      requires Linked() && Inv(View()) && Allowed(View(), op)
      modifies this`list, this`clock, this`disk, head, list
      ensures Linked() && View() == Do(old(View()), op) && Inv(View()) && out == Result(old(View()), op)
      ensures list == Order(old(View()), op, old(list))
      ensures op.ReadOp? ==> b == list[Slot(old(View()), op.k)]
    {
      hide Ring, FieldsOf, Find, Victim, Inv, Read, Release, Change, Write;
      ghost var c := View();
      DoInv(c, op);
      out := [];
      if op.ReadOp? {
        b := Bread(op.k.0, op.k.1);
        out := [b.data];
      } else {
        ghost var i;
        b, i := Lookup(op.k.0, op.k.1);
        match op {
        case ChangeOp(_, d) => Store(b, i, d);
        case WriteOp(_) => Bwrite(b, i);
        case ReleaseOp(_) => Brelse(b, i);
        }
      }
    }

    /** A call, and the buffers: one in use keeps its block, and its count goes up and down with the reads and
        releases of that block. */
    method Serve(op: Op) returns (out: seq<Block>, b: Buf)
      requires Linked() && Inv(View()) && Allowed(View(), op)
      modifies this`list, this`clock, this`disk, head, list
      ensures Linked() && View() == Do(old(View()), op) && Inv(View()) && out == Result(old(View()), op)
      ensures forall x :: x in list <==> x in old(list)
      ensures op.ReadOp? ==> b in list && Fields(b).key == op.k && Fields(b).ref == Ref(old(View()), op.k) + 1
      ensures forall x :: x in list && old(Fields(x)).ref > 0 ==>
                && Fields(x).key == old(Fields(x)).key
                && Fields(x).ref == old(Fields(x)).ref + Delta(op, Fields(x).key)
    {
      hide Ring, FieldsOf, Fields, Find, Victim, Inv, Do, Result, Allowed, To, Order, Delta, Linked;
      ghost var c, l := View(), list;
      assert forall j :: 0 <= j < |l| ==> Fields(l[j]) == c.bufs[j];
      out, b := Call(op);
      Placed(c, op, l);
      UsedAll(c, op);
      if op.ReadOp? { ReadCounted(c, op); }
    }

    /** The buffers of the old list l, after a call. */
    lemma Placed(c: Cache, op: Op, l: seq<Buf>)
      requires Allowed(c, op) && |l| == |c.bufs| && View() == Do(c, op) && list == Order(c, op, l)
      ensures |l| == |Do(c, op).bufs| && (forall x :: x in list <==> x in l)
      ensures forall j :: 0 <= j < |l| ==> To(c, op, j) < |l| && Fields(l[j]) == Do(c, op).bufs[To(c, op, j)]
    {
      hide FieldsOf, Fields, Find, Victim, Do, Allowed, To, Order;
      OrderAt(c, op, l);
      SizeKept(c, op);
    }

    /** A buffer handed out by a call, with users ever since, still has its block and counts them. */
    ghost predicate Handles(c0: Cache, ops: seq<Op>, bs: seq<Buf>)
      reads this`list, list, bs
    {
      |bs| == |ops| && forall i :: 0 <= i < |bs| && Held(c0, ops, i) ==> Handle(c0, ops, i, bs[i])
    }

    ghost predicate Handle(c0: Cache, ops: seq<Op>, i: nat, b: Buf)
      requires i < |ops|
      reads this`list, b
    {
      b in list && Fields(b).key == ops[i].k && Fields(b).ref == Count(c0, ops, ops[i].k)
    }

    /** One more call of many. */
    method ServeNext(ghost c0: Cache, ghost done: seq<Op>, bs: seq<Buf>, op: Op) returns (out: seq<Block>, b: Buf)
      requires Linked() && Inv(View()) && Allowed(View(), op) && CountsFrom(c0, View(), done) && Handles(c0, done, bs)
      modifies this`list, this`clock, this`disk, head, list
      ensures Linked() && View() == Do(old(View()), op) && Inv(View()) && out == Result(old(View()), op)
      ensures forall k :: 0 <= k < |list| ==> list[k] in old(list)
      ensures CountsFrom(c0, View(), done + [op]) && Handles(c0, done + [op], bs + [b])
    {
      hide Ring, FieldsOf, Fields, Inv, Do, Result, Allowed, Linked, Held, Count, Delta, CountsFrom, Ref;
      ghost var c := View();
      CountsFromStep(c0, c, done, op);
      assert forall k :: Ref(c, k) == Count(c0, done, k) by { CountsFromRefs(c0, c, done); }
      forall i | 0 <= i < |done| && Held(c0, done + [op], i)
        ensures Handle(c0, done, i, bs[i]) && Fields(bs[i]).ref > 0
        ensures Count(c0, done + [op], done[i].k) == Count(c0, done, done[i].k) + Delta(op, done[i].k)
      {
        HeldBefore(c0, done, op, i);
      }
      out, b := Serve(op);
      forall i | 0 <= i <= |done| && Held(c0, done + [op], i)
        ensures Handle(c0, done + [op], i, (bs + [b])[i])
      {
        if i == |done| { NewCount(c0, done, op); }
      }
    }

    /** Any legal calls, one after another, on the buffers in memory: they hand out what a flat disk would,
        and as long as a block has users the buffer they were handed stays with it and counts them. */
    method ServeAll(ops: seq<Op>, ghost m: map<Key, Block>) returns (outs: seq<Block>, bs: seq<Buf>)
      requires Linked() && Inv(View()) && Legal(View(), ops) && Agrees(View(), m)
      modifies this`list, this`clock, this`disk, head, list
      ensures Linked() && Inv(View()) && outs == FlatRun(m, ops)
      ensures Handles(old(View()), ops, bs)
    {
      hide Ring, FieldsOf, Fields, Inv, Do, Result, Allowed, Agrees, Linked, CountsFrom, Handles, Legal, Run, GoesOn;
      ghost var c := View();
      RunRefinesFlat(c, m, ops);
      outs, bs := [], [];
      var n := 0;
      NoneDone(c);
      assert Handles(c, [], []) by { NoHandles(c); }
      assert ops[0..] == ops && ops[..0] == [];
      GoesOnFirst(c, ops);
      while n < |ops|
        invariant n <= |ops| && Linked() && Inv(View()) && GoesOn(Run(c, ops).0, outs, View(), ops[n..])
        invariant forall k :: 0 <= k < |list| ==> list[k] in old(list)
        invariant CountsFrom(c, View(), ops[..n]) && Handles(c, ops[..n], bs)
      {
        GoesOnNext(Run(c, ops).0, outs, View(), ops[n..]);
        assert ops[n..][0] == ops[n] && ops[n..][1..] == ops[n + 1..] && ops[..n + 1] == ops[..n] + [ops[n]];
        var out, b := ServeNext(c, ops[..n], bs, ops[n]);
        outs, bs := outs + out, bs + [b];
        n := n + 1;
      }
      assert ops[n..] == [] && ops[..n] == ops;
      GoesOnLast(Run(c, ops).0, outs, View());
    }

    lemma NoHandles(c: Cache)
      ensures Handles(c, [], [])
    {
    }
  }

  lemma FieldsCons(b: Buf, l: seq<Buf>)
    ensures FieldsOf([b] + l) == [Fields(b)] + FieldsOf(l)
  {
    assert ([b] + l)[1..] == l;
  }

  lemma PushedList(head: Buf, b: Buf, l: seq<Buf>)
    ensures [head] + ([b] + l) == Pushed([head] + l, b)
  {
  }

  lemma MovedRing(head: Buf, l: seq<Buf>, i: nat)
    requires i < |l|
    ensures Without([head] + l, i + 1) != []
    ensures Pushed(Without([head] + l, i + 1), l[i]) == [head] + ([l[i]] + Without(l, i))
  {
    assert Without([head] + l, i + 1) == [head] + Without(l, i);
  }

  lemma MovedIn(l: seq<Buf>, i: nat)
    requires i < |l|
    ensures forall k :: 0 <= k < |l| ==> ([l[i]] + Without(l, i))[k] in l
    ensures |[l[i]] + Without(l, i)| == |l|
  {
  }

  lemma SeqMoved<T>(s: seq<T>, i: nat, j: nat)
    requires i < |s| && j < |s|
    ensures Before(i, j) < |s| && ([s[i]] + s[..i] + s[i + 1..])[j] == s[Before(i, j)]
  {
  }

  lemma FieldMoved(q: seq<Buf>, i: nat, j: nat)
    requires i < |q| && j < |q|
    ensures var m, s := [q[i]] + Without(q, i), FieldsOf(q);
            |m| == |q| && FieldsOf(m)[j] == ([s[i]] + s[..i] + s[i + 1..])[j]
  {
    hide FieldsOf, Fields;
    var m := [q[i]] + Without(q, i);
    assert m == [q[i]] + q[..i] + q[i + 1..];
    SeqMoved(q, i, j);
    SeqMoved(FieldsOf(q), i, j);
  }

  lemma FieldsMoved(q: seq<Buf>, i: nat)
    requires i < |q|
    ensures FieldsOf([q[i]] + Without(q, i)) == [FieldsOf(q)[i]] + FieldsOf(q)[..i] + FieldsOf(q)[i + 1..]
  {
    hide FieldsOf, Fields;
    forall j | 0 <= j < |q|
      ensures FieldsOf([q[i]] + Without(q, i))[j] == ([FieldsOf(q)[i]] + FieldsOf(q)[..i] + FieldsOf(q)[i + 1..])[j]
    {
      FieldMoved(q, i, j);
    }
  }

  /** All eight pointer writes of brelse. */
  method Relink(head: Buf, b: Buf, ghost q: seq<Buf>, ghost k: nat)
    requires Ring(q) && q[0] == head && 0 < k < |q| && q[k] == b
    modifies q
    ensures Ring(Pushed(Without(q, k), b))
    ensures FieldsOf(q[1..]) == old(FieldsOf(q[1..]))
  {
    hide FieldsOf, Fields, Ring, Pushed;
    RingDistinct(q);
    Unlink(b, q, k);
    InRing(q, k);
    PushFront(head, b, Without(q, k));
    ghost var l := q[1..];
    forall j | 0 <= j < |l|
      ensures FieldsOf(l)[j] == old(FieldsOf(l))[j]
    {
      assert l[j] == q[j + 1] && (l[j] in Without(q, k) || l[j] == b) by { InRest(q, k, j + 1); }
    }
  }

  lemma RingDistinct(q: seq<Buf>)
    requires Ring(q)
    ensures Distinct(q)
  {
  }

  lemma InRest(q: seq<Buf>, k: nat, j: nat)
    requires k < |q| && j < |q|
    ensures q[j] in Without(q, k) || j == k
  {
    if j != k { assert q[j] == Without(q, k)[if j < k then j else j - 1]; }
  }

  /** In a list without repetition, an element left out is gone. */
  lemma InRing(q: seq<Buf>, k: nat)
    requires Distinct(q) && k < |q|
    ensures q[k] !in Without(q, k)
  {
  }
}
