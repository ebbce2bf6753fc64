/** The keyboard ring: filled by the interrupt handler, drained by console_read, each inside the
    lock. */
module Consoles {
  import opened Words

  const RING: nat := 128

  const CR: int := 13
  const LF: Byte := 10

  /** What the handler stores for c: CR becomes LF, and the store keeps one byte. */
  function Stored(c: int): Byte
    requires c >= 0
  {
    if c == CR then LF else c % 256
  }

  /** The unread bytes after c arrives; c < 0 is no key, and a full ring drops the key. */
  function Arrive(q: seq<Byte>, c: int): seq<Byte> {
    if c < 0 || |q| >= RING then q else q + [Stored(c)]
  }

  function ArriveAll(q: seq<Byte>, cs: seq<int>): seq<Byte>
    decreases |cs|
  {
    if cs == [] then q else ArriveAll(Arrive(q, cs[0]), cs[1..])
  }

  /** What has been read, what is unread, and whether the loop of console_read has ended. */
  datatype Drained = Drained(out: seq<Byte>, q: seq<Byte>, done: bool)

  /** The loop of console_read after out, with keys[i] arriving before its i-th critical section. */
  function Drain(q: seq<Byte>, out: seq<Byte>, len: nat, keys: seq<seq<int>>): Drained
    decreases |keys|
  {
    if |out| >= len then Drained(out, q, true)
    else if keys == [] then Drained(out, q, false)
    else
      var q' := ArriveAll(q, keys[0]);
      if q' == [] then Drain(q', out, len, keys[1..])
      else if q'[0] == LF then Drained(out + [LF], q'[1..], true)
      else Drain(q'[1..], out + [q'[0]], len, keys[1..])
  }

  function Clamp(len: int): nat {
    if len <= 0 then 0 else if len > RING then RING else len
  }

  /** The bytes of the history from d on are in the ring. */
  ghost predicate Holds(buf: seq<Byte>, accepted: seq<Byte>, d: nat) {
    |buf| == RING && forall j :: d <= j < |accepted| ==> buf[j % RING] == accepted[j]
  }

  lemma Stores(buf: seq<Byte>, accepted: seq<Byte>, d: nat, b: Byte)
    requires Holds(buf, accepted, d) && d <= |accepted| < d + RING
    ensures Holds(buf[|accepted| % RING := b], accepted + [b], d)
  {
    forall j | d <= j < |accepted|
      ensures j % RING != |accepted| % RING
    {
      Apart(j, |accepted|, RING);
    }
  }

  class Console {
    var buf: array<Byte>
    var r: nat
    var w: nat
    var e: nat
    // every byte that was stored, and every byte that was read
    ghost var accepted: seq<Byte>
    ghost var consumed: seq<Byte>

    ghost predicate Valid()
      reads this, buf
    {
      && buf.Length == RING && w == e
      && consumed <= accepted && |accepted| <= |consumed| + RING
      && r == |consumed| % UINT && e == |accepted| % UINT
      && Holds(buf[..], accepted, |consumed|)
    }

    ghost function Pending(): seq<Byte>
      requires |consumed| <= |accepted|
      reads this
    {
      accepted[|consumed|..]
    }

    constructor ()
      ensures Valid() && fresh(buf) && accepted == [] && consumed == []
    {
      buf := new Byte[RING](_ => 0);
      r, w, e := 0, 0, 0;
      accepted, consumed := [], [];
    }

    /** console_intr. */
    method Intr(key: int)
      requires Valid()
      modifies this, buf
      ensures Valid() && buf == old(buf) && consumed == old(consumed)
      ensures old(accepted) <= accepted && Pending() == Arrive(old(Pending()), key)
      ensures key < 0 || |old(Pending())| == 128 ==> Pending() == old(Pending())
      ensures key == 13 && |old(Pending())| < 128 ==> Pending() == old(Pending()) + [10]
      ensures key >= 0 && key != 13 && |old(Pending())| < 128 ==> Pending() == old(Pending()) + [key % 256]
    {
      if key < 0 {
        return;
      }
      var c := if key == CR then LF else key;
      Put(c % 256);
    }

    /** The critical section of console_intr. */
    method Put(b: Byte)
      requires Valid()
      modifies this, buf
      ensures Valid() && buf == old(buf) && consumed == old(consumed) && old(accepted) <= accepted
      ensures Pending() == if |old(Pending())| < RING then old(Pending()) + [b] else old(Pending())
    {
      Counted(|accepted|, |consumed|, RING);
      Cell(|accepted|, RING);
      if Minus(e, r) < RING {
        Counts(|accepted|, 1);
        Stores(buf[..], accepted, |consumed|, b);
        ghost var was := accepted;
        buf[e % RING] := b;
        e := Plus(e, 1);
        w := e;
        accepted := accepted + [b];
        assert accepted[|consumed|..] == was[|consumed|..] + [b];
      }
    }

    /** One critical section of console_read. */
    method Take() returns (c: Option<Byte>)
      requires Valid()
      modifies this
      ensures Valid() && buf == old(buf) && accepted == old(accepted)
      ensures old(Pending()) == [] ==> c == None && consumed == old(consumed)
      ensures old(Pending()) != [] ==> c == Some(old(Pending())[0]) && consumed == old(consumed) + [c.value]
                                       && Pending() == old(Pending())[1..]
    {
      Counted(|accepted|, |consumed|, RING);
      SameCounter(|accepted|, |consumed|);
      if r == w {
        return None;
      }
      Cell(|consumed|, RING);
      Counts(|consumed|, 1);
      var b := buf[r % RING];
      r := Plus(r, 1);
      ghost var d := |consumed|;
      assert accepted[..d + 1] == accepted[..d] + [accepted[d]];
      consumed := consumed + [b];
      return Some(b);
    }

    method IntrAll(keys: seq<int>)
      requires Valid()
      modifies this, buf
      ensures Valid() && buf == old(buf) && consumed == old(consumed)
      ensures old(accepted) <= accepted && Pending() == ArriveAll(old(Pending()), keys)
    {
      var i := 0;
      while i < |keys|
        invariant i <= |keys|
        invariant Valid() && buf == old(buf) && consumed == old(consumed) && old(accepted) <= accepted
        invariant ArriveAll(Pending(), keys[i..]) == ArriveAll(old(Pending()), keys)
      {
        assert keys[i..][1..] == keys[i + 1..];
        Intr(keys[i]);
        i := i + 1;
      }
    }

    /** console_read: keys[i] arrive before its i-th critical section, and copied says whether copyout
        succeeds. done is false for a call that is still in its loop when the keys end. */
    method Read(len: int, keys: seq<seq<int>>, copied: bool) returns (n: int, line: seq<Byte>, done: bool)
      requires Valid()
      modifies this, buf
      ensures Valid() && buf == old(buf) && old(accepted) <= accepted
      ensures var d := Drain(old(Pending()), [], Clamp(len), keys);
              line == d.out && Pending() == d.q && done == d.done
      ensures consumed == old(consumed) + line
      ensures done ==> n == if len <= 0 then 0 else if copied then |line| else -1
      ensures Stops(len, line, done)
    {
      hide Drain, ArriveAll, Stops;
      DrainEnds(Pending(), [], Clamp(len), keys);
      if len <= 0 {
        LineShape(Pending(), len, keys, Drain(Pending(), [], Clamp(len), keys));
        return 0, [], true;
      }
      var size := if len > RING then RING else len;
      var local := new Byte[RING];
      n, line, done := 0, [], false;
      var i := 0;
      ghost var all := Drain(Pending(), [], size, keys);
      while n < size && i < |keys|
        invariant 0 <= n <= size && i <= |keys| && fresh(local)
        invariant Valid() && buf == old(buf) && old(accepted) <= accepted
        invariant consumed == old(consumed) + local[..n]
        invariant !done && Drain(Pending(), local[..n], size, keys[i..]) == all
        decreases |keys| - i
      {
        assert keys[i..][0] == keys[i] && keys[i..][1..] == keys[i + 1..];
        DrainTurn(Pending(), local[..n], size, keys[i..]);
        IntrAll(keys[i]);
        i := i + 1;
        var c := Take();
        if c.Some? {
          local[n] := c.value;
          n := n + 1;
          assert local[..n] == local[..n - 1] + [c.value];
          if c.value == LF {
            done := true;
            break;
          }
        }
      }
      DrainEnds(Pending(), local[..n], size, keys[i..]);
      done := done || n == size;
      line := local[..n];
      LineShape(old(Pending()), len, keys, all);
      if done && !copied {
        n := -1;
      }
    }
  }

  lemma DrainEnds(q: seq<Byte>, out: seq<Byte>, len: nat, keys: seq<seq<int>>)
    ensures |out| >= len ==> Drain(q, out, len, keys) == Drained(out, q, true)
    ensures |out| < len && keys == [] ==> Drain(q, out, len, keys) == Drained(out, q, false)
  {
  }

  lemma DrainTurn(q: seq<Byte>, out: seq<Byte>, len: nat, keys: seq<seq<int>>)
    requires |out| < len && keys != []
    ensures var q' := ArriveAll(q, keys[0]);
            Drain(q, out, len, keys) ==
            if q' == [] then Drain(q', out, len, keys[1..])
            else if q'[0] == LF then Drained(out + [LF], q'[1..], true)
            else Drain(q'[1..], out + [q'[0]], len, keys[1..])
  {
  }

  lemma SameCounter(p: nat, d: nat)
    requires d <= p <= d + RING
    ensures (p % UINT == d % UINT) <==> p == d
  {
    Counted(p, d, RING);
  }

  // ------------------------------------------------------------ whole runs

  /** An interrupt, or a call of console_read with the keys that arrive meanwhile. */
  datatype Event = Key(c: int) | ReadCall(len: int, keys: seq<seq<int>>, copied: bool)

  function Concat(lines: seq<seq<Byte>>): seq<Byte> {
    if lines == [] then [] else Concat(lines[..|lines| - 1]) + lines[|lines| - 1]
  }

  /** Any interrupts and reads from consoleinit on: what the reads got, one after another, is the start of
      what was stored, and at most a ring of it is still to be read. */
  method Session(events: seq<Event>) returns (cons: Console, lines: seq<seq<Byte>>)
    ensures fresh(cons) && cons.Valid()
    ensures Concat(lines) == cons.consumed <= cons.accepted && |cons.accepted| <= |cons.consumed| + RING
  {
    cons := new Console();
    lines := [];
    var i := 0;
    while i < |events|
      invariant i <= |events| && fresh(cons) && fresh(cons.buf) && cons.Valid() && Concat(lines) == cons.consumed
    {
      match events[i] {
      case Key(c) => cons.Intr(c);
      case ReadCall(len, keys, copied) =>
        var n, line, done := cons.Read(len, keys, copied);
        assert (lines + [line])[..|lines|] == lines;
        lines := lines + [line];
      }
      i := i + 1;
    }
  }

  // -------------------------------------------- what the loop returns

  /** A call that ends stops at its first newline or at its length, and nowhere else. */
  lemma {:induction false} StopsAtLine(q: seq<Byte>, out: seq<Byte>, len: nat, keys: seq<seq<int>>)
    requires |out| <= len && LF !in out
    ensures var d := Drain(q, out, len, keys);
            && out <= d.out && |d.out| <= len
            && (forall i :: 0 <= i < |d.out| - 1 ==> d.out[i] != LF)
            && (d.done <==> |d.out| == len || (d.out != [] && d.out[|d.out| - 1] == LF))
    decreases |keys|
  {
    hide Drain, ArriveAll, Arrive;
    DrainEnds(q, out, len, keys);
    if |out| < len && keys != [] {
      DrainTurn(q, out, len, keys);
      var q' := ArriveAll(q, keys[0]);
      if q' == [] {
        StopsAtLine(q', out, len, keys[1..]);
      } else if q'[0] != LF {
        StopsAtLine(q'[1..], out + [q'[0]], len, keys[1..]);
      }
    }
  }

  /** At most len bytes and at most 128, with a newline at the end only; that many unless it ends so. */
  predicate Stops(len: int, line: seq<Byte>, done: bool) {
    var size := if len <= 0 then 0 else if len <= 128 then len else 128;
    && |line| <= size && (forall i :: 0 <= i < |line| - 1 ==> line[i] != 10)
    && (done <==> |line| == size || (line != [] && line[|line| - 1] == 10))
  }

  lemma LineShape(q: seq<Byte>, len: int, keys: seq<seq<int>>, d: Drained)
    requires d == Drain(q, [], Clamp(len), keys)
    ensures Stops(len, d.out, d.done)
  {
    hide Drain;
    StopsAtLine(q, [], Clamp(len), keys);
  }

  /** The keys of cs that a ring holding n unread bytes keeps: those that are keys, until it is full. */
  function Kept(n: nat, cs: seq<int>): seq<Byte>
    decreases |cs|
  {
    if cs == [] then []
    else if cs[0] < 0 || n >= RING then Kept(n, cs[1..])
    else [Stored(cs[0])] + Kept(n + 1, cs[1..])
  }

  lemma {:induction false} ArrivesKept(q: seq<Byte>, cs: seq<int>)
    ensures ArriveAll(q, cs) == q + Kept(|q|, cs)
    decreases |cs|
  {
    if cs != [] {
      ArrivesKept(Arrive(q, cs[0]), cs[1..]);
    }
  }

  /** With room for all of them, every key is kept, in order, with CR as LF. */
  lemma {:induction false} NoneDropped(n: nat, cs: seq<int>)
    requires n + |cs| <= RING && forall i :: 0 <= i < |cs| ==> cs[i] >= 0
    ensures |Kept(n, cs)| == |cs| && forall i :: 0 <= i < |cs| ==> Kept(n, cs)[i] == Stored(cs[i])
    decreases |cs|
  {
    if cs != [] {
      NoneDropped(n + 1, cs[1..]);
    }
  }

  // ------------------------------------------------------ a typed line

  /** All keys of all sections. */
  function Typed(keys: seq<seq<int>>): seq<int> {
    if keys == [] then [] else keys[0] + Typed(keys[1..])
  }

  function BytesFor(cs: seq<int>): (b: seq<Byte>)
    requires forall i :: 0 <= i < |cs| ==> cs[i] >= 0
    ensures |b| == |cs| && forall i :: 0 <= i < |cs| ==> b[i] == if cs[i] == 13 then 10 else cs[i] % 256
  {
    seq(|cs|, i requires 0 <= i < |cs| => Stored(cs[i]))
  }

  lemma KeptAll(q: seq<Byte>, cs: seq<int>)
    requires |q| + |cs| <= RING && forall i :: 0 <= i < |cs| ==> cs[i] >= 0
    ensures ArriveAll(q, cs) == q + BytesFor(cs)
  {
    ArrivesKept(q, cs);
    NoneDropped(|q|, cs);
    assert Kept(|q|, cs) == BytesFor(cs);
  }

  lemma BytesMore(a: seq<int>, b: seq<int>)
    requires forall i :: 0 <= i < |a| ==> a[i] >= 0
    requires forall i :: 0 <= i < |b| ==> b[i] >= 0
    ensures BytesFor(a + b) == BytesFor(a) + BytesFor(b)
  {
  }

  lemma TypedParts(keys: seq<seq<int>>)
    requires keys != [] && forall i :: 0 <= i < |Typed(keys)| ==> Typed(keys)[i] >= 0
    ensures forall i :: 0 <= i < |keys[0]| ==> keys[0][i] >= 0
    ensures forall i :: 0 <= i < |Typed(keys[1..])| ==> Typed(keys[1..])[i] >= 0
    ensures |Typed(keys)| == |keys[0]| + |Typed(keys[1..])|
    ensures BytesFor(Typed(keys)) == BytesFor(keys[0]) + BytesFor(Typed(keys[1..]))
  {
    var t, u := Typed(keys), keys[0];
    assert forall i :: 0 <= i < |u| ==> u[i] == t[i];
    assert forall i :: 0 <= i < |Typed(keys[1..])| ==> Typed(keys[1..])[i] == t[i + |u|];
    BytesMore(u, Typed(keys[1..]));
  }

  /** With room for all, what comes out is the start of what was unread and what was typed. */
  lemma {:induction false} OutIsTyped(q: seq<Byte>, out: seq<Byte>, len: nat, keys: seq<seq<int>>)
    requires |q| + |Typed(keys)| <= RING && forall i :: 0 <= i < |Typed(keys)| ==> Typed(keys)[i] >= 0
    ensures Drain(q, out, len, keys).out <= out + q + BytesFor(Typed(keys))
    decreases |keys|
  {
    hide Drain, ArriveAll, BytesFor;
    DrainEnds(q, out, len, keys);
    if |out| < len && keys != [] {
      DrainTurn(q, out, len, keys);
      TypedParts(keys);
      KeptAll(q, keys[0]);
      var q', rest := ArriveAll(q, keys[0]), BytesFor(Typed(keys[1..]));
      assert out + q + BytesFor(Typed(keys)) == out + q' + rest;
      if q' == [] {
        OutIsTyped(q', out, len, keys[1..]);
      } else {
        assert out + q' + rest == out + [q'[0]] + q'[1..] + rest;
        if q'[0] != LF {
          OutIsTyped(q'[1..], out + [q'[0]], len, keys[1..]);
        }
      }
    }
  }

  /** A call still in its loop has taken a byte in every section from the m-th on, or all that had come
      by then. */
  lemma {:induction false} TakesEach(q: seq<Byte>, out: seq<Byte>, len: nat, keys: seq<seq<int>>, m: nat)
    requires m <= |keys| && |q| + |Typed(keys)| <= RING && forall i :: 0 <= i < |Typed(keys)| ==> Typed(keys)[i] >= 0
    ensures var d := Drain(q, out, len, keys);
            !d.done ==> |d.out| >= |out| + (|keys| - m) || |d.out| >= |out| + |q| + |Typed(keys[..m])|
    decreases |keys|
  {
    hide Drain, ArriveAll, BytesFor;
    DrainEnds(q, out, len, keys);
    DrainsInOrder(q, out, len, keys);
    if |out| < len && keys != [] {
      DrainTurn(q, out, len, keys);
      TypedParts(keys);
      KeptAll(q, keys[0]);
      var q' := ArriveAll(q, keys[0]);
      var m' := if m == 0 then 0 else m - 1;
      assert m > 0 ==> keys[..m][0] == keys[0] && keys[..m][1..] == keys[1..][..m'];
      assert m' == 0 ==> keys[1..][..m'] == [];
      if q' == [] {
        TakesEach(q', out, len, keys[1..], m');
      } else if q'[0] != LF {
        TakesEach(q'[1..], out + [q'[0]], len, keys[1..], m');
      }
    }
  }

  /** Enter, typed behind fewer other keys than the call has room for, ends the line: the call returns what
      was unread, those keys, and a newline, once it has had a section for each of them. */
  lemma EnterEndsLine(q: seq<Byte>, len: nat, keys: seq<seq<int>>, pre: seq<int>, m: nat)
    requires |q| + |Typed(keys)| <= RING && forall i :: 0 <= i < |Typed(keys)| ==> Typed(keys)[i] >= 0
    requires pre + [13] <= Typed(keys) && 10 !in q && forall i :: 0 <= i < |pre| ==> pre[i] != 13 && pre[i] % 256 != 10
    requires |q| + |pre| < len && m <= |keys|
    requires |pre| < |Typed(keys[..m])| && m + |q| + |pre| < |keys|
    ensures var d := Drain(q, [], len, keys);
            d.done && d.out == q + seq(|pre|, i requires 0 <= i < |pre| => pre[i] % 256) + [10]
  {
    hide Drain;
    var d, t := Drain(q, [], len, keys), Typed(keys);
    var line: seq<Byte> := seq(|pre|, i requires 0 <= i < |pre| => pre[i] % 256);
    var all := q + BytesFor(t);
    var p := |q| + |pre|;
    OutIsTyped(q, [], len, keys);
    assert [] + q + BytesFor(t) == all;
    TakesEach(q, [], len, keys, m);
    StopsAtLine(q, [], len, keys);
    assert forall i :: 0 <= i < |pre| ==> t[i] == pre[i];
    assert all[p] == 10 by { assert t[|pre|] == 13; }
    assert forall i :: |q| <= i < p ==> all[i] == line[i - |q|] && all[i] != 10;
    assert forall i :: 0 <= i < |q| ==> all[i] == q[i];
    assert all[..p + 1] == q + line + [10];
  }

  /** Bytes come out in the order they were kept: those unread at the start come first, and none is lost. */
  lemma {:induction false} DrainsInOrder(q: seq<Byte>, out: seq<Byte>, len: nat, keys: seq<seq<int>>)
    ensures var d := Drain(q, out, len, keys); out + q <= d.out + d.q
    decreases |keys|
  {
    if |out| < len && keys != [] {
      ArrivesKept(q, keys[0]);
      var q' := ArriveAll(q, keys[0]);
      if q' != [] {
        assert out + q' == out + [q'[0]] + q'[1..];
        if q'[0] != LF {
          DrainsInOrder(q'[1..], out + [q'[0]], len, keys[1..]);
        }
      } else {
        DrainsInOrder(q', out, len, keys[1..]);
      }
    }
  }
}
