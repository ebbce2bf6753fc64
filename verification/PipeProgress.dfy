/** Which reads of a pipe can return: as long as the write end is open, exactly those of at most as many
    bytes as the ring holds. */
module PipeProgress {
  import opened Words
  import opened Pipes

  lemma {:induction false} RunCat(s: State, a: seq<Act>, b: seq<Act>)
    requires Inv(s)
    ensures Inv(Run(s, a)) && |s.data| == SIZE && |Run(s, a).data| == SIZE && Run(s, a + b) == Run(Run(s, a), b)
    decreases |a|
  {
    hide Step, RingOk, WriterOk, ReaderOk;
    if a == [] {
      assert a + b == b;
    } else {
      assert (a + b)[1..] == a[1..] + b;
      StepInv(s, a[0]);
      RunCat(Step(s, a[0]), a[1..], b);
    }
  }

  // -------------------------------------------------------------- the writer

  predicate Mapped(src: seq<Option<Byte>>) { forall j :: 0 <= j < |src| ==> src[j].Some? }

  /** The writer is past its check and its buffer is there. */
  predicate Sure(w: Writer) {
    match w
    case WLoop(_, src, _) => Mapped(src)
    case WCopy(_, src, _, _, _, _) => Mapped(src)
    case WIdle(ret, _, src) => ret == |src|
    case WCheck(_, _) => false
  }

  function WriterLeft(w: Writer): nat {
    match w
    case WIdle(_, _, _) => 0
    case WCheck(_, src) => |src| + 2
    case WLoop(_, src, written) => if written <= |src| then |src| - written + 1 else 0
    case WCopy(_, src, written, _, _, _) => if written <= |src| then |src| - written + 1 else 0
  }

  function WriterPhase(w: Writer): nat {
    match w
    case WCopy(_, _, _, _, chunk, k) => if k <= chunk then chunk - k else 0
    case _ => SIZE + 1
  }

  /** A step of a writer that is in a call brings it closer to the end. */
  lemma WriterTurn(s: State)
    requires Inv(s) && !s.writer.WIdle?
    ensures var t := WriterStep(s);
            && Inv(t) && t.reader == s.reader && t.writeopen == s.writeopen && t.delivered == s.delivered
            && (WriterLeft(t.writer) < WriterLeft(s.writer)
                || (WriterLeft(t.writer) == WriterLeft(s.writer) && WriterPhase(t.writer) < WriterPhase(s.writer)))
            && (Sure(s.writer) ==> Sure(t.writer) && t.writer.src == s.writer.src && t.writer.base == s.writer.base)
  {
    WriterInv(s);
    hide RingOk, ReaderOk, Minus, Plus;
  }

  /** Left alone, the writer ends its call. */
  lemma {:induction false} WriterEnds(s: State) returns (acts: seq<Act>)
    requires Inv(s)
    ensures forall a :: a in acts ==> a == Write
    ensures |s.data| == SIZE
    ensures var t := Run(s, acts);
            && Inv(t) && t.writer.WIdle?
            && t.reader == s.reader && t.writeopen == s.writeopen && t.delivered == s.delivered
            && (Sure(s.writer) ==>
                  t.writer.ret == |s.writer.src| && t.writer.src == s.writer.src && t.writer.base == s.writer.base)
    decreases WriterLeft(s.writer), WriterPhase(s.writer)
  {
    if s.writer.WIdle? {
      acts := [];
    } else {
      hide RingOk, WriterOk, ReaderOk, WriterStep;
      WriterTurn(s);
      var rest := WriterEnds(WriterStep(s));
      acts := [Write] + rest;
      OneStep(s, Write, rest);
    }
  }

  lemma OneStep(s: State, a: Act, rest: seq<Act>)
    requires Inv(s)
    ensures |s.data| == SIZE && |Step(s, a).data| == SIZE && Run(s, [a] + rest) == Run(Step(s, a), rest)
  {
    StepInv(s, a);
    assert ([a] + rest)[1..] == rest;
  }

  /** An idle writer can be made to publish n bytes, if there is room. */
  lemma WriterSends(s: State, n: nat) returns (acts: seq<Act>)
    requires Inv(s) && s.writer.WIdle? && |s.published| - |s.delivered| + n <= SIZE
    ensures CloseWrite !in acts && |s.data| == SIZE
    ensures var t := Run(s, acts);
            Inv(t) && t.reader == s.reader && t.writeopen == s.writeopen && t.delivered == s.delivered
            && |t.published| == |s.published| + n
  {
    hide RingOk, ReaderOk, Minus;
    var src: seq<Option<Byte>> := seq(n, _ => Some(0 as Byte));
    var s1 := Step(s, CallWrite(n, src));
    StepInv(s, CallWrite(n, src));
    CountedOf(s1);
    var s2 := Step(s1, Write);
    StepInv(s1, Write);
    var rest := WriterEnds(s2);
    OneStep(s1, Write, rest);
    OneStep(s, CallWrite(n, src), [Write] + rest);
    acts := [CallWrite(n, src)] + ([Write] + rest);
    assert WriterOk(Run(s2, rest));
  }

  /** An undisturbed write from memory that is there, of no more than there is room for, puts all its bytes at
      the end of the stream and returns their number. */
  lemma WriteTakes(s: State) returns (acts: seq<Act>)
    requires Inv(s) && s.writer.WCheck? && Mapped(s.writer.src)
    requires 0 <= s.writer.n <= SIZE - (|s.published| - |s.delivered|)
    ensures (forall a :: a in acts ==> a == Write) && |s.data| == SIZE
    ensures var t := Run(s, acts);
            && t.writer.WIdle? && t.writer.ret == s.writer.n && t.delivered == s.delivered
            && |t.published| == |s.published| + s.writer.n && t.published[..|s.published|] == s.published
            && forall j :: 0 <= j < s.writer.n ==> s.writer.src[j] == Some(t.published[|s.published| + j])
  {
    hide RingOk, ReaderOk, Minus, Run;
    CountedOf(s);
    WriterInv(s);
    var s1 := WriterStep(s);
    var ends := WriterEnds(s1);
    OneStep(s, Write, ends);
    acts := [Write] + ends;
    RunGrows(s, acts);
    assert WriterOk(Run(s1, ends));
  }

  lemma {:induction false} RunGrows(s: State, acts: seq<Act>)
    requires Inv(s)
    ensures |s.data| == SIZE && s.published <= Run(s, acts).published
    decreases |acts|
  {
    hide Step, RingOk, WriterOk, ReaderOk;
    if acts != [] {
      StepInv(s, acts[0]);
      RunGrows(Step(s, acts[0]), acts[1..]);
    }
  }

  // -------------------------------------------------------------- the reader

  predicate AllMapped(dst: seq<bool>) { forall j :: 0 <= j < |dst| ==> dst[j] }

  function ReaderLeft(r: Reader): nat {
    match r
    case RLoop(_, _, want, readn, _) => if readn <= want then want - readn + 1 else 0
    case RCopy(_, _, want, readn, _, _, _) => if readn <= want then want - readn + 1 else 0
    case _ => 0
  }

  function ReaderPhase(r: Reader): nat {
    match r
    case RCopy(_, _, _, readn, got, _, chunk) => if |got| <= readn + chunk then readn + chunk - |got| else 0
    case _ => SIZE + 1
  }

  lemma ReaderTurn(s: State)
    requires Inv(s) && (s.reader.RLoop? || s.reader.RCopy?) && AllMapped(s.reader.dst)
    ensures var t := ReaderStep(s);
            && Inv(t)
            && (ReaderLeft(t.reader) < ReaderLeft(s.reader)
                || (ReaderLeft(t.reader) == ReaderLeft(s.reader) && ReaderPhase(t.reader) < ReaderPhase(s.reader)))
            && (if t.reader.RIdle? then t.reader.ret == s.reader.want
                else
                  && (t.reader.RLoop? || t.reader.RCopy?)
                  && t.reader.dst == s.reader.dst && t.reader.want == s.reader.want)
            && t.reader.base == s.reader.base && t.published == s.published
  {
    ReaderInv(s);
    hide RingOk, WriterOk, Minus, Plus;
  }

  /** Once it copies, the reader ends its call with all the bytes it set out for. */
  lemma {:induction false} ReaderEnds(s: State) returns (acts: seq<Act>)
    requires Inv(s) && (s.reader.RLoop? || s.reader.RCopy?) && AllMapped(s.reader.dst)
    ensures forall a :: a in acts ==> a == Read
    ensures |s.data| == SIZE && Run(s, acts).reader.RIdle? && Run(s, acts).reader.ret == s.reader.want
    ensures Run(s, acts).reader.base == s.reader.base && Run(s, acts).published == s.published
    decreases ReaderLeft(s.reader), ReaderPhase(s.reader)
  {
    hide RingOk, WriterOk, ReaderOk, ReaderStep;
    ReaderTurn(s);
    var t := ReaderStep(s);
    if t.reader.RIdle? {
      acts := [Read];
      OneStep(s, Read, []);
      assert [Read] + [] == [Read];
    } else {
      var rest := ReaderEnds(t);
      acts := [Read] + rest;
      OneStep(s, Read, rest);
    }
  }

  predicate IntoMapped(r: Reader) { (r.RCheck? || r.RWait? || r.RSnap?) && AllMapped(r.dst) }

  /** With n bytes in the ring, a reader that waits for n goes on to copy them. */
  lemma {:induction false} ReaderStarts(s: State, n: nat) returns (acts: seq<Act>)
    requires Inv(s) && Waits(s, n) && IntoMapped(s.reader) && s.writeopen && |s.published| >= |s.delivered| + n
    ensures forall a :: a in acts ==> a == Read
    ensures |s.data| == SIZE && Inv(Run(s, acts))
    ensures var r := Run(s, acts).reader; r.RLoop? && AllMapped(r.dst) && r.want == n
    decreases if s.reader.RCheck? then 3 else if s.reader.RSnap? then 1 else if s.reader.avail >= n then 0 else 2
  {
    ReaderInv(s);
    CountedOf(s);
    hide RingOk, WriterOk, Minus;
    var t := ReaderStep(s);
    if t.reader.RLoop? {
      acts := [Read];
      OneStep(s, Read, []);
      assert [Read] + [] == [Read];
    } else {
      var rest := ReaderStarts(t, n);
      acts := [Read] + rest;
      OneStep(s, Read, rest);
    }
  }

  /** A read of no more than the ring holds, into memory that is there, can always still return in full:
      the writer ends what it is doing, sends what is missing, and the reader takes it. */
  lemma ShortReadReturns(s: State, n: nat) returns (acts: seq<Act>)
    requires Inv(s) && Waits(s, n) && IntoMapped(s.reader) && s.writeopen && n <= SIZE
    ensures CloseWrite !in acts && |s.data| == SIZE
    ensures Run(s, acts).reader.RIdle? && Run(s, acts).reader.ret == n
  {
    hide RingOk, WriterOk, ReaderOk, Run;
    var ends := WriterEnds(s);
    var s1 := Run(s, ends);
    CountedOf(s1);
    var unread := |s1.published| - |s1.delivered|;
    var sends: seq<Act> := [];
    RunNone(s1);
    if unread < n {
      sends := WriterSends(s1, n - unread);
    }
    RunCat(s, ends, sends);
    acts := Finish(Run(s, ends + sends), n);
    RunCat(s, ends + sends, acts);
    acts := ends + sends + acts;
  }

  lemma RunNone(s: State)
    requires |s.data| == SIZE
    ensures Run(s, []) == s
  {
  }

  lemma Finish(s: State, n: nat) returns (acts: seq<Act>)
    requires Inv(s) && Waits(s, n) && IntoMapped(s.reader) && s.writeopen && |s.published| >= |s.delivered| + n
    ensures CloseWrite !in acts && |s.data| == SIZE
    ensures Run(s, acts).reader.RIdle? && Run(s, acts).reader.ret == n
  {
    hide RingOk, WriterOk, ReaderOk, Run;
    var starts := ReaderStarts(s, n);
    var ends := ReaderEnds(Run(s, starts));
    RunCat(s, starts, ends);
    acts := starts + ends;
  }

  /** A read of n bytes into memory that is there can return in full while the write end is open, exactly
      when n is at most what the ring holds. */
  lemma ReadCanReturn(s: State, n: nat)
    requires Inv(s) && Waits(s, n) && IntoMapped(s.reader) && s.writeopen
    ensures |s.data| == SIZE
    ensures (exists acts :: CloseWrite !in acts && Run(s, acts).reader.RIdle? && Run(s, acts).reader.ret == n)
            <==> n <= SIZE
  {
    hide RingOk, WriterOk, ReaderOk, Run;
    if n <= SIZE {
      var acts := ShortReadReturns(s, n);
    } else {
      forall acts | CloseWrite !in acts
        ensures !Run(s, acts).reader.RIdle?
      {
        LongReadWaits(s, acts, n);
      }
    }
  }

  /** An undisturbed read into memory that is there, when the write end is closed or all that it asks for is
      unread, returns what it asked for, or all there is when that is less: the oldest unread bytes. */
  lemma ReadTakes(s: State) returns (acts: seq<Act>)
    requires Inv(s) && s.reader.RCheck? && s.reader.n >= 0 && AllMapped(s.reader.dst)
    requires !s.writeopen || s.reader.n <= |s.published| - |s.delivered|
    ensures (forall a :: a in acts ==> a == Read) && |s.data| == SIZE
    ensures var t, unread := Run(s, acts), |s.published| - |s.delivered|;
            && t.reader.RIdle? && t.reader.ret == (if s.reader.n <= unread then s.reader.n else unread)
            && t.published == s.published && t.delivered == s.published[..|s.delivered| + t.reader.ret]
  {
    hide RingOk, WriterOk, Minus, Run;
    CountedOf(s);
    ReaderInv(s);
    var s1 := ReaderStep(s);
    ReaderInv(s1);
    var s2 := ReaderStep(s1);
    var ends := ReaderEnds(s2);
    OneStep(s1, Read, ends);
    OneStep(s, Read, [Read] + ends);
    acts := [Read] + ([Read] + ends);
    RunInv(s2, ends);
    Delivered(Run(s2, ends));
  }

  /** Such a read occurs, of any length. */
  lemma ReadOccurs(data: seq<Byte>, n: nat)
    requires |data| == SIZE && n < 0x8000_0000
    ensures var s := Run(Fresh(data), [CallRead(n, seq(n, _ => true))]);
            Inv(s) && Waits(s, n) && IntoMapped(s.reader) && s.writeopen
  {
    var a := CallRead(n, seq(n, _ => true));
    StepInv(Fresh(data), a);
    OneStep(Fresh(data), a, []);
    assert [a] + [] == [a];
  }
}
