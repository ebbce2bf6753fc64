/** A pipe between one writer and one reader that take turns at any instruction: a step touches at most
    one thing that the other side moves, a counter or a byte of data. */
module Pipes {
  import opened Words

  const SIZE: nat := 512

  /** pipewrite. src is what the user's buffer reads as, None where it is not mapped; base is where in
      the stream this call's bytes start; the loop is about to test written < n, or has copied k
      bytes of a chunk to pos. */
  datatype Writer =
    | WIdle(ret: int, base: nat, src: seq<Option<Byte>>)
    | WCheck(n: int, src: seq<Option<Byte>>)
    | WLoop(base: nat, src: seq<Option<Byte>>, written: nat)
    | WCopy(base: nat, src: seq<Option<Byte>>, written: nat, pos: nat, chunk: nat, k: nat)

  /** piperead. dst says which bytes of the user's buffer are mapped for writing; got is what this
      call has put there, from base in the stream on. */
  datatype Reader =
    | RIdle(ret: int, base: nat, got: seq<Byte>, dst: seq<bool>)
    | RCheck(n: int, dst: seq<bool>)
    | RWait(dst: seq<bool>, avail: nat)
    | RSnap(dst: seq<bool>)
    | RLoop(base: nat, dst: seq<bool>, want: nat, readn: nat, got: seq<Byte>)
    | RCopy(base: nat, dst: seq<bool>, want: nat, readn: nat, got: seq<Byte>, pos: nat, chunk: nat)

  /** struct pipe and its two users; published and delivered are the whole history of the bytes that
      nwrite and nread have passed. */
  datatype State = State(
    data: seq<Byte>, nread: nat, nwrite: nat, writeopen: bool, writer: Writer, reader: Reader,
    published: seq<Byte>, delivered: seq<Byte>)

  datatype Act =
    | CallWrite(n: int, src: seq<Option<Byte>>) | CallRead(n: int, dst: seq<bool>)
    | Write | Read | CloseWrite

  /** The length of the next piece: up to the end of data, or of what is left. */
  function Chunk(pos: nat, left: nat): nat
    requires pos < SIZE
  {
    if SIZE - pos > left then left else SIZE - pos
  }

  /** n is an int, and the user's buffer that long. */
  predicate Fits(n: int, len: nat) {
    -0x8000_0000 <= n < 0x8000_0000 && len == if n < 0 then 0 else n
  }

  /** One step; what cannot happen changes nothing. */
  function Step(s: State, a: Act): State
    requires |s.data| == SIZE
  {
    match a
    case CallWrite(n, src) => if s.writer.WIdle? && Fits(n, |src|) then ToWriter(s, WCheck(n, src)) else s
    case CallRead(n, dst) => if s.reader.RIdle? && Fits(n, |dst|) then ToReader(s, RCheck(n, dst)) else s
    case Write => WriterStep(s)
    case Read => ReaderStep(s)
    case CloseWrite => State(s.data, s.nread, s.nwrite, false, s.writer, s.reader, s.published, s.delivered)
  }

  function ToWriter(s: State, w: Writer): State {
    State(s.data, s.nread, s.nwrite, s.writeopen, w, s.reader, s.published, s.delivered)
  }

  function ToReader(s: State, r: Reader): State {
    State(s.data, s.nread, s.nwrite, s.writeopen, s.writer, r, s.published, s.delivered)
  }

  function WriterStep(s: State): State
    requires |s.data| == SIZE
  {
    match s.writer
    case WIdle(_, _, _) => s
    case WCheck(n, src) =>
      if n < 0 then ToWriter(s, WIdle(-1, |s.published|, src))
      else
        var used := Minus(s.nwrite, s.nread);
        var freeSpace := Minus(SIZE, used);
        if n > freeSpace then ToWriter(s, WIdle(-1, |s.published|, src))
        else ToWriter(s, WLoop(|s.published|, src, 0))
    case WLoop(base, src, written) =>
      if written < |src| then
        var pos := s.nwrite % SIZE;
        ToWriter(s, WCopy(base, src, written, pos, Chunk(pos, |src| - written), 0))
      else ToWriter(s, WIdle(written, base, src))
    case WCopy(base, src, written, pos, chunk, k) =>
      if k < chunk then
        if written + k >= |src| || pos + k >= SIZE then s
        else if src[written + k].None? then ToWriter(s, WIdle(-1, base, src))
        else State(s.data[pos + k := src[written + k].value], s.nread, s.nwrite, s.writeopen,
                   WCopy(base, src, written, pos, chunk, k + 1), s.reader, s.published, s.delivered)
      else if pos + chunk > SIZE then s
      else State(s.data, s.nread, Plus(s.nwrite, chunk), s.writeopen, WLoop(base, src, written + chunk), s.reader,
                 s.published + s.data[pos..pos + chunk], s.delivered)
  }

  function ReaderStep(s: State): State
    requires |s.data| == SIZE
  {
    match s.reader
    case RIdle(_, _, _, _) => s
    case RCheck(n, dst) =>
      if n < 0 then ToReader(s, RIdle(-1, |s.delivered|, [], dst))
      else ToReader(s, RWait(dst, Minus(s.nwrite, s.nread)))
    case RWait(dst, avail) =>
      if |dst| > avail && s.writeopen then ToReader(s, RSnap(dst))
      else ToReader(s, RLoop(|s.delivered|, dst, if |dst| > avail then avail else |dst|, 0, []))
    case RSnap(dst) => ToReader(s, RWait(dst, Minus(s.nwrite, s.nread)))
    case RLoop(base, dst, want, readn, got) =>
      if readn < want then
        var pos := s.nread % SIZE;
        ToReader(s, RCopy(base, dst, want, readn, got, pos, Chunk(pos, want - readn)))
      else ToReader(s, RIdle(readn, base, got, dst))
    case RCopy(base, dst, want, readn, got, pos, chunk) =>
      if |got| < readn then s
      else
        var k := |got| - readn;
        if k < chunk then
          if |got| >= |dst| || pos + k >= SIZE then s
          else if !dst[|got|] then ToReader(s, RIdle(-1, base, got, dst))
          else ToReader(s, RCopy(base, dst, want, readn, got + [s.data[pos + k]], pos, chunk))
        else
          State(s.data, Plus(s.nread, chunk), s.nwrite, s.writeopen, s.writer,
                RLoop(base, dst, want, readn + chunk, got), s.published, s.delivered + got[readn..])
  }

  /** pipealloc. The page kalloc gives holds anything. */
  function Fresh(data: seq<Byte>): State {
    State(data, 0, 0, true, WIdle(0, 0, []), RIdle(0, 0, [], []), [], [])
  }

  function Run(s: State, acts: seq<Act>): State
    requires |s.data| == SIZE
    decreases |acts|
  {
    if acts == [] then s
    else
      var t := Step(s, acts[0]);
      if |t.data| != SIZE then t else Run(t, acts[1..])
  }

  // ------------------------------------------------------------- invariant

  /** b is what the start of src reads as. */
  predicate ReadsAs(src: seq<Option<Byte>>, b: seq<Byte>) {
    |b| <= |src| && forall j :: 0 <= j < |b| ==> src[j] == Some(b[j])
  }

  /** The ring: the counters count the history modulo 2^32, what was delivered is a prefix of what was
      published, at most SIZE bytes lie between, and those bytes are in data. */
  ghost predicate RingOk(s: State) {
    && |s.data| == SIZE
    && |s.delivered| <= |s.published| <= |s.delivered| + SIZE
    && s.nwrite == |s.published| % UINT && s.nread == |s.delivered| % UINT
    && s.delivered == s.published[..|s.delivered|]
    && forall j :: |s.delivered| <= j < |s.published| ==> s.data[j % SIZE] == s.published[j]
  }

  /** The writer's room stays its own; a call that returns n has published its n bytes, one that fails
      a prefix of them. */
  ghost predicate WriterOk(s: State)
    requires |s.data| == SIZE
  {
    match s.writer
    case WIdle(ret, base, src) =>
      && base <= |s.published| && ReadsAs(src, s.published[base..])
      && (ret == -1 || (ret == |src| && |s.published| == base + |src|))
    case WCheck(n, src) => Fits(n, |src|)
    case WLoop(base, src, written) =>
      && base + written == |s.published| && written <= |src| && ReadsAs(src, s.published[base..])
      && |s.published| + |src| - written <= |s.delivered| + SIZE
    case WCopy(base, src, written, pos, chunk, k) =>
      && base + written == |s.published| && written + chunk <= |src| && ReadsAs(src, s.published[base..])
      && |s.published| + |src| - written <= |s.delivered| + SIZE
      && pos == |s.published| % SIZE && pos + chunk <= SIZE && k <= chunk && chunk > 0
      && forall j :: pos <= j < pos + k ==> src[written + (j - pos)] == Some(s.data[j])
  }

  /** What the reader has counted as available stays so, and what it has copied out is the stream; a
      call that returns n has delivered n bytes to the user. */
  ghost predicate ReaderOk(s: State) {
    match s.reader
    case RIdle(ret, base, got, dst) =>
      && base <= |s.delivered| <= base + |got| && Part(got, s.published, base) && Into(dst, got)
      && (if ret == -1 then dst == [] || (|got| < |dst| && !dst[|got|])
          else ret == |got| && |s.delivered| == base + |got|)
    case RCheck(n, dst) => Fits(n, |dst|)
    case RWait(dst, avail) => |s.delivered| + avail <= |s.published|
    case RSnap(dst) => true
    case RLoop(base, dst, want, readn, got) =>
      && base + readn == |s.delivered| && |got| == readn <= want <= |dst| && base + want <= |s.published|
      && (s.writeopen ==> want == |dst|)
      && Part(got, s.published, base) && Into(dst, got)
    case RCopy(base, dst, want, readn, got, pos, chunk) =>
      && base + readn == |s.delivered| && readn <= |got| <= readn + chunk <= want <= |dst|
      && base + want <= |s.published|
      && (s.writeopen ==> want == |dst|)
      && Part(got, s.published, base) && Into(dst, got)
      && pos == |s.delivered| % SIZE && pos + chunk <= SIZE && chunk > 0
  }

  /** The places of the user's buffer that the bytes b take are mapped. */
  predicate Into(dst: seq<bool>, b: seq<Byte>) { |b| <= |dst| && forall j :: 0 <= j < |b| ==> dst[j] }

  /** b is the part of the stream from base on. */
  predicate Part(b: seq<Byte>, stream: seq<Byte>, base: nat) {
    base + |b| <= |stream| && b == stream[base..base + |b|]
  }

  ghost predicate Inv(s: State) { |s.data| == SIZE && RingOk(s) && WriterOk(s) && ReaderOk(s) }

  lemma Offset(p: nat, k: nat)
    requires p % SIZE + k < SIZE
    ensures (p + k) % SIZE == p % SIZE + k
  {
  }

  // -------------------------------------------------------------- writing

  /** What only the writer moves leaves the reader's facts as they are. */
  lemma ReaderKept(s: State, s': State)
    requires ReaderOk(s) && s'.reader == s.reader && s'.delivered == s.delivered && (s'.writeopen ==> s.writeopen)
    requires s.published <= s'.published
    ensures ReaderOk(s')
  {
    if s.reader.RIdle? || s.reader.RLoop? || s.reader.RCopy? {
      PartKept(s.reader.got, s.published, s'.published, s.reader.base);
    }
  }

  lemma PartKept(b: seq<Byte>, stream: seq<Byte>, stream': seq<Byte>, base: nat)
    requires Part(b, stream, base) && stream <= stream'
    ensures Part(b, stream', base)
  {
    assert stream'[base..base + |b|] == stream'[..|stream|][base..base + |b|];
  }

  lemma WriterInv(s: State)
    requires Inv(s)
    ensures Inv(WriterStep(s)) && s.published <= WriterStep(s).published && WriterStep(s).delivered == s.delivered
  {
    hide ReaderOk;
    if s.writer.WCopy? && s.writer.k == s.writer.chunk {
      PublishInv(s);
    } else if s.writer.WCopy? && s.writer.src[s.writer.written + s.writer.k].Some? {
      PokeInv(s);
    } else {
      TurnInv(s);
    }
    ReaderKept(s, WriterStep(s));
  }

  /** The writer's steps on its own variables. */
  lemma TurnInv(s: State)
    requires |s.data| == SIZE && RingOk(s) && WriterOk(s)
    requires s.writer.WCopy? ==> s.writer.k < s.writer.chunk && s.writer.src[s.writer.written + s.writer.k].None?
    ensures RingOk(WriterStep(s)) && WriterOk(WriterStep(s))
    ensures s.published <= WriterStep(s).published && WriterStep(s).delivered == s.delivered
  {
    hide Minus, RingOk;
    RingSame(s, WriterStep(s));
    if s.writer.WCheck? {
      CountedOf(s);
      assert s.published[|s.published|..] == [];
    }
  }

  /** What the ring says of the counters; a step on a process's own variables keeps it. */
  lemma RingSame(s: State, s': State)
    requires RingOk(s) && s'.data == s.data && s'.nread == s.nread && s'.nwrite == s.nwrite
    requires s'.published == s.published && s'.delivered == s.delivered
    ensures RingOk(s') && s.nwrite % SIZE == |s.published| % SIZE && s.nread % SIZE == |s.delivered| % SIZE
  {
    Cell(|s.published|, SIZE);
    Cell(|s.delivered|, SIZE);
  }

  lemma CountedOf(s: State)
    requires RingOk(s)
    ensures |s.delivered| <= |s.published| <= |s.delivered| + SIZE
    ensures Minus(s.nwrite, s.nread) == |s.published| - |s.delivered|
    ensures Minus(SIZE, Minus(s.nwrite, s.nread)) == SIZE - (|s.published| - |s.delivered|)
  {
    Counted(|s.published|, |s.delivered|, SIZE);
  }

  /** A byte written into the writer's room is none of the unread ones. */
  lemma PokeInv(s: State)
    requires RingOk(s) && WriterOk(s) && s.writer.WCopy? && s.writer.k < s.writer.chunk
    requires s.writer.src[s.writer.written + s.writer.k].Some?
    ensures RingOk(WriterStep(s)) && WriterOk(WriterStep(s))
    ensures WriterStep(s).published == s.published && WriterStep(s).delivered == s.delivered
  {
    var s', k, p := WriterStep(s), s.writer.k, |s.published|;
    Offset(p, k);
    forall j | |s.delivered| <= j < p
      ensures s'.data[j % SIZE] == s.published[j]
    {
      Apart(j, p + k, SIZE);
    }
  }

  /** nwrite moves over a whole chunk that is in place. */
  lemma PublishInv(s: State)
    requires |s.data| == SIZE && RingOk(s) && WriterOk(s) && s.writer.WCopy? && s.writer.k == s.writer.chunk
    ensures |WriterStep(s).data| == SIZE
    ensures RingOk(WriterStep(s)) && WriterOk(WriterStep(s))
    ensures s.published <= WriterStep(s).published && WriterStep(s).delivered == s.delivered
  {
    hide RingOk;
    var s', pos, chunk, base := WriterStep(s), s.writer.pos, s.writer.chunk, s.writer.base;
    RingGrows(s, s', pos, chunk);
    SourceRead(s.writer.src, s.published[base..], s.data, pos, chunk);
    assert s'.published[base..] == s.published[base..] + s.data[pos..pos + chunk];
  }

  lemma SourceRead(src: seq<Option<Byte>>, b: seq<Byte>, data: seq<Byte>, pos: nat, chunk: nat)
    requires ReadsAs(src, b) && |b| + chunk <= |src| && pos + chunk <= |data|
    requires forall j :: pos <= j < pos + chunk ==> src[|b| + (j - pos)] == Some(data[j])
    ensures ReadsAs(src, b + data[pos..pos + chunk])
  {
  }

  lemma RingGrows(s: State, s': State, pos: nat, chunk: nat)
    requires RingOk(s) && pos == |s.published| % SIZE && pos + chunk <= SIZE
    requires |s.published| + chunk <= |s.delivered| + SIZE
    requires s'.data == s.data && s'.nread == s.nread && s'.nwrite == Plus(s.nwrite, chunk)
    requires s'.published == s.published + s.data[pos..pos + chunk] && s'.delivered == s.delivered
    ensures RingOk(s')
  {
    Counts(|s.published|, chunk);
    var p, now := |s.published|, s'.published;
    forall j | |s.delivered| <= j < p + chunk
      ensures s.data[j % SIZE] == now[j]
    {
      if j >= p { Offset(p, j - p); }
    }
    assert now[..|s.delivered|] == s.published[..|s.delivered|];
  }

  // -------------------------------------------------------------- reading

  /** What only the reader moves leaves the writer's facts as they are. */
  lemma WriterKept(s: State, s': State)
    requires |s.data| == SIZE && WriterOk(s) && s'.data == s.data && s'.writer == s.writer
    requires s'.published == s.published && |s.delivered| <= |s'.delivered|
    ensures WriterOk(s')
  {
  }

  lemma ReaderInv(s: State)
    requires Inv(s)
    ensures Inv(ReaderStep(s)) && ReaderStep(s).published == s.published && s.delivered <= ReaderStep(s).delivered
  {
    hide WriterOk;
    if s.reader.RCopy? && |s.reader.got| == s.reader.readn + s.reader.chunk {
      ConsumeInv(s);
    } else if s.reader.RCopy? && s.reader.dst[|s.reader.got|] {
      PeekInv(s);
    } else {
      WaitInv(s);
    }
    WriterKept(s, ReaderStep(s));
  }

  lemma WaitInv(s: State)
    requires |s.data| == SIZE && RingOk(s) && ReaderOk(s)
    requires s.reader.RCopy? ==> |s.reader.got| < s.reader.readn + s.reader.chunk && !s.reader.dst[|s.reader.got|]
    ensures RingOk(ReaderStep(s)) && ReaderOk(ReaderStep(s))
    ensures ReaderStep(s).published == s.published && ReaderStep(s).delivered == s.delivered
    ensures ReaderStep(s).data == s.data
  {
    hide Minus, RingOk;
    RingSame(s, ReaderStep(s));
    CountedOf(s);
  }

  lemma PeekInv(s: State)
    requires RingOk(s) && ReaderOk(s)
    requires s.reader.RCopy? && |s.reader.got| < s.reader.readn + s.reader.chunk && s.reader.dst[|s.reader.got|]
    ensures RingOk(ReaderStep(s)) && ReaderOk(ReaderStep(s))
    ensures ReaderStep(s).published == s.published && ReaderStep(s).delivered == s.delivered
    ensures ReaderStep(s).data == s.data
  {
    var base, got := s.reader.base, s.reader.got;
    var k := |got| - s.reader.readn;
    Offset(|s.delivered|, k);
    assert s.data[s.reader.pos + k] == s.published[base + |got|];
    assert s.published[base..base + |got| + 1] == s.published[base..base + |got|] + [s.published[base + |got|]];
  }

  lemma ConsumeInv(s: State)
    requires |s.data| == SIZE && RingOk(s) && ReaderOk(s) && s.reader.RCopy?
    requires |s.reader.got| == s.reader.readn + s.reader.chunk
    ensures RingOk(ReaderStep(s)) && ReaderOk(ReaderStep(s))
    ensures ReaderStep(s).published == s.published && s.delivered <= ReaderStep(s).delivered
    ensures ReaderStep(s).data == s.data
  {
    hide RingOk;
    var s', base, got := ReaderStep(s), s.reader.base, s.reader.got;
    Delivered(s);
    Delivers(s.published, base, |s.delivered|, got);
    RingShrinks(s, s');
  }

  lemma Delivered(s: State)
    requires RingOk(s)
    ensures |s.delivered| <= |s.published| && s.delivered == s.published[..|s.delivered|]
  {
  }

  lemma RingShrinks(s: State, s': State)
    requires RingOk(s) && |s.delivered| <= |s'.delivered| && s'.delivered <= s.published && s'.published == s.published
    requires s'.data == s.data && s'.nread == Plus(s.nread, |s'.delivered| - |s.delivered|) && s'.nwrite == s.nwrite
    ensures RingOk(s')
  {
    Counts(|s.delivered|, |s'.delivered| - |s.delivered|);
    hide Plus;
  }

  /** What was delivered and what is added to it make a longer prefix of the stream. */
  lemma Delivers(stream: seq<Byte>, base: nat, d: nat, got: seq<Byte>)
    requires base <= d <= base + |got| && Part(got, stream, base)
    ensures stream[..d] + got[d - base..] == stream[..base + |got|]
  {
    assert got[d - base..] == stream[d..base + |got|];
  }

  // ----------------------------------------------------------- whole runs

  lemma StepInv(s: State, a: Act)
    requires Inv(s)
    ensures |s.data| == SIZE && Inv(Step(s, a))
    ensures var t := Step(s, a);
            s.published <= t.published && s.delivered <= t.delivered
  {
    hide ReaderStep, WriterStep;
    match a
    case Write => WriterInv(s);
    case Read => ReaderInv(s);
    case CloseWrite => ReaderKept(s, Step(s, a));
    case CallWrite(_, _) => ReaderKept(s, Step(s, a));
    case CallRead(_, _) => WriterKept(s, Step(s, a));
  }

  lemma {:induction false} RunInv(s: State, acts: seq<Act>)
    requires Inv(s)
    ensures Inv(Run(s, acts))
    decreases |acts|
  {
    hide Inv, Step;
    if acts != [] {
      StepInv(s, acts[0]);
      RingOf(s);
      RingOf(Step(s, acts[0]));
      RunInv(Step(s, acts[0]), acts[1..]);
    }
  }

  lemma RingOf(s: State)
    requires Inv(s)
    ensures RingOk(s)
  {
  }

  /** From pipealloc on, however the two sides interleave: never more than 512 bytes lie between the
      counters, and the bytes delivered are a prefix of the bytes published. */
  lemma Fifo(data: seq<Byte>, acts: seq<Act>)
    requires |data| == SIZE
    ensures var s := Run(Fresh(data), acts);
            && Minus(s.nwrite, s.nread) == |s.published| - |s.delivered| <= SIZE
            && s.delivered == s.published[..|s.delivered|]
  {
    RunInv(Fresh(data), acts);
    var s := Run(Fresh(data), acts);
    Counted(|s.published|, |s.delivered|, SIZE);
  }

  /** A write that returns n has put exactly its n bytes at the end of the stream, and one that fails a
      prefix of them; a refused one put nothing. */
  lemma WriteReturns(s: State)
    requires Inv(s) && !s.writer.WIdle? && WriterStep(s).writer.WIdle?
    ensures var w := WriterStep(s).writer;
            && WriterStep(s).published == s.published && ReadsAs(w.src, s.published[w.base..])
            && (w.ret != -1 ==> w.ret == |w.src| == |s.published| - w.base)
            && (s.writer.WCheck? ==> w.ret == -1 && w.base == |s.published|)
  {
    WriterInv(s);
    Counted(|s.published|, |s.delivered|, SIZE);
  }

  /** A write is refused exactly when n is negative or more than the ring has room for. */
  lemma WriteRefused(s: State)
    requires Inv(s) && s.writer.WCheck?
    ensures WriterStep(s).writer.WIdle? <==> s.writer.n < 0 || s.writer.n > SIZE - (|s.published| - |s.delivered|)
    ensures WriterStep(s).writer.WIdle? ==> WriterStep(s).writer.ret == -1
  {
    hide Minus;
    CountedOf(s);
  }

  /** A read that returns n has put the next n bytes of the stream into the user's buffer; while the
      write end is open n is what was asked for. */
  lemma ReadReturns(s: State)
    requires Inv(s) && !s.reader.RIdle? && ReaderStep(s).reader.RIdle?
    ensures var r := ReaderStep(s).reader;
            && ReaderStep(s).delivered == s.delivered
            && r.base + |r.got| <= |s.published| && r.got == s.published[r.base..r.base + |r.got|]
            && s.delivered[r.base..] <= r.got
            && (r.ret != -1 ==> r.ret == |r.got| && s.delivered[r.base..] == r.got)
            && (r.ret != -1 && s.writeopen ==> s.reader.RLoop? && r.ret == |s.reader.dst|)
            && r.dst == s.reader.dst && |r.got| <= |r.dst| && (forall j :: 0 <= j < |r.got| ==> r.dst[j])
            && (r.ret == -1 ==> if s.reader.RCheck? then s.reader.n < 0 else |r.got| < |r.dst| && !r.dst[|r.got|])
  {
    ReaderInv(s);
    var r := ReaderStep(s).reader;
    assert s.delivered[r.base..] == s.published[r.base..|s.delivered|];
    assert r.got[..|s.delivered| - r.base] == s.published[r.base..|s.delivered|];
  }

  /** A read in the middle of a piece gives up exactly when the next place is not mapped; else it puts the
      next byte of the stream there. */
  lemma ReadPuts(s: State)
    requires Inv(s) && s.reader.RCopy? && |s.reader.got| < s.reader.readn + s.reader.chunk
    ensures var r, k := ReaderStep(s).reader, |s.reader.got|;
            && k < |s.reader.dst| && s.reader.base + k < |s.published|
            && (if s.reader.dst[k] then r.RCopy? && r.got == s.reader.got + [s.published[s.reader.base + k]]
                else r.RIdle? && r.ret == -1 && r.got == s.reader.got)
  {
    ReaderInv(s);
    var r := ReaderStep(s).reader;
    if s.reader.dst[|s.reader.got|] {
      assert r.got[|s.reader.got|] == s.published[s.reader.base + |s.reader.got|];
    }
  }

  /** The read call for n bytes is still waiting for them. */
  predicate Waits(s: State, n: nat) {
    match s.reader
    case RCheck(m, _) => m == n
    case RWait(dst, _) => |dst| == n
    case RSnap(dst) => |dst| == n
    case _ => false
  }

  /** A read of more than the ring holds never returns while the write end is open, whatever the writer
      does. */
  lemma {:induction false} LongReadWaits(s: State, acts: seq<Act>, n: nat)
    requires Inv(s) && n > SIZE && s.writeopen && Waits(s, n)
    requires CloseWrite !in acts
    ensures Waits(Run(s, acts), n)
    decreases |acts|
  {
    if acts != [] {
      var t := Step(s, acts[0]);
      StepInv(s, acts[0]);
      hide RingOk, WriterOk, Minus;
      assert t.writeopen && Waits(t, n) by { LongReadStep(s, acts[0], n); }
      LongReadWaits(t, acts[1..], n);
    }
  }

  lemma LongReadStep(s: State, a: Act, n: nat)
    requires Inv(s) && n > SIZE && s.writeopen && Waits(s, n) && !a.CloseWrite?
    ensures |s.data| == SIZE && Step(s, a).writeopen && Waits(Step(s, a), n)
  {
    hide WriterOk, Minus;
  }
}
