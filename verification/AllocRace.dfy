/** The page allocator load by load and store by store, with the process switched wherever interrupts
    are on. Its list has no lock. */
module AllocatorRace {
  import opened Words

  /** Where a process stands in kalloc or kfree; off says that the call is made with interrupts off. */
  datatype Pc =
    | Idle
    // r = free_mem_list; free_mem_list = r->next, a load and a store; memset
    | ALoad(off: bool) | ANext(off: bool, r: nat) | AHead(off: bool, r: nat, w: nat) | AZero(off: bool, r: nat)
    // r->next = free_mem_list, a load and a store; free_mem_list = r
    | FLoad(off: bool, f: nat) | FLink(off: bool, f: nat, w: nat) | FHead(off: bool, f: nat)

  /** free_mem_list, the first words of the frames, the processes and the one that runs, who holds which
      frame, and whether a frame was handed out while it was held. */
  datatype State = State(head: nat, next: map<nat, nat>, pcs: seq<Pc>, cur: nat, holds: map<nat, nat>, clash: bool)

  /** The process calls kalloc or kfree, stores into the first word of a frame it holds, or takes its next
      step; or the timer switches to another process. */
  datatype Act = CallAlloc(off: bool) | CallFree(off: bool, f: nat) | Write(f: nat, w: nat) | Run | Switch(to: nat)

  function NextOf(next: map<nat, nat>, f: nat): nat { if f in next then next[f] else 0 }

  predicate Off(pc: Pc) { !pc.Idle? && pc.off }

  function At(s: State, pc: Pc): State
    requires s.cur < |s.pcs|
  {
    State(s.head, s.next, s.pcs[s.cur := pc], s.cur, s.holds, s.clash)
  }

  /** One action; what cannot happen changes nothing. */
  function Step(s: State, a: Act): State
    requires s.cur < |s.pcs|
  {
    match a
    case CallAlloc(off) => if s.pcs[s.cur].Idle? then At(s, ALoad(off)) else s
    case CallFree(off, f) =>
      if s.pcs[s.cur].Idle? && f in s.holds && s.holds[f] == s.cur
      then State(s.head, s.next, s.pcs[s.cur := FLoad(off, f)], s.cur, s.holds - {f}, s.clash)
      else s
    case Write(f, w) =>
      if s.pcs[s.cur].Idle? && f in s.holds && s.holds[f] == s.cur
      then State(s.head, s.next[f := w], s.pcs, s.cur, s.holds, s.clash)
      else s
    case Switch(to) =>
      if to < |s.pcs| && !Off(s.pcs[s.cur]) then State(s.head, s.next, s.pcs, to, s.holds, s.clash) else s
    case Run =>
      match s.pcs[s.cur]
      case Idle => s
      case ALoad(off) => At(s, if s.head == 0 then Idle else ANext(off, s.head))
      case ANext(off, r) => At(s, AHead(off, r, NextOf(s.next, r)))
      case AHead(off, r, w) => State(w, s.next, s.pcs[s.cur := AZero(off, r)], s.cur, s.holds, s.clash)
      case AZero(_, r) =>
        State(s.head, s.next[r := 0], s.pcs[s.cur := Idle], s.cur, s.holds[r := s.cur], s.clash || r in s.holds)
      case FLoad(off, f) => At(s, FLink(off, f, s.head))
      case FLink(off, f, w) => State(s.head, s.next[f := w], s.pcs[s.cur := FHead(off, f)], s.cur, s.holds, s.clash)
      case FHead(_, f) => State(f, s.next, s.pcs[s.cur := Idle], s.cur, s.holds, s.clash)
  }

  function After(s: State, acts: seq<Act>): State
    requires s.cur < |s.pcs|
    decreases |acts|
  {
    if acts == [] then s else After(Step(s, acts[0]), acts[1..])
  }

  /** kinit has freed the frames 1 to m, in this order; nobody holds any. */
  function Init(n: nat, m: nat): State
    requires n > 0
  {
    State(m, Links(m), seq(n, _ => Idle), 0, map[], false)
  }

  function Links(m: nat): map<nat, nat> { map f: nat | 0 < f <= m :: Lower(f) }

  function Lower(f: nat): nat
    requires f > 0
  {
    f - 1
  }

  // ------------------------------------------------- with interrupts off

  /** The list in memory from h on. */
  predicate Chain(next: map<nat, nat>, h: nat, l: seq<nat>)
    decreases |l|
  {
    if l == [] then h == 0 else h == l[0] != 0 && Chain(next, NextOf(next, h), l[1..])
  }

  predicate Distinct(l: seq<nat>) { forall i, j :: 0 <= i < j < |l| ==> l[i] != l[j] }

  /** The frame that is on its way out of or into the list. */
  function InFlight(pc: Pc): set<nat> {
    match pc
    case AZero(_, r) => {r}
    case FLoad(_, f) => {f}
    case FLink(_, f, _) => {f}
    case FHead(_, f) => {f}
    case _ => {}
  }

  /** What a call has read of the list is still so. */
  predicate Fresh(s: State, l: seq<nat>)
    requires s.cur < |s.pcs|
  {
    match s.pcs[s.cur]
    case ANext(_, r) => l != [] && r == l[0]
    case AHead(_, r, w) => l != [] && r == l[0] && w == NextOf(s.next, r)
    case FLink(_, _, w) => w == s.head
    case FHead(_, f) => NextOf(s.next, f) == s.head && f != 0
    case FLoad(_, f) => f != 0
    case _ => true
  }

  /** Only the running process is in a call, and that with interrupts off; the list is l; frames on it, on
      their way, and held are different ones. */
  ghost predicate Inv(s: State, l: seq<nat>) {
    && s.cur < |s.pcs| && !s.clash
    && (forall i :: 0 <= i < |s.pcs| && i != s.cur ==> s.pcs[i].Idle?)
    && (s.pcs[s.cur].Idle? || Off(s.pcs[s.cur]))
    && Chain(s.next, s.head, l) && Distinct(l) && Fresh(s, l)
    && (forall f :: f in l ==> f !in s.holds && f !in InFlight(s.pcs[s.cur]))
    && (forall f :: f in InFlight(s.pcs[s.cur]) ==> f !in s.holds) && 0 !in s.holds
    && 0 !in InFlight(s.pcs[s.cur])
  }

  predicate Careful(a: Act) { (a.CallAlloc? ==> a.off) && (a.CallFree? ==> a.off) }

  lemma {:induction false} ChainKept(next: map<nat, nat>, h: nat, l: seq<nat>, f: nat, w: nat)
    requires Chain(next, h, l) && f !in l
    ensures Chain(next[f := w], h, l)
    decreases |l|
  {
    if l != [] {
      ChainKept(next, NextOf(next, h), l[1..], f, w);
    }
  }

  /** The list after a step: kalloc's store of the head takes one off, kfree's puts one on. */
  function ListAfter(s: State, a: Act, l: seq<nat>): seq<nat>
    requires s.cur < |s.pcs|
  {
    if a.Run? && s.pcs[s.cur].AHead? && l != [] then l[1..]
    else if a.Run? && s.pcs[s.cur].FHead? then [s.pcs[s.cur].f] + l
    else l
  }

  lemma CarefulStep(s: State, a: Act, l: seq<nat>)
    requires Inv(s, l) && Careful(a)
    ensures Inv(Step(s, a), ListAfter(s, a, l))
  {
    hide Chain, Distinct;
    var pc := s.pcs[s.cur];
    if a.Write? && a.f in s.holds {
      ChainKept(s.next, s.head, l, a.f, a.w);
    } else if a.Run? && pc.AZero? {
      ChainKept(s.next, s.head, l, pc.r, 0);
    } else if a.Run? && pc.FLink? {
      ChainKept(s.next, s.head, l, pc.f, pc.w);
    } else if a.Run? && pc.AHead? {
      ChainTail(s.next, s.head, l);
    } else if a.Run? && pc.FHead? {
      ChainMore(s.next, s.head, l, pc.f);
    } else if a.Run? && pc.ALoad? {
      ChainHead(s.next, s.head, l);
    }
  }

  lemma ChainHead(next: map<nat, nat>, h: nat, l: seq<nat>)
    requires Chain(next, h, l)
    ensures if l == [] then h == 0 else h == l[0] != 0
  {
  }

  lemma ChainTail(next: map<nat, nat>, h: nat, l: seq<nat>)
    requires Chain(next, h, l) && Distinct(l) && l != []
    ensures h == l[0] != 0 && Chain(next, NextOf(next, h), l[1..]) && Distinct(l[1..])
    ensures l[0] !in l[1..] && forall f :: f in l[1..] ==> f in l
  {
  }

  lemma ChainMore(next: map<nat, nat>, h: nat, l: seq<nat>, f: nat)
    requires Chain(next, h, l) && Distinct(l) && f !in l && f != 0 && NextOf(next, f) == h
    ensures Chain(next, f, [f] + l) && Distinct([f] + l)
  {
    assert ([f] + l)[1..] == l;
  }

  lemma {:induction false} CarefulRun(s: State, acts: seq<Act>, l: seq<nat>)
    requires Inv(s, l) && forall a :: a in acts ==> Careful(a)
    ensures !After(s, acts).clash
    decreases |acts|
  {
    if acts != [] {
      CarefulStep(s, acts[0], l);
      hide Inv, Step;
      CurKept(s, acts[0], l);
      CarefulRun(Step(s, acts[0]), acts[1..], ListAfter(s, acts[0], l));
    } else {
      NoClash(s, l);
    }
  }

  lemma NoClash(s: State, l: seq<nat>)
    requires Inv(s, l)
    ensures s.cur < |s.pcs| && !s.clash
  {
  }

  lemma CurKept(s: State, a: Act, l: seq<nat>)
    requires Inv(s, l) && Careful(a)
    ensures s.cur < |s.pcs| && Step(s, a).cur < |Step(s, a).pcs|
  {
  }

  function Down(m: nat): seq<nat> { if m == 0 then [] else [m] + Down(m - 1) }

  lemma {:induction false} DownChain(m: nat, k: nat)
    requires k <= m
    ensures Chain(Links(m), k, Down(k)) && Distinct(Down(k))
    ensures forall f :: f in Down(k) <==> 0 < f <= k
    decreases k
  {
    if k > 0 {
      DownChain(m, k - 1);
      assert Down(k)[1..] == Down(k - 1);
      forall i, j | 0 <= i < j < |Down(k)|
        ensures Down(k)[i] != Down(k)[j]
      {
        assert Down(k)[j] == Down(k - 1)[j - 1] && Down(k - 1)[j - 1] in Down(k - 1);
      }
    }
  }

  lemma InitInv(n: nat, m: nat)
    requires n > 0
    ensures Inv(Init(n, m), Down(m))
  {
    DownChain(m, m);
  }

  // ------------------------------------------------------ with interrupts on

  function Whole(off: bool): seq<Act> { [CallAlloc(off), Run, Run, Run, Run] }

  /** Some actions after others. */
  lemma {:induction false} AfterMore(s: State, a: seq<Act>, b: seq<Act>)
    requires s.cur < |s.pcs|
    ensures After(s, a).cur < |After(s, a).pcs| && After(s, a + b) == After(After(s, a), b)
    decreases |a|
  {
    if a == [] {
      assert a + b == b;
    } else {
      assert (a + b)[1..] == a[1..] + b;
      AfterMore(Step(s, a[0]), a[1..], b);
    }
  }

  /** A kalloc that runs through, while the list is not empty. */
  lemma WholeAlloc(s: State, off: bool)
    requires s.cur < |s.pcs| && s.pcs[s.cur].Idle? && s.head != 0
    ensures After(s, Whole(off))
            == State(NextOf(s.next, s.head), s.next[s.head := 0], s.pcs, s.cur, s.holds[s.head := s.cur],
                     s.clash || s.head in s.holds)
  {
    var s1 := Step(s, CallAlloc(off));
    var s2 := Step(s1, Run);
    var s3 := Step(s2, Run);
    var s4 := Step(s3, Run);
    var s5 := Step(s4, Run);
    assert s5.pcs == s.pcs;
    assert After(s, Whole(off)) == After(s1, [Run, Run, Run, Run]);
    assert After(s1, [Run, Run, Run, Run]) == After(s2, [Run, Run, Run]);
    assert After(s2, [Run, Run, Run]) == After(s3, [Run, Run]) == After(s4, [Run]) == After(s5, []);
  }

  /** The careless part: the head is read, and then the timer switches to process t. */
  function Caught(t: nat): seq<Act> { [CallAlloc(false), Run, Switch(t)] }

  lemma CaughtAt(s: State, t: nat)
    requires s.cur < |s.pcs| && s.pcs[s.cur].Idle? && s.head != 0 && t < |s.pcs|
    ensures After(s, Caught(t)) == State(s.head, s.next, s.pcs[s.cur := ANext(false, s.head)], t, s.holds, s.clash)
  {
    var s1 := Step(s, CallAlloc(false));
    var s2 := Step(s1, Run);
    var s3 := Step(s2, Switch(t));
    assert s1.pcs[s.cur := ANext(false, s.head)] == s.pcs[s.cur := ANext(false, s.head)];
    assert After(s, Caught(t)) == After(s1, [Run, Switch(t)]) == After(s2, [Switch(t)]) == After(s3, []);
  }

  /** The rest of it, when the timer switches back. */
  function Late(c: nat): seq<Act> { [Switch(c), Run, Run, Run] }

  lemma LateAt(s: State, c: nat, r: nat)
    requires s.cur < |s.pcs| && c < |s.pcs| && s.pcs[s.cur].Idle? && s.pcs[c] == ANext(false, r)
    ensures var e := After(s, Late(c));
            e.head == NextOf(s.next, r) && e.clash == (s.clash || r in s.holds)
  {
    var s1 := Step(s, Switch(c));
    var s2 := Step(s1, Run);
    var s3 := Step(s2, Run);
    var s4 := Step(s3, Run);
    assert After(s, Late(c)) == After(s1, [Run, Run, Run]) == After(s2, [Run, Run]) == After(s3, [Run])
        == After(s4, []);
  }

  /** kalloc called with interrupts on, at any time when a frame is free and another process can run: the
      timer may fall between the load of the head and the load behind it, the other process takes that
      frame and writes w into it, and both have it; the head of the list is then w. */
  lemma HandedTwice(s: State, l: seq<nat>, t: nat, off: bool, w: nat)
    requires Inv(s, l) && l != [] && s.pcs[s.cur].Idle? && t < |s.pcs| && t != s.cur
    ensures var acts := Caught(t) + (Whole(off) + ([Write(l[0], w)] + Late(s.cur)));
            After(s, acts).clash && After(s, acts).head == w
  {
    var c := s.cur;
    AfterMore(s, Caught(t), Whole(off) + ([Write(l[0], w)] + Late(c)));
    CaughtAt(s, t);
    var s1 := After(s, Caught(t));
    AfterMore(s1, Whole(off), [Write(l[0], w)] + Late(c));
    WholeAlloc(s1, off);
    var s2 := After(s1, Whole(off));
    AfterMore(s2, [Write(l[0], w)], Late(c));
    var s3 := Step(s2, Write(l[0], w));
    assert After(s2, [Write(l[0], w)]) == After(s3, []) == s3;
    LateAt(s3, c, l[0]);
  }

  /** A kfree caught between its load of the head and its stores. */
  function CaughtFree(f: nat, t: nat): seq<Act> { [CallFree(false, f), Run, Switch(t)] }

  lemma CaughtFreeAt(s: State, f: nat, t: nat)
    requires s.cur < |s.pcs| && s.pcs[s.cur].Idle? && t < |s.pcs| && f in s.holds && s.holds[f] == s.cur
    ensures After(s, CaughtFree(f, t))
            == State(s.head, s.next, s.pcs[s.cur := FLink(false, f, s.head)], t, s.holds - {f}, s.clash)
  {
    var s1 := Step(s, CallFree(false, f));
    var s2 := Step(s1, Run);
    var s3 := Step(s2, Switch(t));
    assert s1.pcs[s.cur := FLink(false, f, s.head)] == s.pcs[s.cur := FLink(false, f, s.head)];
    assert After(s, CaughtFree(f, t)) == After(s1, [Run, Switch(t)]) == After(s2, [Switch(t)]) == After(s3, []);
  }

  function LateFree(c: nat): seq<Act> { [Switch(c), Run, Run] }

  lemma LateFreeAt(s: State, c: nat, f: nat, w: nat)
    requires s.cur < |s.pcs| && c < |s.pcs| && s.pcs[s.cur].Idle? && s.pcs[c] == FLink(false, f, w)
    ensures After(s, LateFree(c)) == State(f, s.next[f := w], s.pcs[c := Idle], c, s.holds, s.clash)
  {
    var s1 := Step(s, Switch(c));
    var s2 := Step(s1, Run);
    var s3 := Step(s2, Run);
    assert s2.pcs[c := Idle] == s.pcs[c := Idle];
    assert After(s, LateFree(c)) == After(s1, [Run, Run]) == After(s2, [Run]) == After(s3, []);
  }

  /** The same for kfree: the frame that the other process takes meanwhile is linked in again behind the
      one given back, and handed out a second time. */
  lemma FreedIntoUse(s: State, l: seq<nat>, f: nat, t: nat, off: bool)
    requires Inv(s, l) && l != [] && s.pcs[s.cur].Idle? && t < |s.pcs| && t != s.cur && f in s.holds
    requires s.holds[f] == s.cur
    ensures After(s, CaughtFree(f, t) + (Whole(off) + (LateFree(s.cur) + (Whole(off) + Whole(off))))).clash
  {
    var c := s.cur;
    AfterMore(s, CaughtFree(f, t), Whole(off) + (LateFree(c) + (Whole(off) + Whole(off))));
    CaughtFreeAt(s, f, t);
    var s1 := After(s, CaughtFree(f, t));
    AfterMore(s1, Whole(off), LateFree(c) + (Whole(off) + Whole(off)));
    WholeAlloc(s1, off);
    var s2 := After(s1, Whole(off));
    AfterMore(s2, LateFree(c), Whole(off) + Whole(off));
    LateFreeAt(s2, c, f, l[0]);
    var s3 := After(s2, LateFree(c));
    AfterMore(s3, Whole(off), Whole(off));
    WholeAlloc(s3, off);
    var s4 := After(s3, Whole(off));
    assert s4.head == l[0] && l[0] in s4.holds;
    WholeAlloc(s4, off);
  }

  // ------------------------------------------------------------- exactly when

  /** How a kernel calls the allocator: with interrupts off around kalloc, around kfree. */
  datatype Policy = Policy(alloc: bool, free: bool)

  predicate Obeys(p: Policy, acts: seq<Act>) {
    forall a :: a in acts ==> (a.CallAlloc? ==> a.off == p.alloc) && (a.CallFree? ==> a.off == p.free)
  }

  /** No frame is ever handed out twice, whatever the processes and the timer do, exactly when interrupts
      are off around every kalloc and every kfree. */
  lemma ExactlyWhenOff(n: nat, m: nat, p: Policy)
    requires n >= 2 && m >= 2
    ensures (forall acts :: Obeys(p, acts) ==> !After(Init(n, m), acts).clash) <==> p.alloc && p.free
  {
    InitInv(n, m);
    if p.alloc && p.free {
      forall acts | Obeys(p, acts)
        ensures !After(Init(n, m), acts).clash
      {
        CarefulRun(Init(n, m), acts, Down(m));
      }
    } else if !p.alloc {
      AllocBreaks(n, m, p);
    } else {
      FreeBreaks(n, m, p);
    }
  }

  lemma AllocBreaks(n: nat, m: nat, p: Policy)
    requires n >= 2 && m >= 2 && !p.alloc
    ensures exists acts :: Obeys(p, acts) && After(Init(n, m), acts).clash
  {
    InitInv(n, m);
    HandedTwice(Init(n, m), Down(m), 1, false, 0);
    var acts := Caught(1) + (Whole(false) + ([Write(Down(m)[0], 0)] + Late(0)));
    assert Obeys(p, acts);
  }

  lemma FreeBreaks(n: nat, m: nat, p: Policy)
    requires n >= 2 && m >= 2 && p.alloc && !p.free
    ensures exists acts :: Obeys(p, acts) && After(Init(n, m), acts).clash
  {
    InitInv(n, m);
    var s := Init(n, m);
    WholeAlloc(s, true);
    var s1 := After(s, Whole(true));
    var rest := CaughtFree(m, 1) + (Whole(true) + (LateFree(0) + (Whole(true) + Whole(true))));
    AfterMore(s, Whole(true), rest);
    AllocLeft(n, m);
    FreedIntoUse(s1, Down(m - 1), m, 1, true);
    assert Obeys(p, Whole(true) + rest);
  }

  lemma AllocLeft(n: nat, m: nat)
    requires n >= 2 && m >= 2
    ensures var s := Init(n, m);
            Inv(State(NextOf(s.next, m), s.next[m := 0], s.pcs, 0, s.holds[m := 0], false), Down(m - 1))
  {
    DownChain(m, m - 1);
    ChainKept(Init(n, m).next, m - 1, Down(m - 1), m, 0);
  }

  // -------------------------------------------------- a call as a whole

  lemma FourSteps(s: State, a: Act, s1: State, s2: State, s3: State, s4: State)
    requires s.cur < |s.pcs| && s1.cur < |s1.pcs| && s2.cur < |s2.pcs| && s3.cur < |s3.pcs| && s4.cur < |s4.pcs|
    requires Step(s4, Run).cur < |Step(s4, Run).pcs|
    requires Step(s, a) == s1 && Step(s1, Run) == s2 && Step(s2, Run) == s3 && Step(s3, Run) == s4
    ensures After(s, [a, Run, Run, Run]) == s4 && After(s, [a, Run, Run, Run, Run]) == Step(s4, Run)
  {
    hide Step;
    assert [a, Run, Run, Run][1..] == [Run, Run, Run] && [a, Run, Run, Run, Run][1..] == [Run, Run, Run, Run];
    assert [Run, Run, Run, Run][1..] == [Run, Run, Run] && [Run, Run, Run][1..] == [Run, Run];
    assert [Run, Run][1..] == [Run] && [Run][1..] == [];
  }

  /** A kalloc with interrupts off takes the head of the list, clears its link and hands it to the caller; with
      an empty list it changes nothing. */
  lemma AllocWhole(s: State, l: seq<nat>)
    requires Inv(s, l) && s.pcs[s.cur].Idle?
    ensures var t := After(s, [CallAlloc(true), Run, Run, Run, Run]);
            if l == [] then t == s
            else Inv(t, l[1..]) && t.pcs == s.pcs && t.cur == s.cur && t.holds == s.holds[l[0] := s.cur]
                 && t.next == s.next[l[0] := 0]
  {
    hide Chain, Distinct;
    ChainHead(s.next, s.head, l);
    var s1 := Step(s, CallAlloc(true));
    CarefulStep(s, CallAlloc(true), l);
    CarefulStep(s1, Run, l);
    var s2 := Step(s1, Run);
    assert s1.pcs[s.cur := Idle] == s.pcs;
    if l != [] {
      CarefulStep(s2, Run, l);
      var s3 := Step(s2, Run);
      CarefulStep(s3, Run, l);
      var s4 := Step(s3, Run);
      CarefulStep(s4, Run, l[1..]);
      assert Step(s4, Run).pcs == s.pcs;
      FourSteps(s, CallAlloc(true), s1, s2, s3, s4);
    } else {
      assert s2 == s;
      FourSteps(s, CallAlloc(true), s1, s2, s2, s2);
    }
  }

  /** A kfree with interrupts off puts the frame at the head of the list. */
  lemma FreeWhole(s: State, l: seq<nat>, f: nat)
    requires Inv(s, l) && s.pcs[s.cur].Idle? && f in s.holds && s.holds[f] == s.cur
    ensures var t := After(s, [CallFree(true, f), Run, Run, Run]);
            Inv(t, [f] + l) && t.pcs == s.pcs && t.cur == s.cur && t.holds == s.holds - {f}
            && t.head == f && t.next == s.next[f := s.head]
  {
    hide Chain, Distinct;
    var s1 := Step(s, CallFree(true, f));
    CarefulStep(s, CallFree(true, f), l);
    CarefulStep(s1, Run, l);
    var s2 := Step(s1, Run);
    CarefulStep(s2, Run, l);
    var s3 := Step(s2, Run);
    CarefulStep(s3, Run, l);
    assert Step(s3, Run).pcs == s.pcs;
    FourSteps(s, CallFree(true, f), s1, s2, s3, Step(s3, Run));
  }
}
