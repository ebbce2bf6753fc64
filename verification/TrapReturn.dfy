/** The way back from a kernel interrupt handler: two stores, to sepc and to sstatus, and the return. An
    interrupt between the stores takes sepc away. */
module TrapReturn {

  /** Where a handler is: before its store to sepc, between that and its store to sstatus, before sret. */
  datatype Point = Work | Restored | Closed

  /** Where code stands: in the kernel code that was interrupted first, or in the d-th handler. */
  datatype Loc = Base | In(d: nat, at: Point)

  /** A handler keeps in a variable what sepc was when it began. */
  datatype Frame = Frame(saved: Loc, at: Point)

  /** sstatus.SIE, sepc, the handlers one on top of the other, and whether some handler has returned to
      other code than it interrupted. */
  datatype State = State(sie: bool, sepc: Loc, frames: seq<Frame>, lost: bool)

  /** An interrupt arrives; the running code, when it is no handler on its way back, turns interrupts on or
      off (a handler does so when the process it switched away from goes on); a handler goes on. */
  datatype Act = Irq | Set(on: bool) | Go

  function Top(s: State): Frame
    requires s.frames != []
  {
    s.frames[|s.frames| - 1]
  }

  function Rest(s: State): seq<Frame>
    requires s.frames != []
  {
    s.frames[..|s.frames| - 1]
  }

  function Here(s: State): Loc { if s.frames == [] then Base else In(|s.frames|, Top(s).at) }

  function Step(s: State, a: Act): State {
    match a
    case Irq => if s.sie && !s.lost then State(false, Here(s), s.frames + [Frame(Here(s), Work)], s.lost) else s
    case Set(on) => if (s.frames == [] || Top(s).at.Work?) && !s.lost then State(on, s.sepc, s.frames, s.lost) else s
    case Go =>
      if s.frames == [] || s.lost then s
      else
        match Top(s).at
        case Work => State(s.sie, Top(s).saved, Rest(s) + [Frame(Top(s).saved, Restored)], s.lost)
        case Restored => State(false, s.sepc, Rest(s) + [Frame(Top(s).saved, Closed)], s.lost)
        case Closed =>
          if s.sepc == Top(s).saved then State(true, s.sepc, Rest(s), s.lost)
          else State(true, s.sepc, s.frames, true)
  }

  function After(s: State, acts: seq<Act>): State
    decreases |acts|
  {
    if acts == [] then s else After(Step(s, acts[0]), acts[1..])
  }

  /** A handler's store to sepc comes with interrupts off. */
  predicate Careful(s: State, a: Act) { a.Go? && s.frames != [] && Top(s).at.Work? ==> !s.sie }

  predicate AllCareful(s: State, acts: seq<Act>)
    decreases |acts|
  {
    acts == [] || (Careful(s, acts[0]) && AllCareful(Step(s, acts[0]), acts[1..]))
  }

  /** Handlers below the top one have not begun their way back; the top one, when it has, cannot be
      interrupted, and sepc is its own. */
  predicate Good(s: State) {
    && !s.lost && (forall d :: 0 <= d < |s.frames| - 1 ==> s.frames[d].at.Work?)
    && (s.frames != [] && !Top(s).at.Work? ==> !s.sie && s.sepc == Top(s).saved)
  }

  lemma CarefulStep(s: State, a: Act)
    requires Good(s) && Careful(s, a)
    ensures Good(Step(s, a))
  {
  }

  lemma {:induction false} CarefulRun(s: State, acts: seq<Act>)
    requires Good(s) && AllCareful(s, acts)
    ensures Good(After(s, acts)) && !After(s, acts).lost
    decreases |acts|
  {
    if acts != [] {
      CarefulStep(s, acts[0]);
      CarefulRun(Step(s, acts[0]), acts[1..]);
    }
  }

  /** An interrupt behind the store to sepc, whose own handler is as careful as can be. */
  function Between(): seq<Act> { [Irq, Go, Go, Go, Go, Go] }

  lemma Overwritten(s: State)
    requires Good(s) && s.frames != [] && Top(s).at.Work? && s.sie && Top(s).saved != In(|s.frames|, Restored)
    ensures var t := Step(s, Go); AllCareful(t, Between()) && After(t, Between()).lost
  {
    var t0 := Step(s, Go);
    var t1 := Step(t0, Irq);
    var t2 := Step(t1, Go);
    var t3 := Step(t2, Go);
    var t4 := Step(t3, Go);
    assert Rest(t1) == t0.frames && t4.frames == t0.frames;
    assert t4.sepc == In(|s.frames|, Restored);
    var t5 := Step(t4, Go);
    assert Top(t5).saved == Top(s).saved;
    var t6 := Step(t5, Go);
    assert t6.lost;
    assert AllCareful(t0, Between()) <==> AllCareful(t1, [Go, Go, Go, Go, Go]);
    assert AllCareful(t1, [Go, Go, Go, Go, Go]) <==> AllCareful(t2, [Go, Go, Go, Go]);
    assert AllCareful(t2, [Go, Go, Go, Go]) <==> AllCareful(t3, [Go, Go, Go]) <==> AllCareful(t4, [Go, Go]);
    assert AllCareful(t4, [Go, Go]) <==> AllCareful(t5, [Go]) <==> AllCareful(t6, []);
    assert After(t0, Between()) == After(t1, [Go, Go, Go, Go, Go]) == After(t2, [Go, Go, Go, Go]);
    assert After(t2, [Go, Go, Go, Go]) == After(t3, [Go, Go, Go]) == After(t4, [Go, Go]);
    assert After(t4, [Go, Go]) == After(t5, [Go]) == After(t6, []);
  }

  /** What a handler saved is where the code below it stands. */
  predicate SavedBelow(s: State) {
    forall d :: 0 <= d < |s.frames| ==> s.frames[d].saved == Under(s.frames, d)
  }

  /** Where the code under the d-th handler stands. */
  function Under(frames: seq<Frame>, d: nat): Loc
    requires d < |frames|
  {
    if d == 0 then Base else In(d, frames[d - 1].at)
  }

  lemma SavedStep(s: State, a: Act)
    requires Good(s) && SavedBelow(s) && Careful(s, a)
    ensures SavedBelow(Step(s, a))
  {
    var t := Step(s, a);
    forall d | 0 <= d < |t.frames|
      ensures t.frames[d].saved == Under(t.frames, d)
    {
      if d < |s.frames| {
        assert s.frames[d].saved == Under(s.frames, d);
      }
    }
  }

  /** A handler that is about to store sepc, all others being careful: it and all others return to the code
      they interrupted, in every run, exactly when interrupts are off at that store. */
  lemma ReturnsExactlyWhenOff(s: State)
    requires Good(s) && SavedBelow(s) && s.frames != [] && Top(s).at.Work?
    ensures (forall acts :: AllCareful(Step(s, Go), acts) ==> !After(Step(s, Go), acts).lost) <==> !s.sie
  {
    if s.sie {
      assert s.frames[|s.frames| - 1].saved == Under(s.frames, |s.frames| - 1);
      Overwritten(s);
    } else {
      forall acts | AllCareful(Step(s, Go), acts)
        ensures !After(Step(s, Go), acts).lost
      {
        CarefulStep(s, Go);
        CarefulRun(Step(s, Go), acts);
      }
    }
  }

  /** Kernel code before its first interrupt. */
  lemma Begins(sie: bool)
    ensures Good(State(sie, Base, [], false)) && SavedBelow(State(sie, Base, [], false))
  {
  }
}
