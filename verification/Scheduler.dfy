/** The scheduler, its processes and the timer as a machine of steps. A context is a process slot
    (0 .. n) or the scheduler loop (n); it is a stack of frames, since an interrupt runs on top of
    the code it interrupts. */
module Scheduler {
  import opened Words
  import opened SpinLocks

  datatype Status = FREE | ALLOCATED | READY | RUNNING | ZOMBIE

  /** p->lock, pidlock and cons.lock. */
  datatype Lock = P(i: nat) | Pid | Cons

  /** Where a frame's code stands. */
  datatype Pc =
    // the scheduler loop
    | STop | SScan(i: nat) | STest(i: nat) | SSwtch(i: nat) | SBack(i: nat)
    // user mode, and the kernel side of a trap from it
    | User | Sys | Ret
    // interrupt handlers: timer and console, then the return from them
    | Tick(user: bool) | Input(user: bool) | InputHeld(user: bool) | Done(user: bool)
    // yield, exit and forkret
    | YAcq | YSet | YBack | XAcq | XSet | Gone | FRet
    // allocproc and fork on slot i
    | FScan(i: nat) | FTest(i: nat) | FPid(i: nat) | FPidHeld(i: nat) | FFill(i: nat) | FCopy(i: nat)
    // wait on slot i
    | WScan(i: nat, kids: bool) | WTest(i: nat, kids: bool)
    // console_read
    | CAcq | CHeld

  /** The hart: interrupt state, and the locks it holds. */
  datatype Cpu = Cpu(irq: Irq, held: set<Lock>)

  datatype Machine = Machine(
    n: nat, cpu: Cpu, cproc: Option<nat>, active: nat,
    status: seq<Status>, parent: seq<Option<nat>>, stack: seq<seq<Pc>>, times: nat)

  // ------------------------------------------------------------ primitives

  /** acquire; None is the panic. */
  function Acquire(c: Cpu, l: Lock): Option<Cpu> {
    if l in c.held then None else Some(Cpu(IrqPush(c.irq), c.held + {l}))
  }

  /** release; None is one of its panics. */
  function Release(c: Cpu, l: Lock): Option<Cpu> {
    var d := IrqPop(c.irq);
    if l !in c.held || d.None? then None else Some(Cpu(d.value, c.held - {l}))
  }

  /** myproc: push_off and pop_off. */
  function My(c: Cpu): Option<Cpu> {
    var d := IrqPop(IrqPush(c.irq));
    if d.None? then None else Some(Cpu(d.value, c.held))
  }

  function Intr(c: Cpu, on: bool): Cpu { Cpu(Irq(on, c.irq.noff, c.irq.intena), c.held) }

  /** The frame that runs. */
  function Top(m: Machine): Pc
    requires m.active < |m.stack| && m.stack[m.active] != []
  {
    var s := m.stack[m.active];
    s[|s| - 1]
  }

  function Rest(s: seq<Pc>): seq<Pc>
    requires s != []
  {
    s[..|s| - 1]
  }

  /** The machine goes on with cpu c and the running frames s. */
  function Go(m: Machine, c: Option<Cpu>, s: seq<Pc>): Option<Machine>
    requires m.active < |m.stack|
  {
    if c.None? then None
    else Some(Machine(m.n, c.value, m.cproc, m.active, m.status, m.parent, m.stack[m.active := s], m.times))
  }

  /** What Go does, with new slot data as well. */
  function GoWith(m: Machine, c: Option<Cpu>, s: seq<Pc>, status: seq<Status>,
      parent: seq<Option<nat>>): Option<Machine>
    requires m.active < |m.stack|
  {
    if c.None? then None
    else Some(Machine(m.n, c.value, m.cproc, m.active, status, parent, m.stack[m.active := s], m.times))
  }

  /** swtch: the context with frames s is left, and next goes on where it is. */
  function Swtch(m: Machine, s: seq<Pc>, status: seq<Status>, cproc: Option<nat>, next: nat): Machine
    requires m.active < |m.stack|
  {
    Machine(m.n, m.cpu, cproc, next, status, m.parent, m.stack[m.active := s], m.times)
  }

  ghost predicate Shape(m: Machine) {
    |m.status| == m.n && |m.parent| == m.n && |m.stack| == m.n + 1 && m.active <= m.n && m.stack[m.active] != []
  }

  // ----------------------------------------------------------------- steps

  /** What happens next: the running code goes on (choice says how, where it may go several ways),
      or an interrupt arrives. */
  datatype Act = Run(choice: nat) | TimerIrq | ConsoleIrq

  /** Interrupts arrive in user mode, and in the kernel exactly when SIE is set. */
  predicate Enabled(m: Machine, a: Act)
    requires m.active < |m.stack| && m.stack[m.active] != []
  {
    a.Run? || Top(m).User? || m.cpu.irq.sie
  }

  /** One step; None is a panic. */
  function Step(m: Machine, a: Act): Option<Machine>
    requires Shape(m)
  {
    match a
    case TimerIrq => Trap(m, Tick(Top(m).User?))
    case ConsoleIrq => Trap(m, Input(Top(m).User?))
    case Run(choice) =>
      if m.active == m.n && IsSched(Top(m)) then SchedStep(m)
      else if IsHandler(Top(m)) then HandlerStep(m)
      else if m.active == m.n then None
      else if Top(m).User? || Top(m).Sys? || Top(m).Ret? then TrapStep(m, choice)
      else if InFork(Top(m)) then ForkStep(m, choice)
      else if InWait(Top(m)) then WaitStep(m)
      else SwitchStep(m, choice)
  }

  /** A trap is taken with interrupts off: from user mode the kernel stack starts afresh. */
  function Trap(m: Machine, handler: Pc): Option<Machine>
    requires Shape(m)
  {
    if Top(m).User? then Go(m, My(Intr(m.cpu, false)), [handler])
    else Go(m, Some(Intr(m.cpu, false)), m.stack[m.active] + [handler])
  }

  /** scheduler(). */
  function SchedStep(m: Machine): Option<Machine>
    requires Shape(m) && m.active == m.n
  {
    var s := m.stack[m.n];
    match Top(m)
    case STop => Go(m, Some(Intr(m.cpu, true)), Rest(s) + [SScan(0)])
    case SScan(i) => if i < m.n then Go(m, Acquire(m.cpu, P(i)), Rest(s) + [STest(i)])
        else Go(m, Some(m.cpu), Rest(s) + [STop])
    case STest(i) =>
      if i >= m.n then None
      else if m.status[i] != READY then Go(m, Release(m.cpu, P(i)), Rest(s) + [SScan(i + 1)])
      else Some(Swtch(m, Rest(s) + [SSwtch(i)], m.status[i := RUNNING], Some(i), i))
    case SBack(i) =>
      var c := Release(m.cpu, P(i));
      if c.None? then None
      else
        Some(Machine(m.n, c.value, None, m.active, m.status, m.parent,
                     m.stack[m.n := Rest(s) + [SScan(i + 1)]], m.times))
    case _ => None
  }

  /** handle_timer_interrupt, console_intr, and the way back from a handler. */
  function HandlerStep(m: Machine): Option<Machine>
    requires Shape(m)
  {
    var s := m.stack[m.active];
    match Top(m)
    case Tick(u) =>
      var t := if m.times + 1 == 10 then 0 else m.times + 1;
      var m' := Machine(m.n, m.cpu, m.cproc, m.active, m.status, m.parent, m.stack, t);
      if m.times + 1 != 10 then Go(m', Some(m.cpu), Rest(s) + [Done(u)])
      else
        var c := My(m.cpu);
        if c.None? then None
        else if m.cproc.None? || m.cproc.value >= m.n then Go(m', c, Rest(s) + [Done(u)])
        else if m.status[m.cproc.value] == RUNNING then Go(m', My(c.value), Rest(s) + [Done(u), YAcq])
        else Go(m', My(c.value), Rest(s) + [Done(u)])
    case Input(u) => Go(m, Acquire(m.cpu, Cons), Rest(s) + [InputHeld(u)])
    case InputHeld(u) => Go(m, Release(m.cpu, Cons), Rest(s) + [Done(u)])
    case Done(u) => if u then Go(m, Some(m.cpu), Rest(s) + [Ret]) else Go(m, Some(Intr(m.cpu, true)), Rest(s))
    case _ => None
  }

  /** User mode, the system call dispatcher and usertrapret. */
  function TrapStep(m: Machine, choice: nat): Option<Machine>
    requires Shape(m)
  {
    var s := m.stack[m.active];
    match Top(m)
    case User =>
      if choice == 0 then
        var c := My(Intr(m.cpu, false));
        if c.None? then None else Go(m, Some(Intr(c.value, true)), [Sys])
      else Some(m)
    case Sys =>
      if choice == 0 then Go(m, Some(m.cpu), Rest(s) + [Ret])
      else if choice == 1 then Go(m, Some(m.cpu), s + [YAcq])
      else if choice == 2 then Go(m, Some(m.cpu), Rest(s) + [XAcq])
      else if choice == 3 then Go(m, My(m.cpu), s + [FScan(0)])
      else if choice == 4 then Go(m, My(m.cpu), s + [WScan(0, false)])
      else Go(m, My(m.cpu), s + [CAcq])
    case Ret =>
      var c := My(m.cpu);
      if c.None? then None else Go(m, Some(Intr(Intr(c.value, false), true)), [User])
    case _ => None
  }

  /** yield, exit, forkret and console_read. */
  function SwitchStep(m: Machine, choice: nat): Option<Machine>
    requires Shape(m) && m.active < m.n
  {
    var s, i := m.stack[m.active], m.active;
    match Top(m)
    case YAcq =>
      var c := My(m.cpu);
      if c.None? then None else Go(m, Acquire(c.value, P(i)), Rest(s) + [YSet])
    case YSet => ToScheduler(m, Rest(s) + [YBack], READY)
    case YBack => Go(m, Release(m.cpu, P(i)), Rest(s))
    case XAcq =>
      var c := My(m.cpu);
      if c.None? then None else Go(m, Acquire(c.value, P(i)), Rest(s) + [XSet])
    case XSet =>
      // printf reads myproc()->pid
      var c := My(m.cpu);
      if c.None? then None
      else
        ToScheduler(Machine(m.n, c.value, m.cproc, m.active, m.status, m.parent, m.stack, m.times),
                    Rest(s) + [Gone], ZOMBIE)
    case FRet =>
      var c := My(m.cpu);
      if c.None? then None else Go(m, Release(c.value, P(i)), Rest(s) + [Ret])
    case CAcq => if choice == 0 then Go(m, Some(m.cpu), Rest(s)) else Go(m, Acquire(m.cpu, Cons), Rest(s) + [CHeld])
    case CHeld => Go(m, Release(m.cpu, Cons), Rest(s) + [CAcq])
    case _ => None
  }

  /** swtch from a process: the scheduler wakes behind its own swtch. */
  function ToScheduler(m: Machine, s: seq<Pc>, st: Status): Option<Machine>
    requires Shape(m) && m.active < m.n
  {
    var t := m.stack[m.n];
    if t == [] || t[|t| - 1] != SSwtch(m.active) then None
    else
      var m' := Swtch(m, s, m.status[m.active := st], m.cproc, m.n);
      Some(Machine(m'.n, m'.cpu, m'.cproc, m'.active, m'.status, m'.parent,
                   m'.stack[m.n := Rest(t) + [SBack(m.active)]], m'.times))
  }

  /** allocproc and kfork. A choice of 0 is a failed allocation of the trapframe. */
  function ForkStep(m: Machine, choice: nat): Option<Machine>
    requires Shape(m) && m.active < m.n
  {
    var s := m.stack[m.active];
    match Top(m)
    case FScan(i) => if i < m.n then Go(m, Acquire(m.cpu, P(i)), Rest(s) + [FTest(i)]) else Go(m, Some(m.cpu), Rest(s))
    case FTest(i) =>
      if i >= m.n then None
      else if m.status[i] == FREE then Go(m, Some(m.cpu), Rest(s) + [FPid(i)])
      else Go(m, Release(m.cpu, P(i)), Rest(s) + [FScan(i + 1)])
    case FPid(i) => Go(m, Acquire(m.cpu, Pid), Rest(s) + [FPidHeld(i)])
    case FPidHeld(i) => Go(m, Release(m.cpu, Pid), Rest(s) + [FFill(i)])
    case FFill(i) =>
      if i >= m.n then None
      else if choice == 0 then GoWith(m, Release(m.cpu, P(i)), Rest(s), m.status[i := FREE], m.parent)
      else GoWith(m, Some(m.cpu), Rest(s) + [FCopy(i)], m.status[i := ALLOCATED], m.parent)
    case FCopy(i) =>
      if i >= m.n then None
      else
        var m' := Machine(m.n, m.cpu, m.cproc, m.active, m.status, m.parent, m.stack[i := [FRet]], m.times);
        GoWith(m', Release(m.cpu, P(i)), Rest(s), m.status[i := READY], m.parent[i := Some(m.active)])
    case _ => None
  }

  /** kwait. */
  function WaitStep(m: Machine): Option<Machine>
    requires Shape(m) && m.active < m.n
  {
    var s := m.stack[m.active];
    match Top(m)
    case WScan(i, kids) =>
      if i < m.n then Go(m, Acquire(m.cpu, P(i)), Rest(s) + [WTest(i, kids)])
      else if kids then Go(m, Some(m.cpu), Rest(s) + [WScan(0, false)])
      else Go(m, Some(m.cpu), Rest(s))
    case WTest(i, kids) =>
      if i >= m.n then None
      else if m.parent[i] != Some(m.active) then Go(m, Release(m.cpu, P(i)), Rest(s) + [WScan(i + 1, kids)])
      else if m.status[i] != ZOMBIE then Go(m, Release(m.cpu, P(i)), Rest(s) + [WScan(i + 1, true)])
      else
        var m' := Machine(m.n, m.cpu, m.cproc, m.active, m.status, m.parent, m.stack[i := []], m.times);
        GoWith(m', Release(m.cpu, P(i)), Rest(s), m.status[i := FREE], m.parent[i := None])
    case _ => None
  }

  // ------------------------------------------------------------- invariant

  /** The locks that the code at a point of context c holds. */
  function Locks(c: nat, pc: Pc): set<Lock> {
    match pc
    case STest(i) => {P(i)}
    case SSwtch(i) => {P(i)}
    case SBack(i) => {P(i)}
    case InputHeld(_) => {Cons}
    case YSet => {P(c)}
    case YBack => {P(c)}
    case XSet => {P(c)}
    case Gone => {P(c)}
    case FRet => {P(c)}
    case FTest(i) => {P(i)}
    case FPid(i) => {P(i)}
    case FPidHeld(i) => {P(i), Pid}
    case FFill(i) => {P(i)}
    case FCopy(i) => {P(i)}
    case WTest(i, _) => {P(i)}
    case CHeld => {Cons}
    case _ => {}
  }

  predicate IsSched(pc: Pc) { pc.STop? || pc.SScan? || pc.STest? || pc.SSwtch? || pc.SBack? }

  predicate InFork(pc: Pc) { pc.FScan? || pc.FTest? || pc.FPid? || pc.FPidHeld? || pc.FFill? || pc.FCopy? }

  predicate InWait(pc: Pc) { pc.WScan? || pc.WTest? }

  predicate IsHandler(pc: Pc) { pc.Tick? || pc.Input? || pc.InputHeld? || pc.Done? }

  /** Code at the bottom of a kernel stack, and code called or interrupting on top of other code. */
  predicate IsBottom(pc: Pc) {
    pc.User? || pc.Sys? || pc.Ret? || pc.XAcq? || pc.XSet? || pc.Gone? || pc.FRet? || (IsHandler(pc) && pc.user)
  }

  predicate IsCallee(pc: Pc) {
    || pc.YAcq? || pc.YSet? || pc.YBack?
    || pc.FScan? || pc.FTest? || pc.FPid? || pc.FPidHeld? || pc.FFill? || pc.FCopy?
    || pc.WScan? || pc.WTest? || pc.CAcq? || pc.CHeld?
    || (IsHandler(pc) && !pc.user)
  }

  /** The hart holds exactly the locks of the running code, noff counts them, and interrupts are on
      only when there are none. */
  ghost predicate CpuOk(c: Cpu, ctx: nat, pc: Pc) {
    c.held == Locks(ctx, pc) && c.irq.noff == |c.held| && (c.irq.sie ==> c.irq.noff == 0)
  }

  /** The frames of a stack are of the right kinds, and only the top one may hold locks. */
  ghost predicate StackOk(s: seq<Pc>, ctx: nat, sched: bool) {
    && (forall k :: 0 <= k < |s| - 1 ==> Locks(ctx, s[k]) == {})
    && (sched ==> s != [])
    && forall k :: 0 <= k < |s| ==> KindOk(s[k], k, sched)
  }

  predicate KindOk(pc: Pc, k: nat, sched: bool) {
    if sched then (if k == 0 then IsSched(pc) else IsHandler(pc) && !pc.user)
    else if k == 0 then IsBottom(pc) else IsCallee(pc) && (k > 1 ==> pc.YAcq? || pc.YSet? || pc.YBack? || IsHandler(pc))
  }

  /** What the running code at pc knows about the slots. */
  ghost predicate PcOk(m: Machine, pc: Pc)
    requires |m.status| == m.n
  {
    match pc
    case STest(i) => i < m.n
    case SSwtch(_) => false
    case SBack(i) => i < m.n && (m.status[i] == READY || m.status[i] == ZOMBIE)
    case Gone => false
    case FTest(i) => i < m.n
    case FPid(i) => i < m.n && m.status[i] == FREE
    case FPidHeld(i) => i < m.n && m.status[i] == FREE
    case FFill(i) => i < m.n && m.status[i] == FREE
    case FCopy(i) => i < m.n && m.status[i] == ALLOCATED && i != m.active
    case WTest(i, _) => i < m.n
    case _ => true
  }

  /** A slot that does not run is where its status says. */
  ghost predicate SlotOk(m: Machine, i: nat)
    requires Shape(m) && i < m.n
  {
    && StackOk(m.stack[i], i, false)
    && (i == m.active ==> m.status[i] == RUNNING && m.cproc == Some(i))
    && (i != m.active ==>
          && m.status[i] != RUNNING
          && (m.status[i] == READY ==>
                m.stack[i] != [] && (m.stack[i][|m.stack[i]| - 1] == YBack || m.stack[i][|m.stack[i]| - 1] == FRet))
          && (m.status[i] == ZOMBIE ==> m.stack[i] != [] && m.stack[i][|m.stack[i]| - 1] == Gone)
          && (m.status[i] == ALLOCATED ==> m.active < m.n && Top(m) == FCopy(i)))
  }

  /** While a process runs the scheduler waits behind its swtch to it; else no process is current,
      but in the moment between swtch and c->proc = 0. */
  ghost predicate SchedOk(m: Machine)
    requires Shape(m)
  {
    && StackOk(m.stack[m.n], m.n, true)
    && (m.active < m.n ==> m.stack[m.n] == [SSwtch(m.active)])
    && (m.active == m.n ==> m.cproc == if Top(m).SBack? then Some(Top(m).i) else None)
  }

  ghost predicate Inv(m: Machine) {
    && Shape(m) && CpuOk(m.cpu, m.active, Top(m)) && PcOk(m, Top(m)) && SchedOk(m)
    && forall i :: 0 <= i < m.n ==> SlotOk(m, i)
  }

  // --------------------------------------------------- locks, one at a time

  lemma AcquireOk(c: Cpu, ctx: nat, pc: Pc, l: Lock, pc': Pc)
    requires CpuOk(c, ctx, pc) && l !in Locks(ctx, pc) && Locks(ctx, pc') == Locks(ctx, pc) + {l}
    ensures Acquire(c, l).Some? && CpuOk(Acquire(c, l).value, ctx, pc')
  {
    hide Locks;
  }

  lemma ReleaseOk(c: Cpu, ctx: nat, pc: Pc, l: Lock, pc': Pc)
    requires CpuOk(c, ctx, pc) && l in Locks(ctx, pc) && Locks(ctx, pc') == Locks(ctx, pc) - {l}
    ensures Release(c, l).Some? && CpuOk(Release(c, l).value, ctx, pc')
  {
    hide Locks;
    assert |c.held - {l}| == |c.held| - 1;
  }

  lemma MyOk(c: Cpu, ctx: nat, pc: Pc)
    requires CpuOk(c, ctx, pc)
    ensures My(c).Some? && CpuOk(My(c).value, ctx, pc)
  {
    hide Locks;
  }

  // ---------------------------------------------------------- moving frames

  /** The machine goes on with cpu c, frames s and the timer count t. */
  function GoneOn(m: Machine, c: Cpu, s: seq<Pc>, t: nat): Machine
    requires m.active < |m.stack|
  {
    Machine(m.n, c, m.cproc, m.active, m.status, m.parent, m.stack[m.active := s], t)
  }

  /** The frames that replace the running ones are in order. */
  ghost predicate FramesOk(m: Machine, c: Cpu, s: seq<Pc>)
    requires Shape(m)
  {
    && s != [] && StackOk(s, m.active, m.active == m.n) && CpuOk(c, m.active, s[|s| - 1])
    && (m.active == m.n ==> !s[|s| - 1].SBack? && !s[|s| - 1].SSwtch?)
  }

  /** Going on in the same context, with the slots as they are. */
  lemma GoOk(m: Machine, c: Cpu, s: seq<Pc>, t: nat)
    requires Inv(m) && FramesOk(m, c, s) && PcOk(m, s[|s| - 1])
    requires !Top(m).FCopy? && !Top(m).SBack?
    ensures Inv(GoneOn(m, c, s, t))
  {
    hide Locks, CpuOk, StackOk, PcOk;
    var m' := GoneOn(m, c, s, t);
    assert Top(m') == s[|s| - 1];
    assert PcOk(m', Top(m')) by { PcKept(m, m', Top(m')); }
    forall i | 0 <= i < m.n
      ensures SlotOk(m', i)
    {
      assert SlotOk(m, i);
    }
  }

  lemma PcKept(m: Machine, m': Machine, pc: Pc)
    requires |m.status| == m.n && PcOk(m, pc) && m'.n == m.n && m'.status == m.status && m'.active == m.active
    ensures PcOk(m', pc)
  {
  }

  /** The top frame moves on. */
  lemma NextOk(s: seq<Pc>, ctx: nat, sched: bool, pc: Pc)
    requires StackOk(s, ctx, sched) && s != [] && KindOk(pc, |s| - 1, sched)
    ensures StackOk(Rest(s) + [pc], ctx, sched)
  {
    hide Locks, KindOk;
  }

  /** The top frame, holding nothing, calls or is interrupted by another. */
  lemma CallOk(s: seq<Pc>, ctx: nat, sched: bool, pc: Pc)
    requires StackOk(s, ctx, sched) && s != [] && Locks(ctx, s[|s| - 1]) == {} && KindOk(pc, |s|, sched)
    ensures StackOk(s + [pc], ctx, sched)
  {
    hide Locks, KindOk;
  }

  /** The top frame returns; its caller holds nothing. */
  lemma ReturnOk(s: seq<Pc>, ctx: nat, sched: bool)
    requires StackOk(s, ctx, sched) && |s| > 1
    ensures StackOk(Rest(s), ctx, sched) && Rest(s) != [] && Locks(ctx, Rest(s)[|s| - 2]) == {}
    ensures KindOk(Rest(s)[|s| - 2], |s| - 2, sched)
  {
    hide Locks, KindOk;
  }

  /** What the invariant says of the code that runs. */
  lemma TopKind(m: Machine)
    requires Inv(m)
    ensures Shape(m) && KindOk(Top(m), |m.stack[m.active]| - 1, m.active == m.n)
    ensures StackOk(m.stack[m.active], m.active, m.active == m.n)
    ensures CpuOk(m.cpu, m.active, Top(m)) && PcOk(m, Top(m))
  {
    hide Locks, KindOk, CpuOk, PcOk;
    if m.active < m.n {
      assert SlotOk(m, m.active);
    }
  }

  /** Code that may stand under other code holds no lock and claims nothing. */
  lemma Waiting(m: Machine, pc: Pc, k: nat, ctx: nat, sched: bool)
    requires |m.status| == m.n && KindOk(pc, k, sched) && Locks(ctx, pc) == {}
    ensures PcOk(m, pc) && !pc.SBack? && !pc.SSwtch?
  {
  }

  /** Moving to pc with the locks of pc. */
  lemma Move(m: Machine, c: Cpu, pc: Pc, t: nat)
    requires Inv(m) && !Top(m).FCopy? && !Top(m).SBack? && CpuOk(c, m.active, pc)
    requires KindOk(pc, |m.stack[m.active]| - 1, m.active == m.n) && PcOk(m, pc) && !pc.SBack? && !pc.SSwtch?
    ensures Inv(GoneOn(m, c, Rest(m.stack[m.active]) + [pc], t))
  {
    hide Inv, Locks, CpuOk, StackOk, PcOk, KindOk;
    TopKind(m);
    NextOk(m.stack[m.active], m.active, m.active == m.n, pc);
    GoOk(m, c, Rest(m.stack[m.active]) + [pc], t);
  }

  lemma MoveAcquire(m: Machine, c: Cpu, l: Lock, pc: Pc)
    requires Inv(m) && !Top(m).FCopy? && !Top(m).SBack? && CpuOk(c, m.active, Top(m))
    requires l !in Locks(m.active, Top(m)) && Locks(m.active, pc) == Locks(m.active, Top(m)) + {l}
    requires KindOk(pc, |m.stack[m.active]| - 1, m.active == m.n) && PcOk(m, pc) && !pc.SBack? && !pc.SSwtch?
    ensures Acquire(c, l).Some? && Inv(GoneOn(m, Acquire(c, l).value, Rest(m.stack[m.active]) + [pc], m.times))
  {
    hide Inv, Locks, CpuOk, StackOk, PcOk, KindOk, Acquire;
    TopKind(m);
    AcquireOk(c, m.active, Top(m), l, pc);
    Move(m, Acquire(c, l).value, pc, m.times);
  }

  lemma MoveRelease(m: Machine, c: Cpu, l: Lock, pc: Pc)
    requires Inv(m) && !Top(m).FCopy? && !Top(m).SBack? && CpuOk(c, m.active, Top(m))
    requires l in Locks(m.active, Top(m)) && Locks(m.active, pc) == Locks(m.active, Top(m)) - {l}
    requires KindOk(pc, |m.stack[m.active]| - 1, m.active == m.n) && PcOk(m, pc) && !pc.SBack? && !pc.SSwtch?
    ensures Release(c, l).Some? && Inv(GoneOn(m, Release(c, l).value, Rest(m.stack[m.active]) + [pc], m.times))
  {
    hide Inv, Locks, CpuOk, StackOk, PcOk, KindOk, Release;
    TopKind(m);
    ReleaseOk(c, m.active, Top(m), l, pc);
    Move(m, Release(c, l).value, pc, m.times);
  }

  /** The frames under the top one can go on, once the top one's locks are released. */
  lemma CallerOk(m: Machine)
    requires Inv(m) && |m.stack[m.active]| > 1
    ensures Shape(m)
    ensures var s := Rest(m.stack[m.active]);
            && s != [] && StackOk(s, m.active, m.active == m.n) && Locks(m.active, s[|s| - 1]) == {}
            && PcOk(m, s[|s| - 1]) && !s[|s| - 1].SBack? && !s[|s| - 1].SSwtch?
  {
    hide Inv, Locks, CpuOk, StackOk, PcOk, KindOk;
    TopKind(m);
    var s := m.stack[m.active];
    ReturnOk(s, m.active, m.active == m.n);
    Waiting(m, Rest(s)[|s| - 2], |s| - 2, m.active, m.active == m.n);
  }

  /** Returning, holding nothing, with interrupts as c has them. */
  lemma Leave(m: Machine, c: Cpu)
    requires Inv(m) && !Top(m).FCopy? && !Top(m).SBack? && |m.stack[m.active]| > 1
    requires CpuOk(c, m.active, Top(m)) && Locks(m.active, Top(m)) == {}
    ensures Inv(GoneOn(m, c, Rest(m.stack[m.active]), m.times))
  {
    hide Inv, Locks, StackOk, PcOk, KindOk;
    CallerOk(m);
    GoOk(m, c, Rest(m.stack[m.active]), m.times);
  }

  /** Returning with the release of the one lock held. */
  lemma LeaveRelease(m: Machine, l: Lock)
    requires Inv(m) && |m.stack[m.active]| > 1 && Locks(m.active, Top(m)) == {l}
    ensures Release(m.cpu, l).Some? && FramesOk(m, Release(m.cpu, l).value, Rest(m.stack[m.active]))
    ensures !Top(m).FCopy? && !Top(m).SBack? ==>
              Inv(GoneOn(m, Release(m.cpu, l).value, Rest(m.stack[m.active]), m.times))
  {
    hide Inv, Locks, CpuOk, StackOk, PcOk, KindOk, Release;
    TopKind(m);
    CallerOk(m);
    var s := Rest(m.stack[m.active]);
    ReleaseOk(m.cpu, m.active, Top(m), l, s[|s| - 1]);
    if !Top(m).FCopy? && !Top(m).SBack? {
      GoOk(m, Release(m.cpu, l).value, s, m.times);
    }
  }

  /** Where interrupts can arrive, no lock is held. */
  lemma NoLocksOpen(m: Machine)
    requires Inv(m) && (Top(m).User? || m.cpu.irq.sie)
    ensures Locks(m.active, Top(m)) == {} && m.cpu.held == {} && m.cpu.irq.noff == 0
  {
  }

  // ------------------------------------------------------------- the steps

  lemma TrapInv(m: Machine, h: Pc)
    requires Inv(m) && (Top(m).User? || m.cpu.irq.sie) && (h == Tick(Top(m).User?) || h == Input(Top(m).User?))
    ensures Trap(m, h).Some? && Inv(Trap(m, h).value)
  {
    hide Inv, StackOk;
    TopKind(m);
    NoLocksOpen(m);
    var c := Intr(m.cpu, false);
    if Top(m).User? {
      MyOk(c, m.active, h);
      OneFrame(m.active, h, false);
      GoOk(m, My(c).value, [h], m.times);
    } else {
      CallOk(m.stack[m.active], m.active, m.active == m.n, h);
      GoOk(m, c, m.stack[m.active] + [h], m.times);
    }
  }

  lemma OneFrame(ctx: nat, pc: Pc, sched: bool)
    requires KindOk(pc, 0, sched)
    ensures StackOk([pc], ctx, sched)
  {
  }

  lemma TickInv(m: Machine)
    requires Inv(m) && Top(m).Tick?
    ensures HandlerStep(m).Some? && Inv(HandlerStep(m).value)
  {
    hide Inv, StackOk;
    TopKind(m);
    var u := Top(m).user;
    var t := if m.times + 1 == 10 then 0 else m.times + 1;
    MyOk(m.cpu, m.active, Tick(u));
    var c := My(m.cpu).value;
    MyOk(c, m.active, Tick(u));
    if m.times + 1 != 10 {
      Move(m, m.cpu, Done(u), t);
    } else if m.active == m.n {
      NoProcess(m);
      Move(m, c, Done(u), t);
    } else {
      TickYield(m, My(c).value);
    }
  }

  lemma NoProcess(m: Machine)
    requires Inv(m)
    ensures Shape(m)
    ensures m.active == m.n && !Top(m).SBack? ==> m.cproc == None
    ensures m.active < m.n ==> m.cproc == Some(m.active) && m.status[m.active] == RUNNING
  {
    hide Locks, CpuOk, StackOk, PcOk;
    if m.active < m.n {
      assert SlotOk(m, m.active);
    }
  }

  /** The tenth tick of a running process: the handler calls yield. */
  lemma TickYield(m: Machine, c: Cpu)
    requires Inv(m) && Top(m).Tick? && m.active < m.n && m.times + 1 == 10 && CpuOk(c, m.active, Top(m))
    requires My(m.cpu).Some? && My(My(m.cpu).value) == Some(c)
    ensures HandlerStep(m).Some? && Inv(HandlerStep(m).value)
    ensures HandlerStep(m).value.active == m.active && Top(HandlerStep(m).value) == YAcq
    ensures HandlerStep(m).value.times == 0
  {
    hide Inv, StackOk, My;
    TopKind(m);
    NoProcess(m);
    var s, u := m.stack[m.active], Top(m).user;
    NextOk(s, m.active, false, Done(u));
    CallOk(Rest(s) + [Done(u)], m.active, false, YAcq);
    assert Rest(s) + [Done(u), YAcq] == Rest(s) + [Done(u)] + [YAcq];
    GoOk(m, c, Rest(s) + [Done(u), YAcq], 0);
  }

  lemma InputInv(m: Machine)
    requires Inv(m) && (Top(m).Input? || Top(m).InputHeld?)
    ensures HandlerStep(m).Some? && Inv(HandlerStep(m).value)
  {
    hide Inv, StackOk, CpuOk, Acquire, Release;
    TopKind(m);
    if Top(m).Input? {
      MoveAcquire(m, m.cpu, Cons, InputHeld(Top(m).user));
    } else {
      MoveRelease(m, m.cpu, Cons, Done(Top(m).user));
    }
  }

  lemma DoneInv(m: Machine)
    requires Inv(m) && Top(m).Done?
    ensures HandlerStep(m).Some? && Inv(HandlerStep(m).value)
  {
    hide Inv, StackOk;
    TopKind(m);
    if Top(m).user {
      Move(m, m.cpu, Ret, m.times);
    } else {
      Leave(m, Intr(m.cpu, true));
    }
  }

  lemma UserInv(m: Machine, choice: nat)
    requires Inv(m) && m.active < m.n && (Top(m).User? || Top(m).Ret?)
    ensures TrapStep(m, choice).Some? && Inv(TrapStep(m, choice).value)
  {
    hide Inv, StackOk;
    TopKind(m);
    var i := m.active;
    if Top(m).Ret? {
      MyOk(m.cpu, i, Ret);
      OneFrame(i, User, false);
      GoOk(m, Intr(Intr(My(m.cpu).value, false), true), [User], m.times);
    } else if choice == 0 {
      NoLocksOpen(m);
      MyOk(Intr(m.cpu, false), i, Sys);
      OneFrame(i, Sys, false);
      GoOk(m, Intr(My(Intr(m.cpu, false)).value, true), [Sys], m.times);
    }
  }

  lemma SysInv(m: Machine, choice: nat)
    requires Inv(m) && m.active < m.n && Top(m).Sys?
    ensures TrapStep(m, choice).Some? && Inv(TrapStep(m, choice).value)
  {
    hide Inv, StackOk, My;
    TopKind(m);
    if choice == 0 {
      Move(m, m.cpu, Ret, m.times);
    } else if choice == 2 {
      Move(m, m.cpu, XAcq, m.times);
    } else {
      var pc := if choice == 1 then YAcq else if choice == 3 then FScan(0) else if choice == 4 then WScan(0, false)
          else CAcq;
      SysCall(m, choice, pc);
    }
  }

  lemma SysCall(m: Machine, choice: nat, pc: Pc)
    requires Inv(m) && m.active < m.n && Top(m).Sys? && choice != 0 && choice != 2
    requires pc == if choice == 1 then YAcq else if choice == 3 then FScan(0)
               else if choice == 4 then WScan(0, false) else CAcq
    ensures TrapStep(m, choice).Some? && Inv(TrapStep(m, choice).value)
  {
    hide Inv, StackOk, My;
    TopKind(m);
    MyOk(m.cpu, m.active, Sys);
    CallOk(m.stack[m.active], m.active, false, pc);
    GoOk(m, if choice == 1 then m.cpu else My(m.cpu).value, m.stack[m.active] + [pc], m.times);
  }

  lemma YieldInv(m: Machine, choice: nat)
    requires Inv(m) && m.active < m.n && (Top(m).YAcq? || Top(m).YBack?)
    ensures SwitchStep(m, choice).Some? && Inv(SwitchStep(m, choice).value)
  {
    hide Inv, StackOk, CpuOk, Acquire, Release, My;
    TopKind(m);
    if Top(m).YAcq? {
      MyOk(m.cpu, m.active, YAcq);
      MoveAcquire(m, My(m.cpu).value, P(m.active), YSet);
    } else {
      LeaveRelease(m, P(m.active));
    }
  }

  lemma EdgeInv(m: Machine, choice: nat)
    requires Inv(m) && m.active < m.n && (Top(m).XAcq? || Top(m).FRet?)
    ensures SwitchStep(m, choice).Some? && Inv(SwitchStep(m, choice).value)
  {
    hide Inv, StackOk, CpuOk, Acquire, Release, My;
    TopKind(m);
    MyOk(m.cpu, m.active, Top(m));
    if Top(m).XAcq? {
      MoveAcquire(m, My(m.cpu).value, P(m.active), XSet);
    } else {
      MoveRelease(m, My(m.cpu).value, P(m.active), Ret);
    }
  }

  lemma ConsoleInv(m: Machine, choice: nat)
    requires Inv(m) && m.active < m.n && (Top(m).CAcq? || Top(m).CHeld?)
    ensures SwitchStep(m, choice).Some? && Inv(SwitchStep(m, choice).value)
  {
    hide Inv, StackOk, CpuOk, Acquire, Release;
    TopKind(m);
    if Top(m).CHeld? {
      MoveRelease(m, m.cpu, Cons, CAcq);
    } else if choice == 0 {
      Leave(m, m.cpu);
    } else {
      MoveAcquire(m, m.cpu, Cons, CHeld);
    }
  }

  lemma WaitScanInv(m: Machine)
    requires Inv(m) && m.active < m.n && Top(m).WScan?
    ensures WaitStep(m).Some? && Inv(WaitStep(m).value)
  {
    hide Inv, StackOk, CpuOk, Acquire, Release;
    TopKind(m);
    var i, kids := Top(m).i, Top(m).kids;
    if i < m.n {
      MoveAcquire(m, m.cpu, P(i), WTest(i, kids));
    } else if kids {
      KeepCpu(m.cpu, m.active, WScan(i, kids), WScan(0, false));
      Move(m, m.cpu, WScan(0, false), m.times);
    } else {
      Leave(m, m.cpu);
    }
  }

  lemma KeepCpu(c: Cpu, ctx: nat, pc: Pc, pc': Pc)
    requires CpuOk(c, ctx, pc) && Locks(ctx, pc) == Locks(ctx, pc')
    ensures CpuOk(c, ctx, pc')
  {
  }

  lemma WaitTestInv(m: Machine)
    requires Inv(m) && m.active < m.n && Top(m).WTest?
    ensures WaitStep(m).Some? && Inv(WaitStep(m).value)
  {
    hide Inv, StackOk, CpuOk, Release, FramesOk;
    TopKind(m);
    var i, kids := Top(m).i, Top(m).kids;
    if m.parent[i] == Some(m.active) && m.status[i] == ZOMBIE {
      LeaveRelease(m, P(i));
      ReapInv(m, i, Release(m.cpu, P(i)).value);
    } else {
      MoveRelease(m, m.cpu, P(i), WScan(i + 1, kids || m.parent[i] == Some(m.active)));
    }
  }

  /** freeproc of a zombie: it does not run, and nothing else changes. */
  lemma ReapInv(m: Machine, i: nat, c: Cpu)
    requires Inv(m) && m.active < m.n && Top(m).WTest? && i < m.n && m.status[i] == ZOMBIE
    requires FramesOk(m, c, Rest(m.stack[m.active])) && |m.stack[m.active]| > 1
    ensures i != m.active
    ensures Inv(Machine(m.n, c, m.cproc, m.active, m.status[i := FREE], m.parent[i := None],
                        m.stack[i := []][m.active := Rest(m.stack[m.active])], m.times))
  {
    assert SlotOk(m, m.active);
    hide Locks, CpuOk, StackOk;
    var m' := Machine(m.n, c, m.cproc, m.active, m.status[i := FREE], m.parent[i := None],
                      m.stack[i := []][m.active := Rest(m.stack[m.active])], m.times);
    EmptyOk(i);
    forall j | 0 <= j < m.n
      ensures SlotOk(m', j)
    {
      assert SlotOk(m, j);
    }
  }

  lemma EmptyOk(i: nat)
    ensures StackOk([], i, false)
  {
  }

  // ------------------------------------------------------------------ fork

  lemma ForkScanInv(m: Machine, choice: nat)
    requires Inv(m) && m.active < m.n && (Top(m).FScan? || Top(m).FTest?)
    ensures ForkStep(m, choice).Some? && Inv(ForkStep(m, choice).value)
  {
    hide Inv, StackOk, CpuOk, Acquire, Release;
    TopKind(m);
    var i := Top(m).i;
    if Top(m).FScan? {
      if i < m.n {
        MoveAcquire(m, m.cpu, P(i), FTest(i));
      } else {
        Leave(m, m.cpu);
      }
    } else if m.status[i] == FREE {
      KeepCpu(m.cpu, m.active, FTest(i), FPid(i));
      Move(m, m.cpu, FPid(i), m.times);
    } else {
      MoveRelease(m, m.cpu, P(i), FScan(i + 1));
    }
  }

  lemma ForkPidInv(m: Machine, choice: nat)
    requires Inv(m) && m.active < m.n && (Top(m).FPid? || Top(m).FPidHeld?)
    ensures ForkStep(m, choice).Some? && Inv(ForkStep(m, choice).value)
  {
    hide Inv, StackOk, CpuOk, Acquire, Release;
    TopKind(m);
    var i := Top(m).i;
    if Top(m).FPid? {
      MoveAcquire(m, m.cpu, Pid, FPidHeld(i));
    } else {
      MoveRelease(m, m.cpu, Pid, FFill(i));
    }
  }

  /** A slot that is being filled is nobody's yet. */
  lemma FillInv(m: Machine, choice: nat)
    requires Inv(m) && m.active < m.n && Top(m).FFill?
    ensures ForkStep(m, choice).Some? && Inv(ForkStep(m, choice).value)
  {
    hide Inv, StackOk, CpuOk, Release, FramesOk;
    TopKind(m);
    var i := Top(m).i;
    if choice == 0 {
      LeaveRelease(m, P(i));
      assert m.status[i := FREE] == m.status;
    } else {
      NextOk(m.stack[m.active], m.active, false, FCopy(i));
      AllocInv(m, i);
    }
  }

  lemma AllocInv(m: Machine, i: nat)
    requires Inv(m) && m.active < m.n && Top(m) == FFill(i)
    requires StackOk(Rest(m.stack[m.active]) + [FCopy(i)], m.active, false)
    ensures i < m.n
    ensures Inv(Machine(m.n, m.cpu, m.cproc, m.active, m.status[i := ALLOCATED], m.parent,
                        m.stack[m.active := Rest(m.stack[m.active]) + [FCopy(i)]], m.times))
  {
    var m' := Machine(m.n, m.cpu, m.cproc, m.active, m.status[i := ALLOCATED], m.parent,
                      m.stack[m.active := Rest(m.stack[m.active]) + [FCopy(i)]], m.times);
    assert SlotOk(m, m.active);
    assert CpuOk(m'.cpu, m'.active, Top(m'));
    hide Locks, CpuOk, StackOk;
    forall j | 0 <= j < m.n
      ensures SlotOk(m', j)
    {
      assert SlotOk(m, j);
    }
  }

  lemma CopyInv(m: Machine, choice: nat)
    requires Inv(m) && m.active < m.n && Top(m).FCopy?
    ensures ForkStep(m, choice).Some? && Inv(ForkStep(m, choice).value)
  {
    hide Inv, StackOk, CpuOk, Release, FramesOk;
    TopKind(m);
    var i := Top(m).i;
    LeaveRelease(m, P(i));
    ReadyInv(m, i, Release(m.cpu, P(i)).value);
  }

  /** The child becomes ready: it will start in forkret. */
  lemma ReadyInv(m: Machine, i: nat, c: Cpu)
    requires Inv(m) && m.active < m.n && Top(m) == FCopy(i)
    requires FramesOk(m, c, Rest(m.stack[m.active])) && |m.stack[m.active]| > 1
    ensures i < m.n
    ensures Inv(Machine(m.n, c, m.cproc, m.active, m.status[i := READY], m.parent[i := Some(m.active)],
                        m.stack[i := [FRet]][m.active := Rest(m.stack[m.active])], m.times))
  {
    var m' := Machine(m.n, c, m.cproc, m.active, m.status[i := READY], m.parent[i := Some(m.active)],
                      m.stack[i := [FRet]][m.active := Rest(m.stack[m.active])], m.times);
    assert SlotOk(m, m.active);
    assert StackOk([FRet], i, false);
    hide Locks, CpuOk, StackOk;
    forall j | 0 <= j < m.n
      ensures SlotOk(m', j)
    {
      assert SlotOk(m, j);
    }
  }

  // ---------------------------------------------------------- the switches

  /** From a process to the scheduler: yield as READY, exit as ZOMBIE. */
  lemma LeaveInv(m: Machine, c: Cpu, pc: Pc, st: Status)
    requires Inv(m) && m.active < m.n && (Top(m).YSet? || Top(m).XSet?) && CpuOk(c, m.active, Top(m))
    requires (st == READY && pc == YBack && Top(m).YSet?) || (st == ZOMBIE && pc == Gone && Top(m).XSet?)
    ensures var a := m.active;
            var m0 := Machine(m.n, c, m.cproc, a, m.status, m.parent, m.stack, m.times);
            var r := ToScheduler(m0, Rest(m.stack[a]) + [pc], st);
            && r.Some? && Inv(r.value)
            && r.value.cpu.held == {P(a)} && r.value.active == m.n && Top(r.value) == SBack(a)
  {
    hide StackOk;
    TopKind(m);
    var a, s := m.active, Rest(m.stack[m.active]) + [pc];
    assert m.stack[m.n] == [SSwtch(a)];
    assert Rest([SSwtch(a)]) + [SBack(a)] == [SBack(a)];
    var m0 := Machine(m.n, c, m.cproc, a, m.status, m.parent, m.stack, m.times);
    var m' := Machine(m.n, c, m.cproc, m.n, m.status[a := st], m.parent, m.stack[a := s][m.n := [SBack(a)]], m.times);
    assert ToScheduler(m0, s, st) == Some(m');
    NextOk(m.stack[a], a, false, pc);
    OneFrame(m.n, SBack(a), true);
    NoProcess(m);
    hide Locks, CpuOk;
    forall j | 0 <= j < m.n
      ensures SlotOk(m', j)
    {
      assert SlotOk(m, j);
    }
  }

  lemma LeaveStepInv(m: Machine, choice: nat)
    requires Inv(m) && m.active < m.n && (Top(m).YSet? || Top(m).XSet?)
    ensures SwitchStep(m, choice).Some? && Inv(SwitchStep(m, choice).value)
    ensures var m' := SwitchStep(m, choice).value;
            m'.cpu.held == {P(m.active)} && m'.active == m.n && Top(m') == SBack(m.active)
  {
    TopKind(m);
    if Top(m).YSet? {
      LeaveInv(m, m.cpu, YBack, READY);
    } else {
      MyOk(m.cpu, m.active, XSet);
      LeaveInv(m, My(m.cpu).value, Gone, ZOMBIE);
    }
  }

  /** From the scheduler to a ready process. */
  lemma DispatchInv(m: Machine, i: nat)
    requires Inv(m) && m.active == m.n && Top(m) == STest(i) && i < m.n && m.status[i] == READY
    ensures SchedStep(m).Some? && Inv(SchedStep(m).value)
    ensures var m' := SchedStep(m).value;
            m'.cpu.held == {P(i)} && m'.active == i && (Top(m') == YBack || Top(m') == FRet)
  {
    TopKind(m);
    var m' := SchedStep(m).value;
    assert m.stack[m.n] == [STest(i)] by { SchedAlone(m); }
    assert m'.stack[m.n] == [SSwtch(i)] && StackOk([SSwtch(i)], m.n, true);
    assert SlotOk(m, i);
    assert CpuOk(m'.cpu, i, Top(m'));
    hide Locks, CpuOk, StackOk;
    forall j | 0 <= j < m.n
      ensures SlotOk(m', j)
    {
      assert SlotOk(m, j);
    }
  }

  lemma SchedAlone(m: Machine)
    requires Inv(m) && m.active == m.n && IsSched(Top(m))
    ensures m.stack[m.n] == [Top(m)]
  {
    TopKind(m);
  }

  /** c->proc = 0 and the release on the scheduler's side. */
  lemma BackInv(m: Machine, i: nat)
    requires Inv(m) && m.active == m.n && Top(m) == SBack(i)
    ensures SchedStep(m).Some? && Inv(SchedStep(m).value)
  {
    TopKind(m);
    SchedAlone(m);
    ReleaseOk(m.cpu, m.n, SBack(i), P(i), SScan(i + 1));
    var m' := SchedStep(m).value;
    assert m'.stack[m.n] == [SScan(i + 1)] && StackOk([SScan(i + 1)], m.n, true);
    hide Locks, CpuOk, StackOk;
    forall j | 0 <= j < m.n
      ensures SlotOk(m', j)
    {
      assert SlotOk(m, j);
    }
  }

  lemma LoopInv(m: Machine)
    requires Inv(m) && m.active == m.n && IsSched(Top(m)) && !Top(m).SBack?
    requires Top(m).STest? ==> m.status[Top(m).i] != READY
    ensures SchedStep(m).Some? && Inv(SchedStep(m).value)
  {
    hide Inv, StackOk, Acquire, Release;
    TopKind(m);
    match Top(m)
    case STop => Move(m, Intr(m.cpu, true), SScan(0), m.times);
    case SScan(i) =>
      if i < m.n {
        MoveAcquire(m, m.cpu, P(i), STest(i));
      } else {
        Move(m, m.cpu, STop, m.times);
      }
    case STest(i) => MoveRelease(m, m.cpu, P(i), SScan(i + 1));
  }

  // ----------------------------------------------------------- whole runs

  /** The scheduler's own code runs next. */
  predicate AtSched(m: Machine)
    requires m.active < |m.stack| && m.stack[m.active] != []
  {
    m.active == m.n && IsSched(Top(m))
  }

  /** The scheduler is about to hand the hart to process i. */
  predicate AtDispatch(m: Machine, i: nat)
    requires m.active < |m.stack| && m.stack[m.active] != []
  {
    m.active == m.n && Top(m) == STest(i) && i < |m.status| && m.status[i] == READY
  }

  lemma SchedSafe(m: Machine)
    requires Inv(m) && AtSched(m)
    ensures SchedStep(m).Some? && Inv(SchedStep(m).value)
  {
    hide StackOk, CpuOk, SlotOk;
    match Top(m)
    case SBack(i) => BackInv(m, i);
    case STest(i) => if m.status[i] == READY { DispatchInv(m, i); } else { LoopInv(m); }
    case _ => LoopInv(m);
  }

  lemma HandlerSafe(m: Machine)
    requires Inv(m) && IsHandler(Top(m))
    ensures HandlerStep(m).Some? && Inv(HandlerStep(m).value)
  {
    hide Inv, HandlerStep;
    TopKind(m);
    match Top(m)
    case Tick(_) => TickInv(m);
    case Done(_) => DoneInv(m);
    case _ => InputInv(m);
  }

  lemma ProcessSafe(m: Machine, choice: nat)
    requires Inv(m) && m.active < m.n && !IsHandler(Top(m))
    ensures Step(m, Run(choice)).Some? && Inv(Step(m, Run(choice)).value)
  {
    hide Inv, TrapStep, SwitchStep, ForkStep, WaitStep;
    TopKind(m);
    match Top(m)
    case User => UserInv(m, choice);
    case Ret => UserInv(m, choice);
    case Sys => SysInv(m, choice);
    case YAcq => YieldInv(m, choice);
    case YBack => YieldInv(m, choice);
    case XAcq => EdgeInv(m, choice);
    case FRet => EdgeInv(m, choice);
    case YSet => LeaveStepInv(m, choice);
    case XSet => LeaveStepInv(m, choice);
    case CAcq => ConsoleInv(m, choice);
    case CHeld => ConsoleInv(m, choice);
    case WScan(_, _) => WaitScanInv(m);
    case WTest(_, _) => WaitTestInv(m);
    case FScan(_) => ForkScanInv(m, choice);
    case FTest(_) => ForkScanInv(m, choice);
    case FPid(_) => ForkPidInv(m, choice);
    case FPidHeld(_) => ForkPidInv(m, choice);
    case FFill(_) => FillInv(m, choice);
    case FCopy(_) => CopyInv(m, choice);
    case Gone => assert false;
  }

  /** No step panics, and each keeps the invariant. */
  lemma StepSafe(m: Machine, a: Act)
    requires Inv(m) && Enabled(m, a)
    ensures Step(m, a).Some? && Inv(Step(m, a).value)
  {
    hide Inv, HandlerStep, SchedStep;
    TopKind(m);
    match a
    case TimerIrq => TrapInv(m, Tick(Top(m).User?));
    case ConsoleIrq => TrapInv(m, Input(Top(m).User?));
    case Run(choice) =>
      if IsHandler(Top(m)) {
        HandlerSafe(m);
      } else if m.active == m.n {
        SchedSafe(m);
      } else {
        ProcessSafe(m, choice);
      }
  }

  /** What scheduler() finds when it is first called: one ready process, interrupts on or off, some ticks
      counted. */
  function Boot(n: nat, sie: bool, intena: bool, times: nat): Machine
    requires n >= 1
  {
    Machine(n, Cpu(Irq(sie, 0, intena), {}), None, n,
            seq(n, i => if i == 0 then READY else FREE), seq(n, i => None),
            seq(n + 1, i => if i == 0 then [FRet] else if i == n then [STop] else []), times)
  }

  /** The state after the given actions, those not enabled being skipped; None after a panic. */
  ghost function After(m: Machine, acts: seq<Act>): Option<Machine>
    decreases |acts|
  {
    if acts == [] then Some(m)
    else if !Shape(m) then None
    else if !Enabled(m, acts[0]) then After(m, acts[1..])
    else
      var r := Step(m, acts[0]);
      if r.None? then None else After(r.value, acts[1..])
  }

  lemma BootInv(n: nat, sie: bool, intena: bool, times: nat)
    requires n >= 1
    ensures Inv(Boot(n, sie, intena, times))
  {
    var m := Boot(n, sie, intena, times);
    forall i | 0 <= i < n
      ensures SlotOk(m, i)
    {
      if i == 0 {
        OneFrame(0, FRet, false);
      } else {
        EmptyOk(i);
      }
    }
    OneFrame(n, STop, true);
  }

  lemma {:induction false} RunSafe(m: Machine, acts: seq<Act>)
    requires Inv(m)
    ensures After(m, acts).Some? && Inv(After(m, acts).value)
    decreases |acts|
  {
    hide Inv, Step, Enabled;
    if acts != [] {
      TopKind(m);
      if Enabled(m, acts[0]) {
        StepSafe(m, acts[0]);
        RunSafe(Step(m, acts[0]).value, acts[1..]);
      } else {
        RunSafe(m, acts[1..]);
      }
    }
  }

  /** From boot, whatever the processes and the devices do, no panic of acquire, release or pop_off
      is reached; noff counts the locks held and interrupts are on only when there are none; one
      slot runs at most, and it is c->proc. */
  lemma NoPanic(n: nat, sie: bool, intena: bool, times: nat, acts: seq<Act>)
    requires n >= 1
    ensures After(Boot(n, sie, intena, times), acts).Some?
    ensures var m := After(Boot(n, sie, intena, times), acts).value;
            && m.n == n && |m.status| == n
            && m.cpu.irq.noff == |m.cpu.held| && (m.cpu.irq.sie ==> m.cpu.held == {})
            && forall i :: 0 <= i < n && m.status[i] == RUNNING ==> i == m.active && m.cproc == Some(i)
  {
    BootInv(n, sie, intena, times);
    RunSafe(Boot(n, sie, intena, times), acts);
    SizeKept(Boot(n, sie, intena, times), acts);
    var m := After(Boot(n, sie, intena, times), acts).value;
    hide StackOk, Locks, PcOk, After, Boot;
    forall i | 0 <= i < n && m.status[i] == RUNNING
      ensures i == m.active && m.cproc == Some(i)
    {
      assert SlotOk(m, i);
    }
  }

  lemma {:induction false} SizeKept(m: Machine, acts: seq<Act>)
    requires After(m, acts).Some?
    ensures After(m, acts).value.n == m.n
    decreases |acts|
  {
    hide Step, Enabled;
    if acts != [] {
      if Enabled(m, acts[0]) {
        SizeStep(m, acts[0]);
        SizeKept(Step(m, acts[0]).value, acts[1..]);
      } else {
        SizeKept(m, acts[1..]);
      }
    }
  }

  lemma SizeStep(m: Machine, a: Act)
    requires Shape(m) && Step(m, a).Some?
    ensures Step(m, a).value.n == m.n
  {
    hide Acquire, Release, My;
  }

  // ------------------------------------------------------------- hand-off

  /** Every swtch is made holding exactly the lock of the process it leaves or enters; interrupts are
      off; and the first thing the other side does is to release that same lock. */
  lemma HandOff(m: Machine, a: Act, choice: nat)
    requires Inv(m) && Enabled(m, a) && Step(m, a).Some? && Step(m, a).value.active != m.active
    ensures var m' := Step(m, a).value;
            var p := if m.active == m.n then m'.active else m.active;
            && p < m.n && (m.active == m.n || m'.active == m.n)
            && m.cpu.held == {P(p)} && m'.cpu.held == {P(p)}
            && Shape(m') && !Enabled(m', TimerIrq) && !Enabled(m', ConsoleIrq)
            && Step(m', Run(choice)).Some? && Step(m', Run(choice)).value.cpu.held == {}
            && Step(m', Run(choice)).value.active == m'.active
  {
    hide Inv, Step, SchedStep, SwitchStep, AtDispatch;
    TopKind(m);
    StepSafe(m, a);
    SwitchPoints(m, a);
    var m' := Step(m, a).value;
    Switched(m, a);
    LockHeld(m);
    TopKind(m');
    LockHeld(m');
    StepSafe(m', Run(choice));
    Released(m', choice);
  }

  /** What each side of a switch stands at. */
  lemma Switched(m: Machine, a: Act)
    requires Inv(m) && a.Run? && Step(m, a).Some? && Inv(Step(m, a).value)
    requires if m.active == m.n then AtDispatch(m, Step(m, a).value.active) else Top(m).YSet? || Top(m).XSet?
    ensures var m' := Step(m, a).value;
            if m.active == m.n
            then m'.active < m.n && Top(m) == STest(m'.active) && (Top(m') == YBack || Top(m') == FRet)
            else m.active < m.n && m'.active == m.n && Top(m') == SBack(m.active) && m'.n == m.n
  {
    hide Inv, SwitchStep, SchedStep;
    TopKind(m);
    SizeStep(m, a);
    if m.active == m.n {
      DispatchInv(m, Step(m, a).value.active);
    } else {
      LeaveStepInv(m, a.choice);
    }
  }

  /** The locks held are those of the running code, and interrupts are shut out while there are any. */
  lemma LockHeld(m: Machine)
    requires Inv(m)
    ensures Shape(m) && m.cpu.held == Locks(m.active, Top(m))
    ensures Locks(m.active, Top(m)) != {} ==> !Enabled(m, TimerIrq) && !Enabled(m, ConsoleIrq)
  {
    hide StackOk, SlotOk, SchedOk, PcOk;
  }

  /** Only dispatch, yield and exit change the context. */
  lemma SwitchPoints(m: Machine, a: Act)
    requires Inv(m) && Enabled(m, a) && Step(m, a).Some? && Step(m, a).value.active != m.active
    ensures a.Run?
    ensures if m.active == m.n then AtDispatch(m, Step(m, a).value.active) else Top(m).YSet? || Top(m).XSet?
  {
    hide Inv, Acquire, Release, My;
    TopKind(m);
  }

  /** The release behind each swtch. */
  lemma Released(m: Machine, choice: nat)
    requires Inv(m) && Step(m, Run(choice)).Some?
    requires Top(m).YBack? || Top(m).FRet? || (Top(m).SBack? && m.active == m.n)
    ensures Step(m, Run(choice)).value.cpu.held == {} && Step(m, Run(choice)).value.active == m.active
  {
    hide Inv;
    TopKind(m);
  }

  // ---------------------------------------------------------- process life

  /** The only ways a slot's status changes, and where the code then is. */
  ghost predicate StatusMove(m: Machine, i: nat, st: Status, a: Act)
    requires Shape(m) && i < m.n
  {
    || st == m.status[i]
    || (a.Run? && match m.status[i]
        case FREE => st == ALLOCATED && Top(m) == FFill(i) && i != m.active
        case ALLOCATED => st == READY && Top(m) == FCopy(i) && i != m.active
        case READY => st == RUNNING && AtDispatch(m, i)
        case RUNNING => i == m.active && ((st == READY && Top(m).YSet?) || (st == ZOMBIE && Top(m).XSet?))
        case ZOMBIE => st == FREE && Top(m).WTest? && Top(m).i == i && m.parent[i] == Some(m.active) && i != m.active
                       && m.cpu.held == {P(i)} && m.stack[i] != [] && m.stack[i][|m.stack[i]| - 1] == Gone)
  }

  lemma LifeStep(m: Machine, a: Act, i: nat)
    requires Inv(m) && i < m.n && Step(m, a).Some?
    ensures |Step(m, a).value.status| == m.n && StatusMove(m, i, Step(m, a).value.status[i], a)
  {
    hide Acquire, Release, My, StackOk;
    assert SlotOk(m, i);
  }

  /** One run after another. */
  lemma {:induction false} AfterSplit(m: Machine, acts: seq<Act>, k: nat)
    requires k <= |acts| && After(m, acts).Some?
    ensures After(m, acts[..k]).Some?
    ensures After(After(m, acts[..k]).value, acts[k..]) == After(m, acts)
    decreases k
  {
    hide Step, Enabled;
    if k > 0 {
      var next := if Enabled(m, acts[0]) then Step(m, acts[0]).value else m;
      AfterSplit(next, acts[1..], k - 1);
      assert acts[1..][..k - 1] == acts[..k][1..];
      assert acts[1..][k - 1..] == acts[k..];
    } else {
      assert acts[..0] == [] && acts[0..] == acts;
    }
  }

  /** Slot i has the same status up to the k-th action, and another one after it. */
  ghost predicate ChangesAt(m: Machine, acts: seq<Act>, i: nat, k: nat, before: Machine)
    requires Shape(m) && i < m.n
  {
    && k < |acts| && After(m, acts[..k]) == Some(before) && Inv(before) && before.n == m.n
    && before.status[i] == m.status[i] && Enabled(before, acts[k]) && Step(before, acts[k]).Some?
    && Inv(Step(before, acts[k]).value) && Step(before, acts[k]).value.n == m.n
    && Step(before, acts[k]).value.status[i] != m.status[i]
    && After(Step(before, acts[k]).value, acts[k + 1..]) == After(m, acts)
  }

  lemma ChangesHere(m: Machine, acts: seq<Act>, i: nat)
    requires Inv(m) && i < m.n && acts != [] && Enabled(m, acts[0]) && Step(m, acts[0]).Some?
    requires Inv(Step(m, acts[0]).value) && Step(m, acts[0]).value.n == m.n
    requires Step(m, acts[0]).value.status[i] != m.status[i]
    ensures ChangesAt(m, acts, i, 0, m)
  {
    hide Inv, Step, Enabled;
    TopKind(m);
    assert acts[..0] == [];
  }

  lemma ChangesLater(m: Machine, m': Machine, acts: seq<Act>, i: nat, k: nat, before: Machine)
    requires Shape(m) && Shape(m') && i < m.n == m'.n && acts != [] && m'.status[i] == m.status[i]
    requires if Enabled(m, acts[0]) then Step(m, acts[0]) == Some(m') else m' == m
    requires ChangesAt(m', acts[1..], i, k, before)
    ensures ChangesAt(m, acts, i, k + 1, before)
  {
    hide Inv, Step, Enabled;
    Shifted(m, m', acts, k);
  }

  /** The first action after which slot i has another status. */
  lemma {:induction false} FirstChange(m: Machine, acts: seq<Act>, i: nat) returns (k: nat, before: Machine)
    requires Inv(m) && i < m.n && After(m, acts).Some?
    requires i < |After(m, acts).value.status| && After(m, acts).value.status[i] != m.status[i]
    ensures Shape(m) && ChangesAt(m, acts, i, k, before)
    decreases |acts|
  {
    hide Inv, Step, Enabled, ChangesAt;
    TopKind(m);
    if !Enabled(m, acts[0]) {
      k, before := FirstChange(m, acts[1..], i);
      ChangesLater(m, m, acts, i, k, before);
      k := k + 1;
    } else {
      StepSafe(m, acts[0]);
      SizeStep(m, acts[0]);
      var m' := Step(m, acts[0]).value;
      TopKind(m');
      if m'.status[i] != m.status[i] {
        k, before := 0, m;
        ChangesHere(m, acts, i);
      } else {
        k, before := FirstChange(m', acts[1..], i);
        ChangesLater(m, m', acts, i, k, before);
        k := k + 1;
      }
    }
  }

  lemma Shifted(m: Machine, m': Machine, acts: seq<Act>, k: nat)
    requires Shape(m) && acts != [] && k < |acts| - 1
    requires if Enabled(m, acts[0]) then Step(m, acts[0]) == Some(m') else m' == m
    ensures After(m, acts[..k + 1]) == After(m', acts[1..][..k])
    ensures acts[1..][k] == acts[k + 1] && acts[1..][k + 1..] == acts[k + 2..]
  {
    hide Step, Enabled;
    assert acts[..k + 1][1..] == acts[1..][..k];
  }

  /** Slot i is about to be freed by wait. */
  ghost predicate Reaps(m: Machine, i: nat) {
    && Shape(m) && i < m.n && m.status[i] == ZOMBIE && Top(m).WTest? && Top(m).i == i
    && m.parent[i] == Some(m.active) && i != m.active && m.cpu.held == {P(i)}
    && m.stack[i] != [] && m.stack[i][|m.stack[i]| - 1] == Gone
  }

  /** Slot i is about to be given to a new process. */
  ghost predicate Fills(m: Machine, i: nat) {
    Shape(m) && i < m.n && m.status[i] == FREE && Top(m) == FFill(i) && i != m.active
  }

  /** A zombie that runs again has first been freed by its parent's wait, when it was already
      switched away from, and then been allocated anew. */
  lemma ZombieRunsOnlyWhenNew(m: Machine, acts: seq<Act>, i: nat) returns (j: nat, k: nat)
    requires Inv(m) && i < m.n && m.status[i] == ZOMBIE
    requires After(m, acts).Some? && After(m, acts).value.active == i
    ensures j < k < |acts| && After(m, acts[..j]).Some? && After(m, acts[..k]).Some?
    ensures Reaps(After(m, acts[..j]).value, i) && Fills(After(m, acts[..k]).value, i)
  {
    hide After, Step, Enabled, Inv, StatusMove;
    RunSafe(m, acts);
    SizeKept(m, acts);
    var end := After(m, acts).value;
    NoProcess(end);
    var before: Machine;
    j, before := FirstChange(m, acts, i);
    TopKind(before);
    LifeStep(before, acts[j], i);
    ReapOf(before, acts[j], i);
    var free := Step(before, acts[j]).value;
    var k0, before' := FirstChange(free, acts[j + 1..], i);
    TopKind(before');
    LifeStep(before', acts[j + 1..][k0], i);
    FillOf(before', acts[j + 1..][k0], i);
    k := j + 1 + k0;
    Resume(m, acts, j, k0, before);
  }

  lemma ReapOf(m: Machine, a: Act, i: nat)
    requires Shape(m) && i < m.n && m.status[i] == ZOMBIE && Step(m, a).Some? && i < |Step(m, a).value.status|
    requires StatusMove(m, i, Step(m, a).value.status[i], a) && Step(m, a).value.status[i] != ZOMBIE
    ensures Reaps(m, i) && Step(m, a).value.status[i] == FREE
  {
    hide Step;
  }

  lemma FillOf(m: Machine, a: Act, i: nat)
    requires Shape(m) && i < m.n && m.status[i] == FREE && Step(m, a).Some? && i < |Step(m, a).value.status|
    requires StatusMove(m, i, Step(m, a).value.status[i], a) && Step(m, a).value.status[i] != FREE
    ensures Fills(m, i)
  {
    hide Step;
  }

  /** Runs of a step and then k more actions. */
  lemma Resume(m: Machine, acts: seq<Act>, j: nat, k: nat, before: Machine)
    requires After(m, acts).Some? && j < |acts| && k < |acts| - j - 1
    requires After(m, acts[..j]) == Some(before) && Shape(before) && Enabled(before, acts[j])
    requires Step(before, acts[j]).Some?
    ensures After(m, acts[..j + 1 + k]) == After(Step(before, acts[j]).value, acts[j + 1..][..k])
  {
    hide Step, Enabled, Shape;
    var n := j + 1 + k;
    AfterSplit(m, acts, n);
    var pre := acts[..n];
    AfterSplit(m, pre, j);
    assert pre[..j] == acts[..j];
    assert pre[j..][0] == acts[j] && pre[j..][1..] == acts[j + 1..][..k];
  }

  // ------------------------------------------------------- bounded bypass

  /** Where the scheduler's loop stands, whatever runs on top of it. */
  function Cursor(m: Machine): Pc
    requires |m.stack| == m.n + 1 && m.stack[m.n] != []
  {
    m.stack[m.n][0]
  }

  /** Between slot p and the next visit to slot q: the slots from p up to q, around the table. */
  predicate Between(c: Pc, p: nat, q: nat) {
    match c
    case SSwtch(i) => i == p || Ahead(i, p, q)
    case SBack(i) => i == p || Ahead(i, p, q)
    case SScan(i) => Ahead(i, p, q) || i == q
    case STest(i) => Ahead(i, p, q) || i == q
    case STop => q < p
    case _ => false
  }

  /** i lies strictly between p and q, going up around the table. */
  predicate Ahead(i: nat, p: nat, q: nat) {
    if p < q then p < i < q else p < i || i < q
  }

  lemma CursorStep(m: Machine, a: Act)
    requires Inv(m) && Enabled(m, a) && Step(m, a).Some? && !(a.Run? && AtSched(m))
    ensures var m' := Step(m, a).value;
            && |m'.stack| == m.n + 1 == m'.n + 1 && m'.stack[m.n] != []
            && (|| Cursor(m') == Cursor(m)
                || (m.active < m.n && Cursor(m) == SSwtch(m.active) && Cursor(m') == SBack(m.active)))
  {
    hide Acquire, Release, My, StackOk, SlotOk, CpuOk, Step;
    TopKind(m);
    if m.active == m.n {
      CursorUnder(m, a);
    } else {
      CursorAside(m, a);
    }
  }

  /** Interrupt handlers on top of the scheduler leave it where it is. */
  lemma CursorUnder(m: Machine, a: Act)
    requires Inv(m) && m.active == m.n && Step(m, a).Some? && !(a.Run? && AtSched(m))
    ensures var m' := Step(m, a).value;
            |m'.stack| == m.n + 1 == m'.n + 1 && m'.stack[m.n] != [] && Cursor(m') == Cursor(m)
  {
    hide Acquire, Release, My, StackOk, SlotOk, CpuOk;
    TopKind(m);
  }

  lemma CursorAside(m: Machine, a: Act)
    requires Inv(m) && m.active < m.n && Step(m, a).Some?
    ensures var m' := Step(m, a).value;
            && |m'.stack| == m.n + 1 == m'.n + 1 && m'.stack[m.n] != []
            && (Cursor(m') == Cursor(m) || (Cursor(m) == SSwtch(m.active) && Cursor(m') == SBack(m.active)))
  {
    hide Acquire, Release, My, StackOk, SlotOk, CpuOk;
    TopKind(m);
    assert Rest([SSwtch(m.active)]) + [SBack(m.active)] == [SBack(m.active)];
  }

  lemma LoopStep(m: Machine, a: Act, p: nat, q: nat)
    requires Inv(m) && a.Run? && AtSched(m) && Step(m, a).Some? && p < m.n && q < m.n && p != q
    requires Between(Cursor(m), p, q) && m.status[q] == READY && !AtDispatch(m, q)
    ensures var m' := Step(m, a).value;
            |m'.stack| == m.n + 1 == m'.n + 1 && m'.stack[m.n] != [] && Between(Cursor(m'), p, q)
  {
    hide Acquire, Release, My, StackOk, SlotOk;
    SchedAlone(m);
  }

  /** One action keeps the cursor short of q's turn, and q ready, unless it dispatches q. */
  lemma BypassStep(m: Machine, a: Act, p: nat, q: nat)
    requires Inv(m) && Enabled(m, a) && Step(m, a).Some? && p < m.n && q < m.n && p != q
    requires Between(Cursor(m), p, q) && m.status[q] == READY && !AtDispatch(m, q)
    ensures var m' := Step(m, a).value;
            Inv(m') && m'.n == m.n && m'.status[q] == READY && Between(Cursor(m'), p, q)
  {
    hide Step, Enabled, StackOk, CpuOk, SlotOk;
    StepSafe(m, a);
    SizeStep(m, a);
    LifeStep(m, a, q);
    if a.Run? && AtSched(m) {
      LoopStep(m, a, p, q);
    } else {
      CursorStep(m, a);
    }
  }

  /** Before slot p's turn comes again, q's has come. */
  lemma {:induction false} Bypass(m: Machine, acts: seq<Act>, p: nat, q: nat) returns (k: nat)
    requires Inv(m) && p < m.n && q < m.n && p != q
    requires Between(Cursor(m), p, q) && m.status[q] == READY
    requires After(m, acts).Some? && Shape(After(m, acts).value) && AtDispatch(After(m, acts).value, p)
    ensures k < |acts| && After(m, acts[..k]).Some? && Shape(After(m, acts[..k]).value)
    ensures AtDispatch(After(m, acts[..k]).value, q)
    decreases |acts|
  {
    hide Step, Enabled, StackOk, CpuOk, SlotOk;
    if acts == [] {
      SchedAlone(m);
      assert false;
    }
    if AtDispatch(m, q) {
      assert acts[..0] == [];
      k := 0;
    } else if !Enabled(m, acts[0]) {
      k := Bypass(m, acts[1..], p, q);
      Shifted(m, m, acts, k);
      k := k + 1;
    } else {
      BypassStep(m, acts[0], p, q);
      var m' := Step(m, acts[0]).value;
      k := Bypass(m', acts[1..], p, q);
      Shifted(m, m', acts, k);
      k := k + 1;
    }
  }

  /** If q is ready when p is dispatched, q is dispatched before p is dispatched again. */
  lemma BoundedBypass(m: Machine, acts: seq<Act>, p: nat, q: nat) returns (k: nat)
    requires Inv(m) && AtDispatch(m, p) && q < m.n && p != q && m.status[q] == READY
    requires |acts| > 1 && acts[0].Run?
    requires After(m, acts).Some? && Shape(After(m, acts).value) && AtDispatch(After(m, acts).value, p)
    ensures 0 < k < |acts| && After(m, acts[..k]).Some? && Shape(After(m, acts[..k]).value)
    ensures AtDispatch(After(m, acts[..k]).value, q)
  {
    hide StackOk, CpuOk;
    DispatchInv(m, p);
    SchedAlone(m);
    var m' := Step(m, acts[0]).value;
    SizeStep(m, acts[0]);
    k := Bypass(m', acts[1..], p, q);
    Shifted(m, m', acts, k);
    k := k + 1;
  }

  // ------------------------------------------------ calls of the allocator

  /** fork and wait call the page allocator with interrupts off: allocproc fills the slot, kfork copies
      the memory and kwait frees it, all with the slot's lock held. */
  lemma ForkAndWaitCareful(m: Machine)
    requires Inv(m) && m.active < m.n && (Top(m).FFill? || Top(m).FCopy? || Top(m).WTest?)
    ensures !m.cpu.irq.sie && m.cpu.irq.noff > 0 && !Enabled(m, TimerIrq)
  {
    hide StackOk, SlotOk;
  }

  /** One run after another. */
  lemma {:induction false} AfterCat(m: Machine, a: seq<Act>, b: seq<Act>)
    requires After(m, a).Some?
    ensures After(m, a + b) == After(After(m, a).value, b)
    decreases |a|
  {
    hide Step, Enabled;
    if a == [] {
      assert a + b == b;
    } else {
      assert (a + b)[1..] == a[1..] + b;
      AfterCat(if Enabled(m, a[0]) then Step(m, a[0]).value else m, a[1..], b);
    }
  }

  function Runs(k: nat): seq<Act> { seq(k, _ => Run(0)) }

  lemma RunsMore(k: nat, j: nat)
    ensures Runs(k) + Runs(j) == Runs(k + j)
  {
  }

  lemma RunsThree(m: Machine)
    ensures After(m, Runs(3)) == After(m, [Run(0), Run(0), Run(0)])
    ensures After(m, Runs(2)) == After(m, [Run(0), Run(0)]) && After(m, Runs(1)) == After(m, [Run(0)])
  {
    assert Runs(3) == [Run(0), Run(0), Run(0)] && Runs(2) == [Run(0), Run(0)] && Runs(1) == [Run(0)];
  }

  /** The only process runs, at s. */
  function First(n: nat, s: seq<Pc>, cpu: Cpu, times: nat): Machine
    requires n >= 1
  {
    Machine(n, cpu, Some(0), 0, seq(n, i => if i == 0 then RUNNING else FREE), seq(n, i => None),
            seq(n + 1, i => if i == 0 then s else if i == n then [SSwtch(0)] else []), times)
  }

  /** The scheduler's loop is at pc; the only process is ready, at s. */
  function Loop(n: nat, s: seq<Pc>, pc: Pc, cpu: Cpu, cproc: Option<nat>, times: nat): Machine
    requires n >= 1
  {
    Machine(n, cpu, cproc, n, seq(n, i => if i == 0 then READY else FREE), seq(n, i => None),
            seq(n + 1, i => if i == 0 then s else if i == n then [pc] else []), times)
  }

  lemma Swap(n: nat, s: seq<Pc>, s': seq<Pc>, pc: Pc, pc': Pc, cpu: Cpu, cproc: Option<nat>, times: nat)
    requires n >= 1
    ensures Loop(n, s, pc, cpu, cproc, times).stack[n := [pc']] == Loop(n, s, pc', cpu, cproc, times).stack
    ensures First(n, s, cpu, times).stack[0 := s'] == First(n, s', cpu, times).stack
    ensures Loop(n, s, pc, cpu, cproc, times).stack[n := [SSwtch(0)]] == First(n, s, cpu, times).stack
    ensures First(n, s, cpu, times).stack[0 := s'][n := [SBack(0)]] == Loop(n, s', SBack(0), cpu, cproc, times).stack
    ensures Loop(n, s, pc, cpu, cproc, times).status[0 := RUNNING] == First(n, s, cpu, times).status
    ensures First(n, s, cpu, times).status[0 := READY] == Loop(n, s, pc, cpu, cproc, times).status
  {
  }

  /** One frame for another, and one lock. */
  lemma Ones(pc: Pc, pc': Pc, l: Lock)
    ensures Rest([pc]) + [pc'] == [pc'] && ({} + {l}) == {l} && ({l} - {l}) == {}
  {
  }

  /** From the top of its loop the scheduler dispatches the process. */
  lemma Dispatched(n: nat, s: seq<Pc>, irq: Irq, times: nat)
    requires n >= 1 && s != [] && irq.noff == 0
    ensures After(Loop(n, s, STop, Cpu(irq, {}), None, times), Runs(3))
            == Some(First(n, s, Cpu(Irq(false, 1, true), {P(0)}), times))
  {
    var m0 := Loop(n, s, STop, Cpu(irq, {}), None, times);
    var m1 := Loop(n, s, SScan(0), Cpu(Irq(true, 0, irq.intena), {}), None, times);
    var m2 := Loop(n, s, STest(0), Cpu(Irq(false, 1, true), {P(0)}), None, times);
    Swap(n, s, s, STop, SScan(0), m1.cpu, None, times);
    Swap(n, s, s, SScan(0), STest(0), m2.cpu, None, times);
    Swap(n, s, s, STest(0), STest(0), m2.cpu, None, times);
    Ones(STop, SScan(0), P(0));
    Ones(SScan(0), STest(0), P(0));
    Ones(STest(0), SSwtch(0), P(0));
    assert Step(m0, Run(0)) == Some(m1) && Step(m1, Run(0)) == Some(m2);
    assert Step(m2, Run(0)) == Some(First(n, s, m2.cpu, times));
    RunsThree(m0);
    assert After(m0, [Run(0), Run(0), Run(0)]) == After(m1, [Run(0), Run(0)]) == After(m2, [Run(0)]);
  }

  /** A process that is first dispatched goes to user mode and makes a system call. */
  lemma FirstCall(n: nat, times: nat)
    requires n >= 1
    ensures After(First(n, [FRet], Cpu(Irq(false, 1, true), {P(0)}), times), Runs(3))
            == Some(First(n, [Sys], Cpu(Irq(true, 0, false), {}), times))
  {
    var m0 := First(n, [FRet], Cpu(Irq(false, 1, true), {P(0)}), times);
    var m1 := First(n, [Ret], Cpu(Irq(true, 0, true), {}), times);
    var m2 := First(n, [User], Cpu(Irq(true, 0, true), {}), times);
    var m3 := First(n, [Sys], Cpu(Irq(true, 0, false), {}), times);
    Swap(n, [FRet], [Ret], STop, STop, m0.cpu, None, times);
    Swap(n, [Ret], [User], STop, STop, m0.cpu, None, times);
    Swap(n, [User], [Sys], STop, STop, m0.cpu, None, times);
    Ones(FRet, Ret, P(0));
    assert Step(m0, Run(0)) == Some(m1) && Step(m1, Run(0)) == Some(m2) && Step(m2, Run(0)) == Some(m3);
    RunsThree(m0);
    assert After(m0, [Run(0), Run(0), Run(0)]) == After(m1, [Run(0), Run(0)]) == After(m2, [Run(0)]) == After(m3, []);
  }

  /** A system call that takes no lock, as exec and pipe until their kalloc, runs with interrupts on. */
  lemma ExecOpen(n: nat, sie: bool, intena: bool, times: nat)
    requires n >= 1
    ensures After(Boot(n, sie, intena, times), Runs(6)) == Some(First(n, [Sys], Cpu(Irq(true, 0, false), {}), times))
  {
    hide Step, After;
    assert Boot(n, sie, intena, times) == Loop(n, [FRet], STop, Cpu(Irq(sie, 0, intena), {}), None, times);
    Dispatched(n, [FRet], Irq(sie, 0, intena), times);
    FirstCall(n, times);
    AfterCat(Boot(n, sie, intena, times), Runs(3), Runs(3));
    RunsMore(3, 3);
  }

  // ------------------------------------------ a handler with interrupts on

  /** The scheduler passes over a free slot. */
  lemma ScanOne(n: nat, s: seq<Pc>, i: nat, times: nat)
    requires 0 < i < n
    ensures After(Loop(n, s, SScan(i), Cpu(Irq(false, 0, false), {}), None, times), Runs(2))
            == Some(Loop(n, s, SScan(i + 1), Cpu(Irq(false, 0, false), {}), None, times))
  {
    var c0, c1 := Cpu(Irq(false, 0, false), {}), Cpu(Irq(false, 1, false), {P(i)});
    var m0, m1 := Loop(n, s, SScan(i), c0, None, times), Loop(n, s, STest(i), c1, None, times);
    var m2 := Loop(n, s, SScan(i + 1), c0, None, times);
    Swap(n, s, s, SScan(i), STest(i), c1, None, times);
    Swap(n, s, s, STest(i), SScan(i + 1), c1, None, times);
    Ones(SScan(i), STest(i), P(i));
    Ones(STest(i), SScan(i + 1), P(i));
    assert Step(m0, Run(0)) == Some(m1) && Step(m1, Run(0)) == Some(m2);
    RunsThree(m0);
    assert After(m0, [Run(0), Run(0)]) == After(m1, [Run(0)]) == After(m2, []);
  }

  lemma {:induction false} ScanOn(n: nat, s: seq<Pc>, i: nat, times: nat)
    requires 0 < i <= n
    ensures After(Loop(n, s, SScan(i), Cpu(Irq(false, 0, false), {}), None, times), Runs(2 * (n - i)))
            == Some(Loop(n, s, SScan(n), Cpu(Irq(false, 0, false), {}), None, times))
    decreases n - i
  {
    hide Step;
    if i < n {
      ScanOne(n, s, i, times);
      ScanOn(n, s, i + 1, times);
      AfterCat(Loop(n, s, SScan(i), Cpu(Irq(false, 0, false), {}), None, times), Runs(2), Runs(2 * (n - i - 1)));
      RunsMore(2, 2 * (n - i - 1));
    } else {
      assert Runs(0) == [];
    }
  }

  /** The tenth tick, in a system call: the handler calls yield, which comes as far as its swtch. */
  lemma TickedAway(n: nat)
    requires n >= 1
    ensures After(First(n, [Sys], Cpu(Irq(true, 0, false), {}), 9), [TimerIrq] + Runs(3))
            == Some(Loop(n, [Sys, Done(false), YBack], SBack(0), Cpu(Irq(false, 1, false), {P(0)}), Some(0), 0))
  {
    var c0, c1 := Cpu(Irq(false, 0, false), {}), Cpu(Irq(false, 1, false), {P(0)});
    var m0 := First(n, [Sys], Cpu(Irq(true, 0, false), {}), 9);
    var m1 := First(n, [Sys, Tick(false)], c0, 9);
    var m2 := First(n, [Sys, Done(false), YAcq], c0, 0);
    var m3 := First(n, [Sys, Done(false), YSet], c1, 0);
    var m4 := Loop(n, [Sys, Done(false), YBack], SBack(0), c1, Some(0), 0);
    Swap(n, [Sys], [Sys, Tick(false)], STop, STop, c0, None, 9);
    Swap(n, [Sys, Tick(false)], [Sys, Done(false), YAcq], STop, STop, c0, None, 9);
    Swap(n, [Sys, Done(false), YAcq], [Sys, Done(false), YSet], STop, STop, c0, None, 0);
    Swap(n, [Sys, Done(false), YSet], [Sys, Done(false), YBack], SBack(0), STop, c1, Some(0), 0);
    TickSteps(n);
    YieldSteps(n);
    assert ([TimerIrq] + Runs(3))[1..] == Runs(3);
    RunsThree(m1);
    assert After(m1, [Run(0), Run(0), Run(0)]) == After(m2, [Run(0), Run(0)]) == After(m3, [Run(0)]) == After(m4, []);
  }

  lemma TickSteps(n: nat)
    requires n >= 1
    ensures Step(First(n, [Sys], Cpu(Irq(true, 0, false), {}), 9), TimerIrq)
            == Some(First(n, [Sys, Tick(false)], Cpu(Irq(false, 0, false), {}), 9))
    ensures Step(First(n, [Sys, Tick(false)], Cpu(Irq(false, 0, false), {}), 9), Run(0))
            == Some(First(n, [Sys, Done(false), YAcq], Cpu(Irq(false, 0, false), {}), 0))
  {
    var c := Cpu(Irq(false, 0, false), {});
    Swap(n, [Sys], [Sys, Tick(false)], STop, STop, c, None, 9);
    Swap(n, [Sys, Tick(false)], [Sys, Done(false), YAcq], STop, STop, c, None, 9);
    assert [Sys] + [Tick(false)] == [Sys, Tick(false)];
    assert Rest([Sys, Tick(false)]) + [Done(false), YAcq] == [Sys, Done(false), YAcq];
  }

  lemma YieldSteps(n: nat)
    requires n >= 1
    ensures Step(First(n, [Sys, Done(false), YAcq], Cpu(Irq(false, 0, false), {}), 0), Run(0))
            == Some(First(n, [Sys, Done(false), YSet], Cpu(Irq(false, 1, false), {P(0)}), 0))
    ensures Step(First(n, [Sys, Done(false), YSet], Cpu(Irq(false, 1, false), {P(0)}), 0), Run(0))
            == Some(Loop(n, [Sys, Done(false), YBack], SBack(0), Cpu(Irq(false, 1, false), {P(0)}), Some(0), 0))
  {
    var c := Cpu(Irq(false, 1, false), {P(0)});
    Swap(n, [Sys, Done(false), YAcq], [Sys, Done(false), YSet], STop, STop, c, None, 0);
    Swap(n, [Sys, Done(false), YSet], [Sys, Done(false), YBack], SBack(0), STop, c, Some(0), 0);
    Ones(SSwtch(0), SBack(0), P(0));
    assert Rest([Sys, Done(false), YAcq]) + [YSet] == [Sys, Done(false), YSet];
    assert Rest([Sys, Done(false), YSet]) + [YBack] == [Sys, Done(false), YBack];
  }

  /** The scheduler releases the lock and goes on; at the end of the table it begins anew. */
  lemma AroundEnds(n: nat, s: seq<Pc>)
    requires n >= 1 && s != []
    ensures After(Loop(n, s, SBack(0), Cpu(Irq(false, 1, false), {P(0)}), Some(0), 0), Runs(1))
            == Some(Loop(n, s, SScan(1), Cpu(Irq(false, 0, false), {}), None, 0))
    ensures After(Loop(n, s, SScan(n), Cpu(Irq(false, 0, false), {}), None, 0), Runs(1))
            == Some(Loop(n, s, STop, Cpu(Irq(false, 0, false), {}), None, 0))
  {
    var c := Cpu(Irq(false, 0, false), {});
    var m0 := Loop(n, s, SBack(0), Cpu(Irq(false, 1, false), {P(0)}), Some(0), 0);
    var m1, m2 := Loop(n, s, SScan(1), c, None, 0), Loop(n, s, SScan(n), c, None, 0);
    Swap(n, s, s, SBack(0), SScan(1), m0.cpu, Some(0), 0);
    Swap(n, s, s, SScan(n), STop, c, None, 0);
    Ones(SBack(0), SScan(1), P(0));
    Ones(SScan(n), STop, P(0));
    assert Step(m0, Run(0)) == Some(m1) && Step(m2, Run(0)) == Some(Loop(n, s, STop, c, None, 0));
    RunsThree(m0);
    RunsThree(m2);
    assert After(m0, [Run(0)]) == After(m1, []) == Some(m1);
  }

  lemma AroundTable(n: nat, s: seq<Pc>)
    requires n >= 1 && s != []
    ensures After(Loop(n, s, SBack(0), Cpu(Irq(false, 1, false), {P(0)}), Some(0), 0), Runs(1 + 2 * (n - 1) + 1))
            == Some(Loop(n, s, STop, Cpu(Irq(false, 0, false), {}), None, 0))
  {
    hide Step, After, Loop;
    var m0 := Loop(n, s, SBack(0), Cpu(Irq(false, 1, false), {P(0)}), Some(0), 0);
    AroundEnds(n, s);
    ScanOn(n, s, 1, 0);
    AfterCat(m0, Runs(1), Runs(2 * (n - 1)));
    RunsMore(1, 2 * (n - 1));
    AfterCat(m0, Runs(1 + 2 * (n - 1)), Runs(1));
    RunsMore(1 + 2 * (n - 1), 1);
  }

  lemma YieldReturns(n: nat)
    requires n >= 1
    ensures After(First(n, [Sys, Done(false), YBack], Cpu(Irq(false, 1, true), {P(0)}), 0), Runs(1))
            == Some(First(n, [Sys, Done(false)], Cpu(Irq(true, 0, true), {}), 0))
  {
    var m0 := First(n, [Sys, Done(false), YBack], Cpu(Irq(false, 1, true), {P(0)}), 0);
    var m1 := First(n, [Sys, Done(false)], Cpu(Irq(true, 0, true), {}), 0);
    Swap(n, [Sys, Done(false), YBack], [Sys, Done(false)], STop, STop, m0.cpu, None, 0);
    Ones(YBack, YBack, P(0));
    assert Rest([Sys, Done(false), YBack]) == [Sys, Done(false)];
    assert Step(m0, Run(0)) == Some(m1);
    RunsThree(m0);
    assert After(m0, [Run(0)]) == After(m1, []);
  }

  /** A handler can come to its way back with interrupts on: the release behind its yield turns them on,
      since the scheduler took that lock with interrupts on. */
  lemma HandlerOpen(n: nat, sie: bool, intena: bool) returns (acts: seq<Act>)
    requires n >= 1
    ensures After(Boot(n, sie, intena, 9), acts) == Some(First(n, [Sys, Done(false)], Cpu(Irq(true, 0, true), {}), 0))
  {
    hide Step, After, Loop, First, Boot;
    var m, s := Boot(n, sie, intena, 9), [Sys, Done(false), YBack];
    ExecOpen(n, sie, intena, 9);
    TickedAway(n);
    AfterCat(m, Runs(6), [TimerIrq] + Runs(3));
    acts := Runs(6) + ([TimerIrq] + Runs(3));
    AroundTable(n, s);
    AfterCat(m, acts, Runs(1 + 2 * (n - 1) + 1));
    acts := acts + Runs(1 + 2 * (n - 1) + 1);
    Dispatched(n, s, Irq(false, 0, false), 0);
    AfterCat(m, acts, Runs(3));
    acts := acts + Runs(3);
    YieldReturns(n);
    AfterCat(m, acts, Runs(1));
    acts := acts + Runs(1);
  }

  // ---------------------------------------------------- parents and wait

  /** What the loop of kwait has noted, when it is about to look at slot i. */
  predicate Noted(parent: seq<Option<nat>>, a: nat, i: nat, kids: bool) {
    kids <==> exists j :: 0 <= j < i && j < |parent| && parent[j] == Some(a)
  }

  predicate FrameKids(parent: seq<Option<nat>>, a: nat, pc: Pc) {
    match pc
    case WScan(i, kids) => Noted(parent, a, i, kids)
    case WTest(i, kids) => Noted(parent, a, i, kids)
    case _ => true
  }

  /** Every kwait, running or interrupted, has noted the truth; a slot without a process has no
      parent. */
  ghost predicate KidsOk(m: Machine)
    requires Shape(m)
  {
    && (forall a, k :: 0 <= a < m.n && 0 <= k < |m.stack[a]| ==> FrameKids(m.parent, a, m.stack[a][k]))
    && forall i :: 0 <= i < m.n && (m.status[i] == FREE || m.status[i] == ALLOCATED) ==> m.parent[i] == None
  }

  /** A context that is not active keeps its frames, but for a slot that is freed or made ready. */
  lemma StackOther(m: Machine, a: Act, c: nat)
    requires Inv(m) && Step(m, a).Some? && c < m.n && c != m.active
    ensures var m' := Step(m, a).value;
            |m'.stack| == m.n + 1 && (m'.stack[c] == m.stack[c] || m'.stack[c] == [] || m'.stack[c] == [FRet])
  {
    hide Inv, Step;
    TopKind(m);
    if !a.Run? || IsHandler(Top(m)) || m.active == m.n { StackOtherLoop(m, a, c); } else { StackOtherCode(m, a, c); }
  }

  lemma StackOtherLoop(m: Machine, a: Act, c: nat)
    requires Inv(m) && Step(m, a).Some? && c < m.n && c != m.active
    requires !a.Run? || IsHandler(Top(m)) || m.active == m.n
    ensures var m' := Step(m, a).value;
            |m'.stack| == m.n + 1 && (m'.stack[c] == m.stack[c] || m'.stack[c] == [] || m'.stack[c] == [FRet])
  {
    hide Acquire, Release, My, StackOk, SlotOk, CpuOk;
    TopKind(m);
  }

  lemma StackOtherCode(m: Machine, a: Act, c: nat)
    requires Inv(m) && Step(m, a).Some? && c < m.n && c != m.active
    requires a.Run? && !IsHandler(Top(m)) && m.active < m.n
    ensures var m' := Step(m, a).value;
            |m'.stack| == m.n + 1 && (m'.stack[c] == m.stack[c] || m'.stack[c] == [] || m'.stack[c] == [FRet])
  {
    hide Acquire, Release, My, StackOk, SlotOk, CpuOk;
    TopKind(m);
  }

  /** The running context: frames of kwait are new only in kwait's own steps and at its call. */
  lemma StackOwn(m: Machine, a: Act, k: nat)
    requires Inv(m) && Step(m, a).Some? && m.active < m.n
    requires !(a.Run? && InWait(Top(m)))
    ensures var m' := Step(m, a).value;
            && |m'.stack| == m.n + 1
            && (k < |m'.stack[m.active]| && InWait(m'.stack[m.active][k]) ==>
                  || (k < |m.stack[m.active]| && m.stack[m.active][k] == m'.stack[m.active][k])
                  || m'.stack[m.active][k] == WScan(0, false))
  {
    hide Inv, Step;
    TopKind(m);
    if !a.Run? || IsHandler(Top(m)) { StackTrapped(m, a, k); } else { StackRun(m, a, k); }
  }

  lemma StackTrapped(m: Machine, a: Act, k: nat)
    requires Inv(m) && Step(m, a).Some? && m.active < m.n
    requires !a.Run? || IsHandler(Top(m))
    ensures var m' := Step(m, a).value;
            && |m'.stack| == m.n + 1
            && (k < |m'.stack[m.active]| && InWait(m'.stack[m.active][k]) ==>
                  || (k < |m.stack[m.active]| && m.stack[m.active][k] == m'.stack[m.active][k])
                  || m'.stack[m.active][k] == WScan(0, false))
  {
    hide Acquire, Release, My, StackOk, SlotOk, CpuOk;
    TopKind(m);
  }

  lemma StackRun(m: Machine, a: Act, k: nat)
    requires Inv(m) && Step(m, a).Some? && m.active < m.n
    requires a.Run? && !IsHandler(Top(m)) && !InWait(Top(m))
    ensures var m' := Step(m, a).value;
            && |m'.stack| == m.n + 1
            && (k < |m'.stack[m.active]| && InWait(m'.stack[m.active][k]) ==>
                  || (k < |m.stack[m.active]| && m.stack[m.active][k] == m'.stack[m.active][k])
                  || m'.stack[m.active][k] == WScan(0, false))
  {
    hide Acquire, Release, My, StackOk, SlotOk, CpuOk;
    TopKind(m);
  }

  lemma ParentStep(m: Machine, a: Act)
    requires Inv(m) && Step(m, a).Some?
    ensures var m' := Step(m, a).value;
            && m'.n == m.n && |m'.stack| == m.n + 1 && |m'.parent| == m.n == |m'.status|
            && (m'.parent == m.parent
                || (a.Run? && m.active < m.n && Top(m).FCopy? && Top(m).i < m.n
                    && m'.parent == m.parent[Top(m).i := Some(m.active)]
                    && m.status[Top(m).i] == ALLOCATED && m'.status[Top(m).i] == READY && m'.stack[Top(m).i] == [FRet])
                || (a.Run? && m.active < m.n && Top(m).WTest? && Reaps(m, Top(m).i)
                    && m'.parent == m.parent[Top(m).i := None]))
  {
    hide Inv, Step, Reaps;
    TopKind(m);
    if !a.Run? || IsHandler(Top(m)) || m.active == m.n { ParentStepLoop(m, a); } else { ParentStepCode(m, a); }
  }

  lemma ParentStepLoop(m: Machine, a: Act)
    requires Inv(m) && Step(m, a).Some? && (!a.Run? || IsHandler(Top(m)) || m.active == m.n)
    ensures var m' := Step(m, a).value;
            m'.n == m.n && |m'.stack| == m.n + 1 && |m'.parent| == m.n == |m'.status| && m'.parent == m.parent
  {
    hide Acquire, Release, My, StackOk, SlotOk, CpuOk;
    TopKind(m);
  }

  lemma ParentStepCode(m: Machine, a: Act)
    requires Inv(m) && Step(m, a).Some? && a.Run? && !IsHandler(Top(m)) && m.active < m.n
    ensures var m' := Step(m, a).value;
            && m'.n == m.n && |m'.stack| == m.n + 1 && |m'.parent| == m.n == |m'.status|
            && (m'.parent == m.parent
                || (a.Run? && m.active < m.n && Top(m).FCopy? && Top(m).i < m.n
                    && m'.parent == m.parent[Top(m).i := Some(m.active)]
                    && m.status[Top(m).i] == ALLOCATED && m'.status[Top(m).i] == READY && m'.stack[Top(m).i] == [FRet])
                || (a.Run? && m.active < m.n && Top(m).WTest? && Reaps(m, Top(m).i)
                    && m'.parent == m.parent[Top(m).i := None]))
  {
    hide Acquire, Release, My, StackOk, SlotOk, CpuOk, Reaps;
    TopKind(m);
    if Top(m).WTest? {
      ReapAt(m);
    }
  }

  lemma ReapAt(m: Machine)
    requires Inv(m) && m.active < m.n && Top(m).WTest?
    ensures Top(m).i < m.n
    ensures m.parent[Top(m).i] == Some(m.active) && m.status[Top(m).i] == ZOMBIE ==> Reaps(m, Top(m).i)
  {
    hide StackOk;
    assert SlotOk(m, m.active);
    assert SlotOk(m, Top(m).i);
  }

  /** kwait's own steps. */
  lemma WaitOwn(m: Machine, choice: nat, k: nat)
    requires Inv(m) && KidsOk(m) && m.active < m.n && InWait(Top(m)) && Step(m, Run(choice)).Some?
    ensures var m' := Step(m, Run(choice)).value;
            && |m'.stack| == m.n + 1
            && (k < |m'.stack[m.active]| ==> FrameKids(m'.parent, m.active, m'.stack[m.active][k]))
  {
    hide Acquire, Release, My, StackOk, SlotOk, CpuOk;
    TopKind(m);
    var s := m.stack[m.active];
    assert |s| == 2 && FrameKids(m.parent, m.active, s[1]);
    BottomKind(m);
  }

  lemma BottomKind(m: Machine)
    requires Inv(m) && m.active < m.n
    ensures IsBottom(m.stack[m.active][0])
  {
    hide CpuOk, Locks;
    assert SlotOk(m, m.active);
  }

  /** One frame of a kwait after a step. */
  lemma KidsFrame(m: Machine, a: Act, c: nat, k: nat)
    requires Inv(m) && KidsOk(m) && Step(m, a).Some? && c < m.n
    requires |Step(m, a).value.stack| == m.n + 1 && k < |Step(m, a).value.stack[c]|
    ensures FrameKids(Step(m, a).value.parent, c, Step(m, a).value.stack[c][k])
  {
    hide Inv, Step, Noted;
    TopKind(m);
    var m' := Step(m, a).value;
    var pc := m'.stack[c][k];
    if c == m.active && a.Run? && InWait(Top(m)) {
      WaitOwn(m, a.choice, k);
    } else if InWait(pc) {
      if c == m.active { StackOwn(m, a, k); } else { StackOther(m, a, c); }
      ParentStep(m, a);
      if k < |m.stack[c]| && m.stack[c][k] == pc {
        assert FrameKids(m.parent, c, pc);
        if c == m.active && a.Run? && Top(m).FCopy? {
          CopyBelow(m, k);
        } else {
          NotedKept(m.parent, m'.parent, c, pc.i, pc.kids);
        }
      } else {
        NothingNoted(m'.parent, c);
      }
    }
  }

  lemma NothingNoted(parent: seq<Option<nat>>, c: nat)
    ensures Noted(parent, c, 0, false)
  {
  }

  /** The children of c are all that its kwait depends on. */
  lemma NotedKept(parent: seq<Option<nat>>, parent': seq<Option<nat>>, c: nat, i: nat, kids: bool)
    requires |parent'| == |parent| && forall j :: 0 <= j < |parent| ==>
               (parent[j] == Some(c) <==> parent'[j] == Some(c))
    ensures Noted(parent, c, i, kids) <==> Noted(parent', c, i, kids)
  {
  }

  lemma CopyBelow(m: Machine, k: nat)
    requires Inv(m) && m.active < m.n && Top(m).FCopy? && k < |m.stack[m.active]|
    ensures !InWait(m.stack[m.active][k])
  {
    TopKind(m);
    BottomKind(m);
  }

  lemma KidsStep(m: Machine, a: Act)
    requires Inv(m) && KidsOk(m) && Enabled(m, a)
    ensures Step(m, a).Some? && Inv(Step(m, a).value) && KidsOk(Step(m, a).value)
  {
    hide Inv, Step, Enabled, FrameKids, StatusMove;
    TopKind(m);
    StepSafe(m, a);
    var m' := Step(m, a).value;
    TopKind(m');
    ParentStep(m, a);
    forall c, k | 0 <= c < m.n && 0 <= k < |m'.stack[c]|
      ensures FrameKids(m'.parent, c, m'.stack[c][k])
    {
      KidsFrame(m, a, c, k);
    }
    forall i | 0 <= i < m.n && (m'.status[i] == FREE || m'.status[i] == ALLOCATED)
      ensures m'.parent[i] == None
    {
      LifeStep(m, a, i);
      if m.status[i] == ZOMBIE && m'.status[i] == FREE { ReapParent(m, a, i); }
      NoParent(m, a, i);
    }
  }

  lemma ReapParent(m: Machine, a: Act, i: nat)
    requires Inv(m) && i < m.n && Step(m, a).Some? && m.status[i] == ZOMBIE
    requires |Step(m, a).value.status| == m.n == |Step(m, a).value.parent| && Step(m, a).value.status[i] == FREE
    ensures Step(m, a).value.parent[i] == None
  {
    hide Acquire, Release, My, StackOk, CpuOk;
    TopKind(m);
    assert SlotOk(m, i);
  }

  lemma NoParent(m: Machine, a: Act, i: nat)
    requires Shape(m) && KidsOk(m) && i < m.n && Step(m, a).Some?
    requires var m' := Step(m, a).value;
             && |m'.status| == m.n == |m'.parent| && StatusMove(m, i, m'.status[i], a)
             && (m'.parent == m.parent
                 || (Top(m).FCopy? && Top(m).i < m.n && m'.status[Top(m).i] == READY
                     && m'.parent == m.parent[Top(m).i := Some(m.active)])
                 || (Top(m).WTest? && Top(m).i < m.n && m'.parent == m.parent[Top(m).i := None]))
    requires m.status[i] == ZOMBIE && Step(m, a).value.status[i] == FREE ==> Step(m, a).value.parent[i] == None
    ensures var m' := Step(m, a).value; m'.status[i] == FREE || m'.status[i] == ALLOCATED ==> m'.parent[i] == None
  {
    hide Step, FrameKids;
  }

  lemma {:induction false} RunKids(m: Machine, acts: seq<Act>)
    requires Inv(m) && KidsOk(m)
    ensures After(m, acts).Some? && Inv(After(m, acts).value) && KidsOk(After(m, acts).value)
    decreases |acts|
  {
    hide Inv, Step, Enabled, KidsOk;
    if acts != [] {
      TopKind(m);
      if Enabled(m, acts[0]) {
        KidsStep(m, acts[0]);
        RunKids(Step(m, acts[0]).value, acts[1..]);
      } else {
        RunKids(m, acts[1..]);
      }
    }
  }

  /** In every run, kwait gives up exactly when no slot has the caller as its parent: at the end of a
      scan it returns if there is none, and begins again if there is one. */
  lemma WaitGivesUp(n: nat, sie: bool, intena: bool, times: nat, acts: seq<Act>, choice: nat)
    requires n >= 1 && After(Boot(n, sie, intena, times), acts).Some?
    requires var m := After(Boot(n, sie, intena, times), acts).value;
             Shape(m) && m.active < m.n && Top(m).WScan? && Top(m).i >= m.n
    ensures var m := After(Boot(n, sie, intena, times), acts).value;
            && Step(m, Run(choice)).Some? && Shape(Step(m, Run(choice)).value)
            && Step(m, Run(choice)).value.active == m.active
            && (Top(Step(m, Run(choice)).value) == WScan(0, false) <==>
                exists j :: 0 <= j < m.n && m.parent[j] == Some(m.active))
  {
    hide Inv, Acquire, Release, My;
    BootInv(n, sie, intena, times);
    RunKids(Boot(n, sie, intena, times), acts);
    var m := After(Boot(n, sie, intena, times), acts).value;
    StepSafe(m, Run(choice));
    TopKind(m);
    TopKind(Step(m, Run(choice)).value);
    var s := m.stack[m.active];
    assert FrameKids(m.parent, m.active, s[|s| - 1]);
    CallerNotScan(m);
  }

  lemma CallerNotScan(m: Machine)
    requires Inv(m) && m.active < m.n && InWait(Top(m))
    ensures |m.stack[m.active]| == 2 && !InWait(m.stack[m.active][0])
  {
    TopKind(m);
    BottomKind(m);
  }
}
