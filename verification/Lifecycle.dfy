/** What the machine of module Scheduler gets done: ticks that count, forks that make children, waits that
    find the dead. */
module Lifecycle {
  import opened Words
  import opened SpinLocks
  import opened Scheduler

  // ----------------------------------------------------------------- ticks

  /** The running code is about to count a tick. */
  predicate AtTick(m: Machine, a: Act)
    requires m.active < |m.stack| && m.stack[m.active] != []
  {
    a.Run? && Top(m).Tick?
  }

  /** How many ticks are counted in a run, and how many of them make the handler call yield. */
  ghost function Ticks(m: Machine, acts: seq<Act>): nat
    decreases |acts|
  {
    if acts == [] || !Shape(m) then 0
    else if !Enabled(m, acts[0]) then Ticks(m, acts[1..])
    else
      var r := Step(m, acts[0]);
      (if AtTick(m, acts[0]) then 1 else 0) + if r.None? then 0 else Ticks(r.value, acts[1..])
  }

  ghost function Yields(m: Machine, acts: seq<Act>): nat
    decreases |acts|
  {
    if acts == [] || !Shape(m) then 0
    else if !Enabled(m, acts[0]) then Yields(m, acts[1..])
    else
      var r := Step(m, acts[0]);
      if r.None? then 0
      else
        (if AtTick(m, acts[0]) && Shape(r.value) && Top(r.value).YAcq? then 1 else 0) + Yields(r.value, acts[1..])
  }

  /** Every tick of the run is counted while a process runs. */
  ghost predicate TicksInProcess(m: Machine, acts: seq<Act>)
    decreases |acts|
  {
    if acts == [] || !Shape(m) then true
    else if !Enabled(m, acts[0]) then TicksInProcess(m, acts[1..])
    else
      var r := Step(m, acts[0]);
      (AtTick(m, acts[0]) ==> m.active < m.n) && (r.Some? ==> TicksInProcess(r.value, acts[1..]))
  }

  /** Only the timer handler moves the count. */
  lemma TimesStep(m: Machine, a: Act)
    requires Inv(m) && Enabled(m, a) && m.times < 10 && Step(m, a).Some?
    ensures Step(m, a).value.times == if AtTick(m, a) then (m.times + 1) % 10 else m.times
  {
    hide Acquire, Release, My, StackOk, SlotOk, CpuOk;
    TopKind(m);
  }

  /** A tick in a process makes the handler yield exactly when it is the tenth. */
  lemma TickYields(m: Machine, a: Act)
    requires Inv(m) && AtTick(m, a) && m.active < m.n && m.times < 10
    ensures Step(m, a).Some? && Shape(Step(m, a).value)
    ensures Top(Step(m, a).value).YAcq? <==> m.times == 9
  {
    hide StackOk, SlotOk, My;
    StepSafe(m, a);
    NoProcess(m);
  }

  /** In every run the count is the starting count and the ticks counted, modulo 10; when all ticks come in
      processes, every tenth of them yields, and no other. */
  lemma {:induction false} TicksCount(m: Machine, acts: seq<Act>)
    requires Inv(m) && m.times < 10 && After(m, acts).Some?
    ensures After(m, acts).value.times == (m.times + Ticks(m, acts)) % 10
    ensures TicksInProcess(m, acts) ==> Yields(m, acts) == (m.times + Ticks(m, acts)) / 10
    decreases |acts|
  {
    hide Inv, Step, Enabled, AtTick;
    if acts != [] {
      TopKind(m);
      if Enabled(m, acts[0]) {
        StepSafe(m, acts[0]);
        var m' := Step(m, acts[0]).value;
        TimesStep(m, acts[0]);
        TicksCount(m', acts[1..]);
        if AtTick(m, acts[0]) && m.active < m.n { TickYields(m, acts[0]); }
      } else {
        TicksCount(m, acts[1..]);
      }
    }
  }

  /** From boot on; and of any ten ticks one after another in processes exactly one yields. */
  lemma TenTicks(n: nat, sie: bool, intena: bool, times: nat, before: seq<Act>, acts: seq<Act>)
    requires n >= 1 && times < 10
    ensures After(Boot(n, sie, intena, times), before).Some?
    ensures var m := After(Boot(n, sie, intena, times), before).value;
            && m.times == (times + Ticks(Boot(n, sie, intena, times), before)) % 10
            && (TicksInProcess(m, acts) && Ticks(m, acts) == 10 ==> Yields(m, acts) == 1)
  {
    var b := Boot(n, sie, intena, times);
    BootInv(n, sie, intena, times);
    RunSafe(b, before);
    TicksCount(b, before);
    var m := After(b, before).value;
    RunSafe(m, acts);
    TicksCount(m, acts);
  }

  // ------------------------------------------------------------- the hart

  /** The hart after locks were taken and given back, and while it holds one that it took without any. */
  function Calm(c: Cpu): Cpu { Cpu(Irq(c.irq.sie, 0, c.irq.sie), {}) }

  function Locked(c: Cpu, l: Lock): Cpu { Cpu(Irq(false, 1, c.irq.sie), {l}) }

  lemma LockSteps(c: Cpu, l: Lock)
    requires c.held == {} && c.irq.noff == 0
    ensures Acquire(c, l) == Some(Locked(c, l)) && Release(Locked(c, l), l) == Some(Calm(c))
    ensures My(c) == Some(Calm(c)) && Locked(Calm(c), l) == Locked(c, l) && Calm(Calm(c)) == Calm(c)
  {
    assert {} + {l} == {l} && {l} - {l} == {};
  }

  lemma NoLocks(m: Machine)
    requires Inv(m) && Locks(m.active, Top(m)) == {}
    ensures m.cpu.held == {} && m.cpu.irq.noff == 0
  {
    hide StackOk, SlotOk, PcOk, SchedOk;
  }

  /** m with another hart, other slots, and the running context at the frames s. */
  function Set(m: Machine, cpu: Cpu, s: seq<Pc>, status: seq<Status>, parent: seq<Option<nat>>): Machine
    requires m.active < |m.stack|
  {
    Machine(m.n, cpu, m.cproc, m.active, status, parent, m.stack[m.active := s], m.times)
  }

  function Caller(m: Machine): seq<Pc>
    requires m.active < |m.stack| && m.stack[m.active] != []
  {
    Rest(m.stack[m.active])
  }

  function Times(a: Act, k: nat): seq<Act> { seq(k, _ => a) }

  lemma TimesFirst(a: Act, k: nat)
    requires k > 0
    ensures Times(a, k)[0] == a && Times(a, k)[1..] == Times(a, k - 1)
  {
  }

  lemma TimesCat(a: Act, j: nat, k: nat)
    ensures Times(a, j) + Times(a, k) == Times(a, j + k)
  {
  }

  lemma OneStep(m: Machine, a: Act, m': Machine)
    requires Shape(m) && a.Run? && Step(m, a) == Some(m')
    ensures After(m, Times(a, 1)) == Some(m')
  {
    TimesFirst(a, 1);
    assert Times(a, 0) == [];
    assert After(m', []) == Some(m');
  }

  lemma TwoSteps(m: Machine, a: Act, m1: Machine, m2: Machine)
    requires Shape(m) && Shape(m1) && a.Run? && Step(m, a) == Some(m1) && Step(m1, a) == Some(m2)
    ensures After(m, Times(a, 2)) == Some(m2)
  {
    hide Step;
    OneStep(m1, a, m2);
    TimesFirst(a, 2);
  }

  lemma MoreSteps(m: Machine, a: Act, j: nat, k: nat, m': Machine)
    requires After(m, Times(a, j)) == Some(m')
    ensures After(m, Times(a, j + k)) == After(m', Times(a, k))
  {
    AfterCat(m, Times(a, j), Times(a, k));
    TimesCat(a, j, k);
  }

  // ------------------------------------------------------------------ wait

  /** Slot i is a child of the running process that has exited. */
  predicate DeadChild(m: Machine, i: nat) {
    i < |m.parent| && i < |m.status| && m.parent[i] == Some(m.active) && m.status[i] == ZOMBIE
  }

  /** kwait takes the lock of the slot it looks at. */
  lemma WaitLooks(m: Machine)
    requires Inv(m) && m.active < m.n && Top(m).WScan? && Top(m).i < m.n
    ensures Step(m, Run(0)) == Some(Set(m, Locked(m.cpu, P(Top(m).i)), Caller(m) + [WTest(Top(m).i, Top(m).kids)],
                                        m.status, m.parent))
    ensures m.cpu.held == {} && m.cpu.irq.noff == 0
  {
    hide Acquire, Release, My, StackOk, SlotOk;
    NoLocks(m);
    LockSteps(m.cpu, P(Top(m).i));
  }

  /** kwait passes over a slot that is no dead child. */
  lemma WaitPasses(m: Machine) returns (kids: bool)
    requires Inv(m) && m.active < m.n && Top(m).WScan? && Top(m).i < m.n && !DeadChild(m, Top(m).i)
    ensures After(m, Times(Run(0), 2))
            == Some(Set(m, Calm(m.cpu), Caller(m) + [WScan(Top(m).i + 1, kids)], m.status, m.parent))
  {
    hide Acquire, Release, My, StackOk, SlotOk, CpuOk, SchedOk, PcOk, After;
    var i := Top(m).i;
    WaitLooks(m);
    LockSteps(m.cpu, P(i));
    var m1 := Set(m, Locked(m.cpu, P(i)), Caller(m) + [WTest(i, Top(m).kids)], m.status, m.parent);
    kids := if m.parent[i] != Some(m.active) then Top(m).kids else true;
    assert Rest(m1.stack[m.active]) == Caller(m);
    var m2 := Set(m, Calm(m.cpu), Caller(m) + [WScan(i + 1, kids)], m.status, m.parent);
    assert m1.stack[m.active := Caller(m) + [WScan(i + 1, kids)]] == m2.stack;
    assert Top(m1) == WTest(i, Top(m).kids);
    assert Step(m1, Run(0)) == WaitStep(m1);
    TwoSteps(m, Run(0), m1, m2);
  }

  /** At a dead child: it is reaped. */
  lemma WaitReaps(m: Machine)
    requires Inv(m) && m.active < m.n && Top(m).WScan? && DeadChild(m, Top(m).i)
    ensures var i := Top(m).i;
            && i < m.n && i != m.active
            && After(m, Times(Run(0), 2))
               == Some(Machine(m.n, Calm(m.cpu), m.cproc, m.active, m.status[i := FREE], m.parent[i := None],
                               m.stack[i := []][m.active := Caller(m)], m.times))
  {
    hide Acquire, Release, My, StackOk, CpuOk, SchedOk, PcOk, After;
    var i := Top(m).i;
    WaitLooks(m);
    LockSteps(m.cpu, P(i));
    assert SlotOk(m, m.active);
    var m1 := Set(m, Locked(m.cpu, P(i)), Caller(m) + [WTest(i, Top(m).kids)], m.status, m.parent);
    assert Rest(m1.stack[m.active]) == Caller(m);
    assert m1.stack[i := []][m.active := Caller(m)] == m.stack[i := []][m.active := Caller(m)];
    var m2 := Machine(m.n, Calm(m.cpu), m.cproc, m.active, m.status[i := FREE], m.parent[i := None],
                      m.stack[i := []][m.active := Caller(m)], m.times);
    assert Top(m1) == WTest(i, Top(m).kids);
    assert Step(m1, Run(0)) == WaitStep(m1);
    TwoSteps(m, Run(0), m1, m2);
  }

  /** A scan that is not disturbed frees the first dead child that it comes to, and kwait returns: the slot is
      free and without a parent, no lock is held, and all else is as it was. */
  lemma {:induction false} ScanReaps(m: Machine, z: nat)
    requires Inv(m) && m.active < m.n && Top(m).WScan? && Top(m).i <= z && DeadChild(m, z)
    requires forall j :: Top(m).i <= j < z ==> !DeadChild(m, j)
    ensures z < m.n && After(m, Times(Run(0), 2 * (z - Top(m).i) + 2))
            == Some(Machine(m.n, Calm(m.cpu), m.cproc, m.active, m.status[z := FREE], m.parent[z := None],
                            m.stack[z := []][m.active := Caller(m)], m.times))
    decreases z - Top(m).i
  {
    hide After, Step, StackOk, SlotOk, CpuOk, SchedOk, PcOk;
    var i := Top(m).i;
    if i == z {
      WaitReaps(m);
    } else {
      var kids := WaitPasses(m);
      var m' := Set(m, Calm(m.cpu), Caller(m) + [WScan(i + 1, kids)], m.status, m.parent);
      RunSafe(m, Times(Run(0), 2));
      assert Top(m') == WScan(i + 1, kids) && Caller(m') == Caller(m);
      assert forall j :: DeadChild(m', j) <==> DeadChild(m, j);
      ScanReaps(m', z);
      MoreSteps(m, Run(0), 2, 2 * (z - i - 1) + 2, m');
      assert m'.stack[z := []][m.active := Caller(m)] == m.stack[z := []][m.active := Caller(m)];
    }
  }

  // ------------------------------------------------- wait, in any run

  /** The k-th frame of process a is a kwait that has not come past slot z, which is a dead child of a. */
  ghost predicate Waits(m: Machine, a: nat, z: nat, k: nat) {
    && Shape(m) && a < m.n && z < m.n && m.status[z] == ZOMBIE && m.parent[z] == Some(a)
    && (m.status[a] == RUNNING || m.status[a] == READY)
    && k < |m.stack[a]| && InWait(m.stack[a][k]) && m.stack[a][k].i <= z
  }

  /** a's kwait is about to reap a slot, not behind z. */
  ghost predicate ReapsFor(m: Machine, a: nat, z: nat) {
    Shape(m) && m.active == a && Top(m).WTest? && Top(m).i <= z && Reaps(m, Top(m).i)
  }

  /** Frames under the running one stay, and an interrupt goes on top. */
  lemma FramesUnder(m: Machine, a: Act, k: nat)
    requires Inv(m) && Step(m, a).Some? && m.active < m.n && k < |m.stack[m.active]|
    requires k < |m.stack[m.active]| - 1 || (!a.Run? && !Top(m).User?)
    ensures var m' := Step(m, a).value;
            |m'.stack| == m.n + 1 && k < |m'.stack[m.active]| && m'.stack[m.active][k] == m.stack[m.active][k]
  {
    hide Acquire, Release, My, StackOk, SlotOk, CpuOk, PcOk;
    UserAlone(m);
    TopKind(m);
  }

  lemma UserAlone(m: Machine)
    requires Inv(m) && m.active < m.n
    ensures IsBottom(Top(m)) && !IsHandler(Top(m)) ==> |m.stack[m.active]| == 1
  {
    hide CpuOk, Locks;
    assert SlotOk(m, m.active);
  }

  /** A process that is ready keeps its frames while others run. */
  lemma OthersFrames(m: Machine, a: Act, c: nat)
    requires Inv(m) && Step(m, a).Some? && c < m.n && c != m.active && m.status[c] == READY
    ensures var m' := Step(m, a).value; |m'.stack| == m.n + 1 && m'.stack[c] == m.stack[c]
  {
    hide Inv, Step;
    TopKind(m);
    if !a.Run? || IsHandler(Top(m)) || m.active == m.n { FramesLoop(m, a, c); } else { FramesCode(m, a, c); }
  }

  lemma FramesLoop(m: Machine, a: Act, c: nat)
    requires Inv(m) && Step(m, a).Some? && c < m.n && c != m.active && m.status[c] == READY
    requires !a.Run? || IsHandler(Top(m)) || m.active == m.n
    ensures var m' := Step(m, a).value; |m'.stack| == m.n + 1 && m'.stack[c] == m.stack[c]
  {
    hide Acquire, Release, My, StackOk, SlotOk, CpuOk;
    TopKind(m);
  }

  lemma FramesCode(m: Machine, a: Act, c: nat)
    requires Inv(m) && Step(m, a).Some? && c < m.n && c != m.active && m.status[c] == READY
    requires a.Run? && !IsHandler(Top(m)) && m.active < m.n
    ensures var m' := Step(m, a).value; |m'.stack| == m.n + 1 && m'.stack[c] == m.stack[c]
  {
    hide Acquire, Release, My, StackOk, SlotOk, CpuOk;
    TopKind(m);
  }

  lemma NotExiting(m: Machine, k: nat)
    requires Inv(m) && m.active < m.n && k < |m.stack[m.active]| && InWait(m.stack[m.active][k])
    ensures !Top(m).XSet? && !Top(m).User? && k > 0
  {
    BottomKind(m);
    UserAlone(m);
    hide Inv;
  }

  /** The dead child itself. */
  lemma DeadStays(m: Machine, a: Act, p: nat, z: nat)
    requires Inv(m) && Enabled(m, a) && z < m.n && m.status[z] == ZOMBIE && m.parent[z] == Some(p)
    ensures Step(m, a).Some? && Inv(Step(m, a).value) && Step(m, a).value.n == m.n
    ensures var m' := Step(m, a).value;
            || (m'.status[z] == ZOMBIE && m'.parent[z] == Some(p))
            || (a.Run? && m.active == p && Top(m).WTest? && Top(m).i == z && Reaps(m, z))
  {
    hide Inv, Step, Enabled;
    TopKind(m);
    StepSafe(m, a);
    TopKind(Step(m, a).value);
    ParentStep(m, a);
    LifeStep(m, a, z);
  }

  /** The waiting process goes on existing. */
  lemma WaiterStays(m: Machine, a: Act, p: nat, z: nat, k: nat)
    requires Inv(m) && Enabled(m, a) && Waits(m, p, z, k)
    ensures Step(m, a).Some? && Inv(Step(m, a).value) && Step(m, a).value.n == m.n
    ensures Step(m, a).value.status[p] == RUNNING || Step(m, a).value.status[p] == READY
    ensures m.active == p <==> m.status[p] == RUNNING
  {
    StepSafe(m, a);
    LifeStep(m, a, p);
    ParentStep(m, a);
    if m.active == p { NotExiting(m, k); }
    assert SlotOk(m, p);
    hide Step, Enabled, StackOk, CpuOk, PcOk, SchedOk;
  }

  /** kwait's own step: on to a slot not behind z, or the slot is reaped and kwait returns. */
  lemma WaitSteps(m: Machine, choice: nat, z: nat)
    requires Inv(m) && m.active < m.n && InWait(Top(m)) && Top(m).i <= z && z < m.n && DeadChild(m, z)
    requires Step(m, Run(choice)).Some?
    ensures var m', k := Step(m, Run(choice)).value, |m.stack[m.active]| - 1;
            && m'.active == m.active && |m'.stack| == m.n + 1
            && (if ReapsFor(m, m.active, z) then
                  && m'.stack[m.active] == Rest(m.stack[m.active])
                  && m'.status == m.status[Top(m).i := FREE] && m'.parent == m.parent[Top(m).i := None]
                else
                  k < |m'.stack[m.active]| && InWait(m'.stack[m.active][k]) && m'.stack[m.active][k].i <= z)
  {
    hide Acquire, Release, My, StackOk, CpuOk;
    if Top(m).WTest? { ReapAt(m); }
  }

  lemma WaitsStep(m: Machine, a: Act, p: nat, z: nat, k: nat)
    requires Inv(m) && Enabled(m, a) && Waits(m, p, z, k)
    ensures Step(m, a).Some? && Inv(Step(m, a).value) && Shape(Step(m, a).value)
    ensures var m' := Step(m, a).value;
            || Waits(m', p, z, k)
            || (a.Run? && ReapsFor(m, p, z) && m'.active == p && m'.stack[p] == Rest(m.stack[p])
                && m'.status == m.status[Top(m).i := FREE] && m'.parent == m.parent[Top(m).i := None])
  {
    hide Inv, Step, Enabled, Reaps;
    WaiterStays(m, a, p, z, k);
    DeadStays(m, a, p, z);
    TopKind(m);
    TopKind(Step(m, a).value);
    if m.active != p {
      OthersFrames(m, a, p);
    } else {
      NotExiting(m, k);
      CallerOfWait(m, k);
      if a.Run? && k == |m.stack[p]| - 1 {
        WaitSteps(m, a.choice, z);
      } else {
        FramesUnder(m, a, k);
      }
    }
  }

  lemma CallerOfWait(m: Machine, k: nat)
    requires Inv(m) && m.active < m.n && k < |m.stack[m.active]|
    requires InWait(m.stack[m.active][k])
    ensures k == |m.stack[m.active]| - 1 ==> InWait(Top(m))
  {
  }

  /** In any run, interrupted as it may be, a kwait never comes past a dead child: when it is no longer on its
      way there, it has reaped that child or one before it, and returned to its caller at once. */
  lemma {:induction false} NotPassed(m: Machine, acts: seq<Act>, p: nat, z: nat, k: nat)
    returns (l: nat, before: Machine)
    requires Inv(m) && Waits(m, p, z, k) && After(m, acts).Some? && !Waits(After(m, acts).value, p, z, k)
    ensures l < |acts| && acts[l].Run? && After(m, acts[..l]) == Some(before) && ReapsFor(before, p, z)
    ensures Step(before, acts[l]).Some?
    ensures var after, i := Step(before, acts[l]).value, Top(before).i;
            && after.active == p && p < |after.stack| && p < |before.stack| && before.stack[p] != []
            && after.stack[p] == Rest(before.stack[p])
            && after.status == before.status[i := FREE] && after.parent == before.parent[i := None]
    decreases |acts|
  {
    hide Inv, Step, Enabled, Waits, ReapsFor;
    TopKind(m);
    WaitsAct(m, acts, p, z, k);
    if !Enabled(m, acts[0]) {
      l, before := NotPassed(m, acts[1..], p, z, k);
      Shifted(m, m, acts, l);
      l := l + 1;
    } else {
      WaitsStep(m, acts[0], p, z, k);
      var m' := Step(m, acts[0]).value;
      if Waits(m', p, z, k) {
        l, before := NotPassed(m', acts[1..], p, z, k);
        Shifted(m, m', acts, l);
        l := l + 1;
      } else {
        l, before := 0, m;
        assert acts[..0] == [];
      }
    }
  }

  lemma WaitsAct(m: Machine, acts: seq<Act>, p: nat, z: nat, k: nat)
    requires Waits(m, p, z, k) && After(m, acts).Some? && !Waits(After(m, acts).value, p, z, k)
    ensures acts != [] && p < |m.stack| && m.stack[p] != []
  {
  }

  /** From boot on: a kwait that begins to scan with a dead child there is on its way to it. Undisturbed it frees
      the first one and returns; disturbed it does not come past. */
  lemma WaitFindsDead(n: nat, sie: bool, intena: bool, times: nat, acts: seq<Act>, c: nat) returns (z: nat)
    requires n >= 1 && After(Boot(n, sie, intena, times), acts).Some?
    requires var m := After(Boot(n, sie, intena, times), acts).value;
             && Shape(m) && m.active < m.n && Top(m).WScan? && Top(m).i == 0
             && c < m.n && m.parent[c] == Some(m.active) && m.status[c] == ZOMBIE
    ensures var m := After(Boot(n, sie, intena, times), acts).value;
            && z <= c && m.parent[z] == Some(m.active) && m.status[z] == ZOMBIE
            && Waits(m, m.active, c, |m.stack[m.active]| - 1)
            && After(m, Times(Run(0), 2 * z + 2))
               == Some(Machine(m.n, Calm(m.cpu), m.cproc, m.active, m.status[z := FREE], m.parent[z := None],
                               m.stack[z := []][m.active := Caller(m)], m.times))
  {
    hide After, Boot, Step, Inv;
    BootInv(n, sie, intena, times);
    RunSafe(Boot(n, sie, intena, times), acts);
    var m := After(Boot(n, sie, intena, times), acts).value;
    NoProcess(m);
    z := FirstDead(m, c);
    ScanReaps(m, z);
  }

  lemma {:induction false} FirstDead(m: Machine, c: nat) returns (z: nat)
    requires DeadChild(m, c)
    ensures z <= c && DeadChild(m, z) && forall j :: 0 <= j < z ==> !DeadChild(m, j)
    decreases c
  {
    z := c;
    if j :| 0 <= j < c && DeadChild(m, j) {
      z := FirstDead(m, j);
    }
  }

  // ------------------------------------------------------------------ fork

  lemma ForkLooks(m: Machine, choice: nat)
    requires Inv(m) && m.active < m.n && Top(m).FScan? && Top(m).i < m.n
    ensures Step(m, Run(choice)) == Some(Set(m, Locked(m.cpu, P(Top(m).i)), Caller(m) + [FTest(Top(m).i)], m.status,
                                             m.parent))
    ensures m.cpu.held == {} && m.cpu.irq.noff == 0
  {
    hide Acquire, Release, My, StackOk, SlotOk;
    NoLocks(m);
    LockSteps(m.cpu, P(Top(m).i));
  }

  lemma ForkPasses(m: Machine, choice: nat)
    requires Inv(m) && m.active < m.n && Top(m).FScan? && Top(m).i < m.n && m.status[Top(m).i] != FREE
    ensures After(m, Times(Run(choice), 2))
            == Some(Set(m, Calm(m.cpu), Caller(m) + [FScan(Top(m).i + 1)], m.status, m.parent))
  {
    hide Acquire, Release, My, StackOk, SlotOk, CpuOk, SchedOk, PcOk, After;
    var i := Top(m).i;
    ForkLooks(m, choice);
    LockSteps(m.cpu, P(i));
    var m1 := Set(m, Locked(m.cpu, P(i)), Caller(m) + [FTest(i)], m.status, m.parent);
    var m2 := Set(m, Calm(m.cpu), Caller(m) + [FScan(i + 1)], m.status, m.parent);
    assert Rest(m1.stack[m.active]) == Caller(m);
    assert m1.stack[m.active := Caller(m) + [FScan(i + 1)]] == m2.stack;
    assert Top(m1) == FTest(i);
    assert Step(m1, Run(choice)) == ForkStep(m1, choice);
    TwoSteps(m, Run(choice), m1, m2);
  }

  /** The frames of a fork on slot i, one after another. */
  lemma FillSteps(m: Machine, i: nat, choice: nat)
    requires Inv(m) && m.active < m.n && Top(m) == FScan(i) && i < m.n && m.status[i] == FREE
    ensures After(m, Times(Run(choice), 3))
            == Some(Set(m, Cpu(Irq(false, 2, m.cpu.irq.sie), {P(i), Pid}), Caller(m) + [FPidHeld(i)], m.status,
                        m.parent))
  {
    hide Step, StackOk, SlotOk, CpuOk, SchedOk, PcOk, After;
    ForkLooks(m, choice);
    var m1 := Set(m, Locked(m.cpu, P(i)), Caller(m) + [FTest(i)], m.status, m.parent);
    var m2 := Set(m, Locked(m.cpu, P(i)), Caller(m) + [FPid(i)], m.status, m.parent);
    var c3 := Cpu(Irq(false, 2, m.cpu.irq.sie), {P(i), Pid});
    var m3 := Set(m, c3, Caller(m) + [FPidHeld(i)], m.status, m.parent);
    PidSteps(m.cpu, i);
    TestPoint(m1, i, choice, Caller(m));
    PidPoint(m2, m3, i, choice, Caller(m));
    assert m1.stack[m.active := Caller(m) + [FPid(i)]] == m2.stack;
    assert m2.stack[m.active := Caller(m) + [FPidHeld(i)]] == m3.stack;
    TwoSteps(m, Run(choice), m1, m2);
    OneStep(m2, Run(choice), m3);
    MoreSteps(m, Run(choice), 2, 1, m2);
  }

  lemma PidSteps(c: Cpu, i: nat)
    requires c.held == {} && c.irq.noff == 0
    ensures var d := Cpu(Irq(false, 2, c.irq.sie), {P(i), Pid});
            Acquire(Locked(c, P(i)), Pid) == Some(d) && Release(d, Pid) == Some(Locked(c, P(i)))
  {
    assert {P(i)} + {Pid} == {P(i), Pid} && {P(i), Pid} - {Pid} == {P(i)};
  }

  /** Memory is there: the child is ready, at the point where its first run begins, with the caller as
      its parent. */
  lemma ForkFills(m: Machine, i: nat, choice: nat)
    requires Inv(m) && m.active < m.n && Top(m) == FScan(i) && i < m.n && m.status[i] == FREE && choice > 0
    ensures i != m.active
    ensures After(m, Times(Run(choice), 6))
            == Some(Machine(m.n, Calm(m.cpu), m.cproc, m.active, m.status[i := READY], m.parent[i := Some(m.active)],
                            m.stack[i := [FRet]][m.active := Caller(m)], m.times))
  {
    hide Acquire, Release, My, StackOk, CpuOk, SchedOk, PcOk, After;
    FillSteps(m, i, choice);
    ForkLooks(m, choice);
    PidSteps(m.cpu, i);
    LockSteps(m.cpu, P(i));
    assert SlotOk(m, m.active);
    hide SlotOk;
    var s, a := Caller(m), m.active;
    var m3 := Set(m, Cpu(Irq(false, 2, m.cpu.irq.sie), {P(i), Pid}), s + [FPidHeld(i)], m.status, m.parent);
    var m4 := Set(m, Locked(m.cpu, P(i)), s + [FFill(i)], m.status, m.parent);
    var m5 := Set(m, Locked(m.cpu, P(i)), s + [FCopy(i)], m.status[i := ALLOCATED], m.parent);
    var m6 := Machine(m.n, Calm(m.cpu), m.cproc, a, m.status[i := READY], m.parent[i := Some(a)],
                      m.stack[i := [FRet]][a := s], m.times);
    FillPoint(m3, m4, i, choice, s);
    FillTaken(m4, m5, i, choice, s);
    CopyPoint(m5, m6, i, choice, s);
    assert m3.stack[a := s + [FFill(i)]] == m4.stack && m4.stack[a := s + [FCopy(i)]] == m5.stack;
    assert m5.stack[i := [FRet]][a := s] == m6.stack;
    assert m5.status[i := READY] == m6.status;
    TwoSteps(m3, Run(choice), m4, m5);
    OneStep(m5, Run(choice), m6);
    MoreSteps(m3, Run(choice), 2, 1, m5);
    MoreSteps(m, Run(choice), 3, 3, m3);
  }

  lemma TestPoint(m: Machine, i: nat, choice: nat, s: seq<Pc>)
    requires Shape(m) && m.active < m.n && i < m.n && m.stack[m.active] == s + [FTest(i)] && m.status[i] == FREE
    ensures Step(m, Run(choice)) == Some(Set(m, m.cpu, s + [FPid(i)], m.status, m.parent))
  {
    assert Rest(m.stack[m.active]) == s && Top(m) == FTest(i);
  }

  lemma PidPoint(m: Machine, m': Machine, i: nat, choice: nat, s: seq<Pc>)
    requires Shape(m) && m.active < m.n && m.stack[m.active] == s + [FPid(i)] && Acquire(m.cpu, Pid) == Some(m'.cpu)
    ensures Step(m, Run(choice)) == Some(Set(m, m'.cpu, s + [FPidHeld(i)], m.status, m.parent))
  {
    hide Acquire;
    assert Rest(m.stack[m.active]) == s && Top(m) == FPid(i);
  }

  lemma FillPoint(m: Machine, m': Machine, i: nat, choice: nat, s: seq<Pc>)
    requires Shape(m) && m.active < m.n && i < m.n && m.stack[m.active] == s + [FPidHeld(i)]
    requires Release(m.cpu, Pid) == Some(m'.cpu)
    ensures Step(m, Run(choice)) == Some(Set(m, m'.cpu, s + [FFill(i)], m.status, m.parent))
  {
    hide Release;
    assert Rest(m.stack[m.active]) == s && Top(m) == FPidHeld(i);
  }

  lemma FillFailed(m: Machine, m': Machine, i: nat, s: seq<Pc>)
    requires Shape(m) && m.active < m.n && i < m.n && m.stack[m.active] == s + [FFill(i)]
    requires Release(m.cpu, P(i)) == Some(m'.cpu)
    ensures Step(m, Run(0)) == Some(Set(m, m'.cpu, s, m.status[i := FREE], m.parent))
  {
    hide Release;
    assert Rest(m.stack[m.active]) == s && Top(m) == FFill(i);
  }

  /** No frame for the trapframe: the slot is free again and no lock is held. */
  lemma ForkFails(m: Machine, i: nat)
    requires Inv(m) && m.active < m.n && Top(m) == FScan(i) && i < m.n && m.status[i] == FREE
    ensures After(m, Times(Run(0), 5)) == Some(Set(m, Calm(m.cpu), Caller(m), m.status, m.parent))
  {
    hide Acquire, Release, My, StackOk, CpuOk, SchedOk, PcOk, SlotOk, After;
    FillSteps(m, i, 0);
    ForkLooks(m, 0);
    PidSteps(m.cpu, i);
    LockSteps(m.cpu, P(i));
    var s, a := Caller(m), m.active;
    var m3 := Set(m, Cpu(Irq(false, 2, m.cpu.irq.sie), {P(i), Pid}), s + [FPidHeld(i)], m.status, m.parent);
    var m4 := Set(m, Locked(m.cpu, P(i)), s + [FFill(i)], m.status, m.parent);
    var m5 := Set(m, Calm(m.cpu), s, m.status, m.parent);
    FillPoint(m3, m4, i, 0, s);
    FillFailed(m4, m5, i, s);
    assert m3.stack[a := s + [FFill(i)]] == m4.stack && m4.stack[a := s] == m5.stack;
    assert m4.status[i := FREE] == m5.status;
    TwoSteps(m3, Run(0), m4, m5);
    MoreSteps(m, Run(0), 3, 2, m3);
  }

  lemma FillTaken(m: Machine, m': Machine, i: nat, choice: nat, s: seq<Pc>)
    requires Shape(m) && m.active < m.n && i < m.n && m.stack[m.active] == s + [FFill(i)] && choice > 0
    ensures Step(m, Run(choice)) == Some(Set(m, m.cpu, s + [FCopy(i)], m.status[i := ALLOCATED], m.parent))
  {
    assert Rest(m.stack[m.active]) == s && Top(m) == FFill(i);
  }

  lemma CopyPoint(m: Machine, m': Machine, i: nat, choice: nat, s: seq<Pc>)
    requires Shape(m) && m.active < m.n && i < m.n && i != m.active && m.stack[m.active] == s + [FCopy(i)]
    requires Release(m.cpu, P(i)) == Some(m'.cpu)
    ensures Step(m, Run(choice))
            == Some(Machine(m.n, m'.cpu, m.cproc, m.active, m.status[i := READY], m.parent[i := Some(m.active)],
                            m.stack[i := [FRet]][m.active := s], m.times))
  {
    hide Release;
    assert Rest(m.stack[m.active]) == s && Top(m) == FCopy(i);
  }

  /** A fork that is not disturbed makes a child in the first free slot, and returns: the child is ready, its
      parent is the caller, no lock is held, and all else is as it was. */
  lemma {:induction false} ForkMakes(m: Machine, f: nat, choice: nat)
    requires Inv(m) && m.active < m.n && Top(m).FScan? && Top(m).i <= f < m.n && m.status[f] == FREE && choice > 0
    requires forall j :: Top(m).i <= j < f ==> m.status[j] != FREE
    ensures f != m.active
    ensures After(m, Times(Run(choice), 2 * (f - Top(m).i) + 6))
            == Some(Machine(m.n, Calm(m.cpu), m.cproc, m.active, m.status[f := READY], m.parent[f := Some(m.active)],
                            m.stack[f := [FRet]][m.active := Caller(m)], m.times))
    decreases f - Top(m).i
  {
    hide After, Step, StackOk, SlotOk, CpuOk, SchedOk, PcOk;
    var i := Top(m).i;
    if i == f {
      ForkFills(m, f, choice);
    } else {
      ForkPasses(m, choice);
      var m' := Set(m, Calm(m.cpu), Caller(m) + [FScan(i + 1)], m.status, m.parent);
      RunSafe(m, Times(Run(choice), 2));
      assert Top(m') == FScan(i + 1) && Caller(m') == Caller(m);
      ForkMakes(m', f, choice);
      MoreSteps(m, Run(choice), 2, 2 * (f - i - 1) + 6, m');
      assert m'.stack[f := [FRet]][m.active := Caller(m)] == m.stack[f := [FRet]][m.active := Caller(m)];
    }
  }

  lemma ForkEnds(m: Machine, choice: nat)
    requires Inv(m) && m.active < m.n && Top(m) == FScan(m.n)
    ensures Step(m, Run(choice)) == Some(Set(m, m.cpu, Caller(m), m.status, m.parent))
  {
    hide StackOk, SlotOk, CpuOk;
  }

  /** With every slot taken it returns without a child, and all is as it was. */
  lemma {:induction false} ForkFull(m: Machine, choice: nat) returns (cpu: Cpu)
    requires Inv(m) && m.active < m.n && Top(m).FScan? && Top(m).i <= m.n
    requires forall j :: Top(m).i <= j < m.n ==> m.status[j] != FREE
    ensures cpu.irq.sie == m.cpu.irq.sie && cpu.irq.noff == 0 && cpu.held == {}
    ensures After(m, Times(Run(choice), 2 * (m.n - Top(m).i) + 1))
            == Some(Set(m, cpu, Caller(m), m.status, m.parent))
    decreases m.n - Top(m).i
  {
    hide After, Step, StackOk, SlotOk, CpuOk, SchedOk, PcOk;
    var i := Top(m).i;
    NoLocks(m);
    if i == m.n {
      ForkEnds(m, choice);
      OneStep(m, Run(choice), Set(m, m.cpu, Caller(m), m.status, m.parent));
      cpu := m.cpu;
    } else {
      ForkPasses(m, choice);
      var m' := Set(m, Calm(m.cpu), Caller(m) + [FScan(i + 1)], m.status, m.parent);
      RunSafe(m, Times(Run(choice), 2));
      assert Top(m') == FScan(i + 1) && Caller(m') == Caller(m);
      cpu := ForkFull(m', choice);
      MoreSteps(m, Run(choice), 2, 2 * (m.n - i - 1) + 1, m');
      assert Set(m', cpu, Caller(m'), m'.status, m'.parent) == Set(m, cpu, Caller(m), m.status, m.parent);
    }
  }

  // -------------------------------------------------------- the scheduler

  /** The scheduler's loop, standing at pc. */
  function Looping(m: Machine, cpu: Cpu, pc: Pc): Machine
    requires m.n < |m.stack|
  {
    Machine(m.n, cpu, None, m.n, m.status, m.parent, m.stack[m.n := [pc]], m.times)
  }

  lemma LoopLooks(m: Machine)
    requires Inv(m) && m.active == m.n && Top(m).SScan? && Top(m).i < m.n
    ensures Step(m, Run(0)) == Some(Looping(m, Locked(m.cpu, P(Top(m).i)), STest(Top(m).i)))
    ensures m.cpu.held == {} && m.cpu.irq.noff == 0 && m.stack[m.n] == [Top(m)]
  {
    hide Acquire, Release, My, SlotOk;
    NoLocks(m);
    NoProcess(m);
    LockSteps(m.cpu, P(Top(m).i));
    LoopAlone(m);
    assert Rest(m.stack[m.n]) + [STest(Top(m).i)] == [STest(Top(m).i)];
  }

  lemma LoopAlone(m: Machine)
    requires Inv(m) && m.active == m.n && IsSched(Top(m))
    ensures m.stack[m.n] == [Top(m)]
  {
    hide SlotOk, CpuOk, PcOk;
  }

  lemma LoopPasses(m: Machine)
    requires Inv(m) && m.active == m.n && Top(m).SScan? && Top(m).i < m.n && m.status[Top(m).i] != READY
    ensures After(m, Times(Run(0), 2)) == Some(Looping(m, Calm(m.cpu), SScan(Top(m).i + 1)))
  {
    hide Acquire, Release, My, StackOk, SlotOk, CpuOk, SchedOk, PcOk, After;
    var i := Top(m).i;
    LoopLooks(m);
    LockSteps(m.cpu, P(i));
    var m1 := Looping(m, Locked(m.cpu, P(i)), STest(i));
    var m2 := Looping(m, Calm(m.cpu), SScan(i + 1));
    assert Top(m1) == STest(i) && Rest(m1.stack[m.n]) + [SScan(i + 1)] == [SScan(i + 1)];
    assert m1.stack[m.n := [SScan(i + 1)]] == m2.stack;
    assert Step(m1, Run(0)) == SchedStep(m1);
    TwoSteps(m, Run(0), m1, m2);
  }

  /** The hart goes over to process r, whose lock is held. */
  function Given(m: Machine, r: nat): Machine
    requires m.n < |m.stack| && r < |m.status|
  {
    Machine(m.n, Locked(m.cpu, P(r)), Some(r), r, m.status[r := RUNNING], m.parent, m.stack[m.n := [SSwtch(r)]],
            m.times)
  }

  lemma LoopGives(m: Machine)
    requires Inv(m) && m.active == m.n && Top(m).SScan? && Top(m).i < m.n && m.status[Top(m).i] == READY
    ensures After(m, Times(Run(0), 2)) == Some(Given(m, Top(m).i))
  {
    hide Acquire, Release, My, StackOk, SlotOk, CpuOk, SchedOk, PcOk, After;
    var i := Top(m).i;
    LoopLooks(m);
    var m1 := Looping(m, Locked(m.cpu, P(i)), STest(i));
    assert Top(m1) == STest(i) && Rest(m1.stack[m.n]) + [SSwtch(i)] == [SSwtch(i)];
    assert m1.stack[m.n := [SSwtch(i)]] == m.stack[m.n := [SSwtch(i)]];
    assert Step(m1, Run(0)) == SchedStep(m1);
    TwoSteps(m, Run(0), m1, Given(m, i));
  }

  /** Undisturbed, the scheduler's scan hands the hart to the first ready process that it comes to, which goes on
      where it was, and nothing else changes. */
  lemma {:induction false} ScanGives(m: Machine, r: nat)
    requires Inv(m) && m.active == m.n && Top(m).SScan? && Top(m).i <= r < m.n && m.status[r] == READY
    requires forall j :: Top(m).i <= j < r ==> m.status[j] != READY
    ensures After(m, Times(Run(0), 2 * (r - Top(m).i) + 2)) == Some(Given(m, r))
    decreases r - Top(m).i
  {
    hide After, Step, StackOk, SlotOk, CpuOk, SchedOk, PcOk;
    var i := Top(m).i;
    if i == r {
      LoopGives(m);
    } else {
      LoopPasses(m);
      var m' := Looping(m, Calm(m.cpu), SScan(i + 1));
      RunSafe(m, Times(Run(0), 2));
      assert Top(m') == SScan(i + 1);
      ScanGives(m', r);
      MoreSteps(m, Run(0), 2, 2 * (r - i - 1) + 2, m');
      assert m'.stack[m.n := [SSwtch(r)]] == m.stack[m.n := [SSwtch(r)]];
    }
  }

  /** The running process leaves the hart to the scheduler's loop, which stands behind its swtch with the lock
      of that process. */
  function Left(m: Machine, s: seq<Pc>, st: Status): Machine
    requires m.active < m.n == |m.status| && |m.stack| == m.n + 1
  {
    Machine(m.n, Locked(m.cpu, P(m.active)), Some(m.active), m.n, m.status[m.active := st], m.parent,
            m.stack[m.active := s][m.n := [SBack(m.active)]], m.times)
  }

  lemma LeaveLooks(m: Machine)
    requires Inv(m) && m.active < m.n && (Top(m).YAcq? || Top(m).XAcq?)
    ensures Step(m, Run(0)) == Some(Set(m, Locked(m.cpu, P(m.active)),
                                        Caller(m) + [if Top(m).YAcq? then YSet else XSet], m.status, m.parent))
    ensures m.cpu.held == {} && m.cpu.irq.noff == 0 && m.stack[m.n] == [SSwtch(m.active)] && m.cproc == Some(m.active)
  {
    hide Acquire, Release, My, StackOk;
    NoLocks(m);
    NoProcess(m);
    LockSteps(m.cpu, P(m.active));
    LockSteps(Calm(m.cpu), P(m.active));
  }

  /** yield: two steps on the process is ready again, and the scheduler goes on; exit: it is a zombie. */
  lemma Leaves(m: Machine)
    requires Inv(m) && m.active < m.n && (Top(m).YAcq? || Top(m).XAcq?)
    ensures After(m, Times(Run(0), 2))
            == Some(if Top(m).YAcq? then Left(m, Caller(m) + [YBack], READY) else Left(m, Caller(m) + [Gone], ZOMBIE))
  {
    hide Step, StackOk, SlotOk, CpuOk, SchedOk, PcOk, After;
    var y, a := Top(m).YAcq?, m.active;
    LeaveLooks(m);
    var m1 := Set(m, Locked(m.cpu, P(a)), Caller(m) + [if y then YSet else XSet], m.status, m.parent);
    LeavePoint(m1, Caller(m));
    var m2 := if y then Left(m, Caller(m) + [YBack], READY) else Left(m, Caller(m) + [Gone], ZOMBIE);
    assert m1.stack[a := m2.stack[a]][m.n := [SBack(a)]] == m2.stack;
    TwoSteps(m, Run(0), m1, m2);
  }

  lemma LeavePoint(m: Machine, s: seq<Pc>)
    requires Shape(m) && m.active < m.n && m.stack[m.n] == [SSwtch(m.active)] && My(m.cpu) == Some(m.cpu)
    requires m.stack[m.active] == s + [YSet] || m.stack[m.active] == s + [XSet]
    ensures var y, a := Top(m).YSet?, m.active;
            Step(m, Run(0))
            == Some(Machine(m.n, m.cpu, m.cproc, m.n, m.status[a := if y then READY else ZOMBIE], m.parent,
                            m.stack[a := s + [if y then YBack else Gone]][m.n := [SBack(a)]], m.times))
  {
    hide My;
    assert Rest(m.stack[m.active]) == s;
    assert Rest([SSwtch(m.active)]) + [SBack(m.active)] == [SBack(m.active)];
  }

  /** A child that runs for the first time comes to user mode, and a process that yielded back to its caller. */
  lemma Resumes(m: Machine)
    requires Inv(m) && m.active < m.n && (Top(m).FRet? || Top(m).YBack?)
    ensures var k := if Top(m).FRet? then 2 else 1;
            var r := After(m, Times(Run(0), k));
            && r.Some? && r.value.cpu.held == {} && r.value.active == m.active && r.value.status == m.status
            && r.value.parent == m.parent && r.value.times == m.times
            && r.value.stack == m.stack[m.active := if Top(m).FRet? then [User] else Caller(m)]
  {
    hide StackOk, SchedOk, SlotOk, After;
    var a := m.active;
    var i := P(a);
    assert m.cpu.held == {i};
    assert m.cpu.held - {i} == {};
    if Top(m).YBack? {
      var m1 := Step(m, Run(0)).value;
      OneStep(m, Run(0), m1);
    } else {
      var m1 := Step(m, Run(0)).value;
      assert Top(m1) == Ret;
      var m2 := Step(m1, Run(0)).value;
      assert m2.stack == m.stack[a := [User]];
      TwoSteps(m, Run(0), m1, m2);
    }
  }

  // ----------------------------------------------------------- interrupts

  /** An interrupt and k steps behind it. */
  function Served(irq: Act, k: nat): seq<Act> { [irq] + Times(Run(0), k) }

  /** What a timer interrupt leaves: the interrupted code with the tick counted, by a handler that returns. */
  lemma TimerServed(m: Machine)
    requires Inv(m) && m.cpu.irq.sie && !Top(m).User? && m.times + 1 != 10
    ensures After(m, Served(TimerIrq, 2))
            == Some(Machine(m.n, m.cpu, m.cproc, m.active, m.status, m.parent, m.stack, m.times + 1))
  {
    hide StackOk, SlotOk, SchedOk, CpuOk, PcOk, After;
    var s, off := m.stack[m.active], Intr(m.cpu, false);
    var m1 := Set(m, off, s + [Tick(false)], m.status, m.parent);
    var m2 := Machine(m.n, off, m.cproc, m.active, m.status, m.parent, m.stack[m.active := s + [Done(false)]],
                      m.times + 1);
    var m3 := Machine(m.n, m.cpu, m.cproc, m.active, m.status, m.parent, m.stack, m.times + 1);
    assert Rest(s + [Tick(false)]) == s == Rest(s + [Done(false)]);
    assert m.stack[m.active := s] == m.stack && m2.stack[m.active := s] == m.stack;
    assert m1.stack[m.active := s + [Done(false)]] == m2.stack;
    assert Step(m, TimerIrq) == Some(m1);
    HandlerRuns(m1, m2);
    HandlerRuns(m2, m3);
    TwoSteps(m1, Run(0), m2, m3);
    ServedIs(m, TimerIrq, 2, m1);
  }

  lemma HandlerRuns(m: Machine, m': Machine)
    requires Shape(m) && IsHandler(Top(m)) && HandlerStep(m) == Some(m')
    ensures Step(m, Run(0)) == Some(m')
  {
    hide HandlerStep;
  }

  lemma ServedIs(m: Machine, irq: Act, k: nat, m1: Machine)
    requires Shape(m) && Enabled(m, irq) && Step(m, irq) == Some(m1)
    ensures After(m, Served(irq, k)) == After(m1, Times(Run(0), k))
  {
    hide Step, Enabled;
    assert Served(irq, k)[1..] == Times(Run(0), k);
  }

  /** A key press leaves the interrupted code as it was. */
  lemma KeyServed(m: Machine)
    requires Inv(m) && m.cpu.irq.sie && !Top(m).User?
    ensures var r := After(m, Served(ConsoleIrq, 3));
            && r.Some? && r.value.stack == m.stack && r.value.status == m.status && r.value.parent == m.parent
            && r.value.active == m.active && r.value.cproc == m.cproc && r.value.times == m.times
            && r.value.cpu.irq.sie && r.value.cpu.irq.noff == 0 && r.value.cpu.held == {}
  {
    hide Acquire, Release, StackOk, SlotOk, SchedOk, PcOk, After;
    var s, off := m.stack[m.active], Intr(m.cpu, false);
    assert m.cpu.held == {} && m.cpu.irq.noff == 0;
    LockSteps(off, Cons);
    var m1 := Set(m, off, s + [Input(false)], m.status, m.parent);
    var m2 := Set(m, Locked(off, Cons), s + [InputHeld(false)], m.status, m.parent);
    var m3 := Set(m, Calm(off), s + [Done(false)], m.status, m.parent);
    var m4 := Set(m, Intr(Calm(off), true), s, m.status, m.parent);
    assert Rest(s + [Input(false)]) == s == Rest(s + [InputHeld(false)]) && Rest(s + [Done(false)]) == s;
    assert m1.stack[m.active := s + [InputHeld(false)]] == m2.stack;
    assert m2.stack[m.active := s + [Done(false)]] == m3.stack && m3.stack[m.active := s] == m4.stack == m.stack;
    assert Step(m, ConsoleIrq) == Some(m1);
    HandlerRuns(m1, m2);
    HandlerRuns(m2, m3);
    HandlerRuns(m3, m4);
    TwoSteps(m1, Run(0), m2, m3);
    OneStep(m3, Run(0), m4);
    MoreSteps(m1, Run(0), 2, 1, m3);
    ServedIs(m, ConsoleIrq, 3, m1);
  }

  /** In user mode interrupts always arrive, and the process comes back to user mode. */
  lemma UserServed(m: Machine)
    requires Inv(m) && m.active < m.n && Top(m).User? && m.times + 1 != 10
    ensures var r := After(m, Served(TimerIrq, 3));
            && r.Some? && r.value.stack == m.stack && r.value.status == m.status && r.value.parent == m.parent
            && r.value.active == m.active && r.value.cproc == m.cproc && r.value.times == m.times + 1
            && r.value.cpu.irq.sie && r.value.cpu.irq.noff == 0 && r.value.cpu.held == {}
  {
    hide StackOk, SlotOk, SchedOk, PcOk, After, Acquire, Release, Step;
    var c := Cpu(Irq(false, 0, false), {});
    UserTrapped(m);
    var m1 := Set(m, c, [Tick(true)], m.status, m.parent);
    var m2 := Machine(m.n, c, m.cproc, m.active, m.status, m.parent, m.stack[m.active := [Done(true)]], m.times + 1);
    var m3 := Machine(m.n, c, m.cproc, m.active, m.status, m.parent, m.stack[m.active := [Ret]], m.times + 1);
    var m4 := Machine(m.n, Intr(c, true), m.cproc, m.active, m.status, m.parent, m.stack, m.times + 1);
    TickPoint(m1);
    DonePoint(m2);
    RetPoint(m3);
    assert m1.stack[m.active := [Done(true)]] == m2.stack && m2.stack[m.active := [Ret]] == m3.stack;
    assert m3.stack[m.active := [User]] == m.stack;
    TwoSteps(m1, Run(0), m2, m3);
    OneStep(m3, Run(0), m4);
    MoreSteps(m1, Run(0), 2, 1, m3);
    ServedIs(m, TimerIrq, 3, m1);
  }

  lemma UserTrapped(m: Machine)
    requires Inv(m) && m.active < m.n && Top(m).User?
    ensures m.stack[m.active] == [User] && Enabled(m, TimerIrq)
    ensures Step(m, TimerIrq) == Some(Set(m, Cpu(Irq(false, 0, false), {}), [Tick(true)], m.status, m.parent))
  {
    hide StackOk, SlotOk, SchedOk, PcOk;
    assert m.cpu.held == {} && m.cpu.irq.noff == 0;
    UserAlone(m);
  }

  lemma TickPoint(m: Machine)
    requires Shape(m) && m.stack[m.active] == [Tick(true)] && m.times + 1 != 10
    ensures Step(m, Run(0)) == Some(Machine(m.n, m.cpu, m.cproc, m.active, m.status, m.parent,
                                            m.stack[m.active := [Done(true)]], m.times + 1))
  {
    assert Rest([Tick(true)]) + [Done(true)] == [Done(true)];
  }

  lemma DonePoint(m: Machine)
    requires Shape(m) && m.stack[m.active] == [Done(true)]
    ensures Step(m, Run(0)) == Some(Set(m, m.cpu, [Ret], m.status, m.parent))
  {
    assert Rest([Done(true)]) + [Ret] == [Ret];
  }

  lemma RetPoint(m: Machine)
    requires Shape(m) && m.active < m.n && m.stack[m.active] == [Ret] && m.cpu.irq == Irq(false, 0, false)
    ensures Step(m, Run(0)) == Some(Set(m, Intr(m.cpu, true), [User], m.status, m.parent))
  {
  }

  // --------------------------------------------------------- system calls

  /** A fork or wait of the running process begins with slot 0. */
  lemma CallBegins(m: Machine, choice: nat)
    requires Inv(m) && m.active < m.n && Top(m).Sys? && (choice == 3 || choice == 4)
    ensures Step(m, Run(choice))
            == Some(Set(m, Calm(m.cpu), m.stack[m.active] + [if choice == 3 then FScan(0) else WScan(0, false)],
                        m.status, m.parent))
  {
    hide StackOk, SlotOk, SchedOk, PcOk, Acquire, Release;
    NoLocks(m);
    LockSteps(m.cpu, Pid);
  }

  lemma CallRuns(m: Machine, choice: nat, a: Act, k: nat, m1: Machine)
    requires Shape(m) && Step(m, Run(choice)) == Some(m1)
    ensures After(m, [Run(choice)] + Times(a, k)) == After(m1, Times(a, k))
  {
    hide Step;
    assert ([Run(choice)] + Times(a, k))[1..] == Times(a, k);
  }

  /** The whole call of fork, with memory there and nothing to disturb it: the first free slot of all becomes a
      ready child of the caller, which is back in its system call. */
  lemma ForkCall(m: Machine, f: nat, choice: nat)
    requires Inv(m) && m.active < m.n && Top(m).Sys? && f < m.n && m.status[f] == FREE && choice > 0
    requires forall j :: 0 <= j < f ==> m.status[j] != FREE
    ensures f != m.active
    ensures After(m, [Run(3)] + Times(Run(choice), 2 * f + 6))
            == Some(Machine(m.n, Calm(m.cpu), m.cproc, m.active, m.status[f := READY], m.parent[f := Some(m.active)],
                            m.stack[f := [FRet]], m.times))
  {
    hide Step, After, StackOk, SlotOk, CpuOk, SchedOk, PcOk;
    CallBegins(m, 3);
    StepSafe(m, Run(3));
    var m1 := Set(m, Calm(m.cpu), m.stack[m.active] + [FScan(0)], m.status, m.parent);
    assert Top(m1) == FScan(0) && Caller(m1) == m.stack[m.active];
    ForkMakes(m1, f, choice);
    CallRuns(m, 3, Run(choice), 2 * f + 6, m1);
    assert m1.stack[f := [FRet]][m.active := m.stack[m.active]] == m.stack[f := [FRet]];
  }

  lemma DeadApart(m: Machine, z: nat)
    requires Inv(m) && m.active < m.n && DeadChild(m, z)
    ensures Shape(m) && z < m.n && z != m.active
  {
    NoProcess(m);
  }

  /** The whole call of wait, undisturbed, with a dead child: the first one's slot is free. */
  lemma WaitCall(m: Machine, z: nat)
    requires Inv(m) && m.active < m.n && Top(m).Sys? && DeadChild(m, z)
    requires forall j :: 0 <= j < z ==> !DeadChild(m, j)
    ensures z < m.n && z != m.active
    ensures After(m, [Run(4)] + Times(Run(0), 2 * z + 2))
            == Some(Machine(m.n, Calm(m.cpu), m.cproc, m.active, m.status[z := FREE], m.parent[z := None],
                            m.stack[z := []], m.times))
  {
    hide Step, After, StackOk, SlotOk, CpuOk, SchedOk, PcOk, Inv;
    DeadApart(m, z);
    CallBegins(m, 4);
    StepSafe(m, Run(4));
    var m1 := Set(m, Calm(m.cpu), m.stack[m.active] + [WScan(0, false)], m.status, m.parent);
    assert Top(m1) == WScan(0, false) && Caller(m1) == m.stack[m.active];
    assert forall j :: DeadChild(m1, j) <==> DeadChild(m, j);
    ScanReaps(m1, z);
    CallRuns(m, 4, Run(0), 2 * z + 2, m1);
    assert m1.stack[z := []][m.active := m.stack[m.active]] == m.stack[z := []];
  }

  /** A system call that ends brings the process back to user mode, interrupts on and no lock held. */
  lemma CallReturns(m: Machine)
    requires Inv(m) && m.active < m.n && Top(m).Sys?
    ensures var r := After(m, Times(Run(0), 2));
            && r.Some? && r.value.stack == m.stack[m.active := [User]] && r.value.status == m.status
            && r.value.parent == m.parent && r.value.active == m.active && r.value.times == m.times
            && r.value.cpu == Cpu(Irq(true, 0, m.cpu.irq.sie), {})
  {
    hide StackOk, SlotOk, SchedOk, PcOk, After, Acquire, Release;
    NoLocks(m);
    UserAlone(m);
    LockSteps(m.cpu, Pid);
    var m1 := Set(m, m.cpu, [Ret], m.status, m.parent);
    var m2 := Set(m, Cpu(Irq(true, 0, m.cpu.irq.sie), {}), [User], m.status, m.parent);
    assert Rest(m.stack[m.active]) + [Ret] == [Ret];
    assert Top(m1) == Ret && m1.stack[m.active := [User]] == m2.stack;
    TwoSteps(m, Run(0), m1, m2);
  }
}
