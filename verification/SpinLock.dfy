/** Interrupt nesting and spinlocks on one hart. */
module SpinLocks {
  import opened Words

  /** sstatus.SIE and the two counters of struct cpu. */
  datatype Irq = Irq(sie: bool, noff: nat, intena: bool)

  function IrqPush(c: Irq): Irq {
    Irq(false, c.noff + 1, if c.noff == 0 then c.sie else c.intena)
  }

  /** None is one of pop_off's panics. */
  function IrqPop(c: Irq): Option<Irq> {
    if c.sie || c.noff < 1 then None
    else Some(Irq(c.noff == 1 && c.intena, c.noff - 1, c.intena))
  }

  function PushN(c: Irq, k: nat): Irq {
    if k == 0 then c else IrqPush(PushN(c, k - 1))
  }

  function PopN(c: Irq, k: nat): Option<Irq>
    decreases k
  {
    if k == 0 then Some(c)
    else
      var d := IrqPop(c);
      if d.None? then None else PopN(d.value, k - 1)
  }

  lemma {:induction false} PushNIs(c: Irq, k: nat)
    requires k > 0
    ensures PushN(c, k) == Irq(false, c.noff + k, if c.noff == 0 then c.sie else c.intena)
  {
    if k > 1 {
      PushNIs(c, k - 1);
    }
  }

  lemma {:induction false} PopNIs(c: Irq, k: nat)
    requires !c.sie && 0 < k <= c.noff
    ensures PopN(c, k) == Some(Irq(c.noff == k && c.intena, c.noff - k, c.intena))
    decreases k
  {
    if k > 1 {
      PopNIs(IrqPop(c).value, k - 1);
    }
  }

  /** Any depth of push_off calls and as many pop_off calls leave interrupts as they were. */
  lemma BalancedRestores(c: Irq, k: nat)
    requires c.sie ==> c.noff == 0
    ensures PopN(PushN(c, k), k).Some?
    ensures var d := PopN(PushN(c, k), k).value; d.sie == c.sie && d.noff == c.noff
  {
    if k > 0 {
      PushNIs(c, k);
      PopNIs(PushN(c, k), k);
    }
  }

  class Hart {
    var sie: bool
    var noff: nat
    var intena: bool

    ghost function View(): Irq
      reads this
    {
      Irq(sie, noff, intena)
    }

    method PushOff()
      modifies this
      ensures View() == IrqPush(old(View()))
    {
      var was := sie;
      sie := false;
      if noff == 0 {
        intena := was;
      }
      noff := noff + 1;
    }

    /** The precondition shuts out the two panics. */
    method PopOff()
      requires !sie && noff >= 1
      modifies this
      ensures IrqPop(old(View())) == Some(View())
    {
      noff := noff - 1;
      if noff == 0 && intena {
        sie := true;
      }
    }
  }

  class SpinLock {
    var locked: bool
    var cpu: Hart?

    constructor ()
      ensures !locked && cpu == null
    {
      locked, cpu := false, null;
    }

    predicate Holding(c: Hart)
      reads this
    {
      locked && cpu == c
    }

    /** With one hart a lock that is taken is taken by this hart, so the spin never waits. */
    method Acquire(c: Hart)
      requires locked ==> cpu == c
      requires !Holding(c)
      modifies this, c
      ensures Holding(c) && c.View() == IrqPush(old(c.View()))
    {
      c.PushOff();
      // __sync_lock_test_and_set finds the lock open the first time
      var was := locked;
      locked := true;
      assert !was;
      cpu := c;
    }

    method Release(c: Hart)
      requires Holding(c) && !c.sie && c.noff >= 1
      modifies this, c
      ensures !locked && cpu == null && IrqPop(old(c.View())) == Some(c.View())
    {
      cpu := null;
      locked := false;
      c.PopOff();
    }
  }
}
