/**
 Nested interrupt disabling and the spinlocks built on it, for the one CPU the kernel runs on. A lock word is taken
 exactly when the lock is in `locked`; its owner can only be this CPU.
 */
module Spinlock {
  datatype LockId = Ptable | Other(id: nat)

  /** ncli and int_on of the CPU, its interrupt flag, and the lock words that are 1. */
  datatype Cpu = Cpu(ncli: int, intOn: bool, ifl: bool, locked: set<LockId>)
  {
    /** Whether interrupts are to be on once every push_cli has been undone. */
    predicate Base() {
      if ncli == 0 then ifl else intOn
    }

    predicate Disciplined() {
      && |locked| <= ncli
      && (ifl ==> ncli == 0)
    }
  }

  function Pushed(c: Cpu): (r: Cpu)
    ensures c.Disciplined() ==> r.Disciplined() && r.Base() == c.Base()
  {
    c.(ncli := c.ncli + 1, intOn := if c.ncli == 0 then c.ifl else c.intOn, ifl := false)
  }

  /** pop_cli reads the CPU record, which panics with interrupts on, and panics below zero. */
  predicate CanPop(c: Cpu) {
    !c.ifl && c.ncli >= 1
  }

  function Popped(c: Cpu): (r: Cpu)
    requires CanPop(c)
    ensures c.Disciplined() && |c.locked| < c.ncli ==> r.Disciplined() && r.Base() == c.Base()
  {
    c.(ncli := c.ncli - 1, ifl := c.ifl || (c.ncli == 1 && c.intOn))
  }

  class Core {
    var ncli: int
    var intOn: bool
    var ifl: bool
    var locked: set<LockId>

    ghost function State(): Cpu
      reads this
    {
      Cpu(ncli, intOn, ifl, locked)
    }

    method PushCli()
      modifies this
      ensures State() == Pushed(old(State()))
    {
      var eflags := ifl;
      ifl := false;
      if ncli == 0 {
        intOn := eflags;
      }
      ncli := ncli + 1;
    }

    /** False stands for the panic. */
    method PopCli() returns (ok: bool)
      modifies this
      ensures ok == CanPop(old(State()))
      ensures ok ==> State() == Popped(old(State()))
    {
      if ifl {
        return false;
      }
      ncli := ncli - 1;
      if ncli < 0 {
        return false;
      }
      if ncli == 0 && intOn {
        ifl := true;
      }
      return true;
    }

    /** holding() itself pushes and pops: it leaves the CPU as it was, but for int_on while no push_cli is pending. */
    method Holding(lk: LockId) returns (b: bool)
      requires State().Disciplined()
      modifies this
      ensures b == (lk in locked) && State() == old(State()).(intOn := intOn)
      ensures old(ncli) > 0 ==> intOn == old(intOn)
    {
      PushCli();
      b := lk in locked;
      var ok := PopCli();
    }

    method Lock(lk: LockId) returns (ok: bool)
      requires State().Disciplined()
      modifies this
      ensures ok == (lk !in old(locked))
      ensures ok ==> State() == Pushed(old(State())).(locked := old(locked) + {lk})
      ensures ok ==> State().Disciplined() && State().Base() == old(State().Base())
    {
      PushCli();
      var h := Holding(lk);
      if h {
        return false;
      }
      locked := locked + {lk};
      return true;
    }

    method Unlock(lk: LockId) returns (ok: bool)
      requires State().Disciplined()
      modifies this
      ensures ok == (lk in old(locked))
      ensures ok ==> State() == Popped(old(State()).(locked := old(locked) - {lk}))
      ensures ok ==> State().Disciplined() && State().Base() == old(State().Base())
    {
      var h := Holding(lk);
      if !h {
        return false;
      }
      assert locked == locked - {lk} + {lk};
      locked := locked - {lk};
      ok := PopCli();
    }
  }

  /** Locking and unlocking leaves the CPU, interrupt flag included, as it was. */
  lemma LockUnlock(c: Cpu, lk: LockId)
    requires c.Disciplined() && lk !in c.locked
    ensures var d := Pushed(c).(locked := c.locked + {lk});
            CanPop(d) && Popped(d.(locked := d.locked - {lk})) == c.(intOn := d.intOn)
  {
    assert c.locked + {lk} - {lk} == c.locked;
  }
}
