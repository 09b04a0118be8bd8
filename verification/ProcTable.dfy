/**
 The process table: one record per slot, and the table scans of fork, exit, wait and wakeup. Each scan is a loop over
 the table proved against a function on its contents; the kernel's step machine uses those functions.
 */
module ProcTable {
  import opened Wrappers

  const NPROC: nat := 64
  const INIT: nat := 1

  datatype ProcState = Unused | Created | Sleeping | Ready | Running | Zombie

  /** What a process sleeps on: a process record (wait), or any other kernel object. */
  datatype Chan = ProcChan(slot: nat) | Obj(id: nat)

  datatype Proc = Proc(state: ProcState, pid: nat, parent: Option<nat>, chan: Option<Chan>, killed: bool)
  {
    /** Neither unused, nor being created, nor dead. */
    predicate Alive() {
      state == Ready || state == Sleeping || state == Running
    }

    predicate AsleepOn(c: Option<Chan>) {
      state == Sleeping && chan == c
    }
  }

  const CLEARED: Proc := Proc(Unused, 0, None, None, false)

  type Procs = t: seq<Proc> | |t| == NPROC witness seq(NPROC, i => CLEARED)

  function PtrChan(p: Option<nat>): Option<Chan> {
    if p.Some? then Some(ProcChan(p.value)) else None
  }

  // ------------------------------------------------------------- the scans

  /** The first unused slot from i on. */
  function FindUnused(t: Procs, i: nat): (r: Option<nat>)
    requires i <= NPROC
    ensures r.Some? ==> i <= r.value < NPROC && t[r.value].state == Unused
    ensures r.Some? ==> forall j :: i <= j < r.value ==> t[j].state != Unused
    ensures r.None? ==> forall j :: i <= j < NPROC ==> t[j].state != Unused
    decreases NPROC - i
  {
    if i == NPROC then None else if t[i].state == Unused then Some(i) else FindUnused(t, i + 1)
  }

  predicate ZombieChild(t: Procs, self: nat, p: nat) {
    p < NPROC && t[p].parent == Some(self) && t[p].state == Zombie
  }

  predicate HasChild(t: Procs, self: nat) {
    exists p: nat :: p < NPROC && t[p].parent == Some(self)
  }

  predicate HasZombieChild(t: Procs, self: nat) {
    exists p: nat :: p < NPROC && ZombieChild(t, self, p)
  }

  /** The first dead child of self from slot i on. */
  function FindZombie(t: Procs, self: nat, i: nat): (r: Option<nat>)
    requires i <= NPROC
    ensures r.Some? ==> i <= r.value && ZombieChild(t, self, r.value)
    ensures r.Some? ==> forall j: nat :: i <= j < r.value ==> !ZombieChild(t, self, j)
    ensures r.None? ==> forall j: nat :: i <= j ==> !ZombieChild(t, self, j)
    decreases NPROC - i
  {
    if i == NPROC then None else if ZombieChild(t, self, i) then Some(i) else FindZombie(t, self, i + 1)
  }

  function WokenProc(p: Proc, c: Option<Chan>): Proc {
    if p.AsleepOn(c) then p.(state := Ready) else p
  }

  /** Every process asleep on the channel is ready; nothing else changes. */
  function Woken(t: Procs, c: Option<Chan>): (r: Procs) {
    seq(NPROC, i requires 0 <= i < NPROC => WokenProc(t[i], c))
  }

  function Adopted(p: Proc, self: nat): Proc {
    if p.parent == Some(self) then p.(parent := Some(INIT)) else p
  }

  /** The children of self are children of init. */
  function Orphaned(t: Procs, self: nat): Procs {
    seq(NPROC, i requires 0 <= i < NPROC => Adopted(t[i], self))
  }

  /** The table when self has exited: its parent woken, its children given to init (woken if one is dead), self dead. */
  function Exited(t: Procs, self: nat): Procs
    requires self < NPROC
  {
    var told := Woken(t, PtrChan(t[self].parent));
    var moved := Orphaned(told, self);
    var woken := if HasZombieChild(told, self) then Woken(moved, Some(ProcChan(INIT))) else moved;
    woken[self := woken[self].(state := Zombie)]
  }

  // --------------------------------------------------- the loops over the table

  class PTable {
    const t: array<Proc>

    ghost predicate Valid()
      reads this
    {
      t.Length == NPROC
    }

    ghost function Contents(): Procs
      requires Valid()
      reads this, t
    {
      t[..]
    }

    constructor ()
      ensures Valid() && fresh(t)
      ensures Contents() == seq(NPROC, i => CLEARED)
    {
      t := new Proc[NPROC](_ => CLEARED);
    }

    method GetUnusedProcess() returns (r: Option<nat>)
      requires Valid()
      ensures r == FindUnused(Contents(), 1)
    {
      for i := 1 to NPROC
        invariant FindUnused(t[..], 1) == FindUnused(t[..], i)
      {
        if t[i].state == Unused {
          return Some(i);
        }
      }
      return None;
    }

    method WakeupUnlocked(chan: Option<Chan>)
      requires Valid()
      modifies t
      ensures Contents() == Woken(old(Contents()), chan)
    {
      for i := 0 to NPROC
        invariant forall j :: 0 <= j < i ==> t[j] == WokenProc(old(t[j]), chan)
        invariant forall j :: i <= j < NPROC ==> t[j] == old(t[j])
      {
        if t[i].state == Sleeping && t[i].chan == chan {
          t[i] := t[i].(state := Ready);
        }
      }
    }

    /** The part of exit between taking the table's lock and giving up the CPU. */
    method ExitScan(self: nat)
      requires Valid() && self < NPROC
      modifies t
      ensures Contents() == Exited(old(Contents()), self)
    {
      WakeupUnlocked(PtrChan(t[self].parent));
      ghost var told: Procs := t[..];
      ghost var found := false;
      for i := 0 to NPROC
        invariant found <==> exists j: nat :: j < i && ZombieChild(told, self, j)
        invariant forall j :: 0 <= j < NPROC ==> t[j] == ScanAt(told, self, i, found, j)
      {
        assert t[i] == ScanAt(told, self, i, found, i);
        assert ZombieChild(told, self, i) == (t[i].parent == Some(self) && t[i].state == Zombie);
        if t[i].parent == Some(self) {
          t[i] := t[i].(parent := Some(INIT));
          if t[i].state == Zombie {
            found := true;
            WakeupUnlocked(Some(ProcChan(INIT)));
          }
        }
      }
      assert found == HasZombieChild(told, self);
      ghost var moved := Orphaned(told, self);
      ghost var woken: Procs := if found then Woken(moved, Some(ProcChan(INIT))) else moved;
      assert t[..] == woken;
      t[self] := t[self].(state := Zombie);
    }

    /** Slot j of the table when exit's loop has passed the slots below i. */
    ghost function ScanAt(told: Procs, self: nat, i: nat, found: bool, j: nat): Proc
      requires j < NPROC
    {
      var p := if j < i then Adopted(told[j], self) else told[j];
      if found then WokenProc(p, Some(ProcChan(INIT))) else p
    }

    /** One pass of wait's scan: the first dead child is freed, or the caller learns whether it has children. */
    method WaitScan(self: nat) returns (haskids: bool, pid: Option<nat>)
      requires Valid()
      modifies t
      ensures pid.None? <==> FindZombie(old(Contents()), self, 0).None?
      ensures pid.None? ==> Contents() == old(Contents()) && haskids == HasChild(Contents(), self)
      ensures pid.Some? ==>
                var z := FindZombie(old(Contents()), self, 0).value;
                pid.value == old(Contents())[z].pid && Contents() == old(Contents())[z := CLEARED]
    {
      haskids := false;
      for i := 0 to NPROC
        invariant t[..] == old(t[..])
        invariant FindZombie(t[..], self, 0) == FindZombie(t[..], self, i)
        invariant haskids <==> exists j: nat :: j < i && t[..][j].parent == Some(self)
      {
        if t[i].parent == Some(self) {
          haskids := true;
          if t[i].state == Zombie {
            pid := Some(t[i].pid);
            t[i] := CLEARED;
            return;
          }
        }
      }
      pid := None;
    }
  }
}
