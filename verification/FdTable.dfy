/**
 The descriptor table of core/adb/sysdeps_win32.cpp: 2048 slots, allocated by a scan that starts
 at a hint instead of at the beginning.
 */
module FdTable {
  import opened Base

  const BASE := 2048
  const MAX_FHS := 2048

  type Class = nat

  /** An FHRec; `clazz` is None for a null pointer. */
  datatype Rec = Rec(clazz: Option<Class>, used: bool, eof: bool)

  const FREE := Rec(None, false, false)

  // ----- the plain allocator -----

  /** The first free slot at or after `i`; the size of the table if there is none. */
  function FirstFree(slots: seq<Rec>, i: nat): (k: nat)
    requires i <= |slots|
    ensures i <= k <= |slots| && (k < |slots| ==> slots[k].clazz.None?)
    ensures forall j :: i <= j < k ==> slots[j].clazz.Some?
    decreases |slots| - i
  {
    if i == |slots| || slots[i].clazz.None? then i else FirstFree(slots, i + 1)
  }

  datatype Op = Alloc(clazz: Class) | Close(slot: nat)

  /** What an operation returns: the slot, or none. */
  datatype Plain = Plain(slots: seq<Rec>, result: Option<nat>)

  /** First fit from the beginning. */
  function PlainStep(slots: seq<Rec>, op: Op): Plain
  {
    match op
    case Alloc(c) =>
      var k := FirstFree(slots, 0);
      if k < |slots| then Plain(slots[k := Rec(Some(c), true, false)], Some(k)) else Plain(slots, None)
    case Close(k) => if k < |slots| then Plain(slots[k := FREE], None) else Plain(slots, None)
  }

  // ----- the hinted one -----

  datatype Table = Table(slots: seq<Rec>, next: nat)

  datatype Hinted = Hinted(table: Table, result: Option<nat>)

  /** `_fh_alloc` and `_fh_close`; closing lowers the hint even if the slot is not in use. */
  function HintedStep(t: Table, op: Op): Hinted
    requires t.next <= |t.slots|
  {
    match op
    case Alloc(c) =>
      var k := FirstFree(t.slots, t.next);
      if k < |t.slots| then Hinted(Table(t.slots[k := Rec(Some(c), true, false)], k + 1), Some(k)) else Hinted(t, None)
    case Close(k) =>
      if k >= |t.slots| then Hinted(t, None)
      else Hinted(Table(if t.slots[k].used then t.slots[k := FREE] else t.slots, if t.next > k then k else t.next), None)
  }

  /** Every slot below the hint is in use, and only used slots have a class. */
  predicate Inv(t: Table)
  {
    && t.next <= |t.slots|
    && (forall i :: 0 <= i < t.next ==> t.slots[i].used)
    && (forall i :: 0 <= i < |t.slots| ==> (t.slots[i].used <==> t.slots[i].clazz.Some?) && (!t.slots[i].used ==> t.slots[i] == FREE))
  }

  lemma StepInv(t: Table, op: Op)
    requires Inv(t)
    ensures Inv(HintedStep(t, op).table)
  {
  }

  lemma {:induction false} SkipUsed(slots: seq<Rec>, i: nat, next: nat)
    requires i <= next <= |slots| && forall j :: i <= j < next ==> slots[j].clazz.Some?
    ensures FirstFree(slots, i) == FirstFree(slots, next)
    decreases (next as int) - (i as int)
  {
    if i < next { SkipUsed(slots, i + 1, next); }
  }

  /** One operation: the hint changes nothing but the time it takes. */
  lemma StepAgrees(t: Table, op: Op)
    requires Inv(t)
    ensures var h, p := HintedStep(t, op), PlainStep(t.slots, op); h.result == p.result && h.table.slots == p.slots
  {
    SkipUsed(t.slots, 0, t.next);
    if op.Close? && op.slot < |t.slots| && !t.slots[op.slot].used {
      assert t.slots[op.slot := FREE] == t.slots;
    }
  }

  function HintedRun(t: Table, ops: seq<Op>): seq<Option<nat>>
    requires Inv(t)
    decreases |ops|
  {
    if ops == [] then []
    else
      StepInv(t, ops[0]);
      [HintedStep(t, ops[0]).result] + HintedRun(HintedStep(t, ops[0]).table, ops[1..])
  }

  function PlainRun(slots: seq<Rec>, ops: seq<Op>): seq<Option<nat>>
    decreases |ops|
  {
    if ops == [] then [] else [PlainStep(slots, ops[0]).result] + PlainRun(PlainStep(slots, ops[0]).slots, ops[1..])
  }

  /** Over any sequence of operations the hinted table answers as a first-fit scan from slot 0 would. */
  lemma {:induction false} RunsAgree(t: Table, ops: seq<Op>)
    requires Inv(t)
    ensures HintedRun(t, ops) == PlainRun(t.slots, ops)
    decreases |ops|
  {
    if ops != [] {
      StepInv(t, ops[0]);
      StepAgrees(t, ops[0]);
      RunsAgree(HintedStep(t, ops[0]).table, ops[1..]);
    }
  }

  /** An allocation fails exactly when no slot is free. */
  lemma FailsOnlyWhenFull(t: Table, c: Class)
    requires Inv(t)
    ensures HintedStep(t, Alloc(c)).result.None? <==> forall i :: 0 <= i < |t.slots| ==> t.slots[i].used
  {
    SkipUsed(t.slots, 0, t.next);
  }

  // ----- the table in place -----

  class Win32Fhs {
    const fhs: array<Rec>
    var next: nat

    ghost function Value(): Table
      reads this, fhs
    {
      Table(fhs[..], next)
    }

    ghost predicate Valid()
      reads this, fhs
    {
      fhs.Length == MAX_FHS && Inv(Value())
    }

    constructor ()
      ensures Valid() && fresh(fhs) && forall i :: 0 <= i < MAX_FHS ==> !fhs[i].used
    {
      fhs := new Rec[MAX_FHS](_ => FREE);
      next := 0;
    }

    /** `_fh_alloc`. */
    method FhAlloc(c: Class) returns (r: Option<nat>)
      requires Valid()
      modifies this, fhs
      ensures Valid() && Hinted(Value(), r) == HintedStep(old(Value()), Alloc(c))
    {
      StepInv(Value(), Alloc(c));
      var i := next;
      while i < MAX_FHS
        invariant next <= i <= MAX_FHS && FirstFree(fhs[..], next) == FirstFree(fhs[..], i)
      {
        if fhs[i].clazz.None? {
          next := i + 1;
          fhs[i] := Rec(Some(c), true, false);
          return Some(i);
        }
        i := i + 1;
      }
      return None;
    }

    /** `_fh_close`. */
    method FhClose(offset: nat)
      requires Valid() && offset < MAX_FHS
      modifies this, fhs
      ensures Valid() && Value() == HintedStep(old(Value()), Close(offset)).table
    {
      StepInv(Value(), Close(offset));
      if next > offset {
        next := offset;
      }
      if fhs[offset].used {
        fhs[offset] := FREE;
      }
    }

    /** `_fh_from_int`: None with EBADF. */
    method FromInt(fd: int) returns (r: Option<nat>)
      requires Valid()
      ensures r.Some? <==> BASE <= fd < BASE + MAX_FHS && fhs[fd - BASE].used
      ensures r.Some? ==> r.value < MAX_FHS && r.value + BASE == fd
    {
      var slot := fd - BASE;
      if slot < 0 || slot >= MAX_FHS { return None; }
      if !fhs[slot].used { return None; }
      return Some(slot);
    }

    /** `_fh_to_int`: -1 for a slot that is not in use. */
    method ToInt(slot: nat) returns (fd: int)
      requires Valid() && slot < MAX_FHS
      ensures fd == if fhs[slot].used then slot + BASE else -1
    {
      if fhs[slot].used { return slot + BASE; }
      return -1;
    }

    /** The two conversions undo each other on slots in use, and refuse the others. */
    method Inverse(slot: nat) returns (fd: int, back: Option<nat>)
      requires Valid() && slot < MAX_FHS
      ensures if fhs[slot].used then back == Some(slot) else fd == -1 && back.None?
    {
      fd := ToInt(slot);
      back := FromInt(fd);
    }
  }
}
