/** The reference control block of webservice/reference.h: a strong and a weak count over one pointer.
    The destructor runs when the strong count drops to zero and may itself take and drop weak
    references; the block is given back when nobody holds either kind. */
module Reference {
  import opened Memory

  // What a destructor may do to the block that runs it.
  datatype WeakOp = TakeWeak | DropWeak

  datatype Op = Inc | Dec | WeakInc | WeakDec

  // The block with a record of its life: how often the destructor ran, how often the memory was given
  // back, and whether it was touched after that.
  datatype Control = Control(
    ptr: Pointer, refcnt: int, weakRefcnt: int, freeFn: Option<seq<WeakOp>>,
    destroyed: nat, frees: nat, faulted: bool)

  function New(ptr: Pointer, freeFn: Option<seq<WeakOp>>): Control {
    Control(ptr, 1, 0, freeFn, 0, 0, false)
  }

  function Touched(c: Control): Control {
    c.(faulted := c.faulted || c.frees > 0)
  }

  function AfterInc(c: Control): Control {
    Touched(c).(refcnt := c.refcnt + 1)
  }

  function AfterWeakInc(c: Control): Control {
    Touched(c).(weakRefcnt := c.weakRefcnt + 1)
  }

  function AfterWeakDec(c: Control): Control {
    var d := Touched(c).(weakRefcnt := c.weakRefcnt - 1);
    if d.weakRefcnt == 0 && d.ptr == NULL then d.(frees := d.frees + 1) else d
  }

  function AfterScript(c: Control, script: seq<WeakOp>): Control {
    if script == [] then c
    else
      var before := AfterScript(c, script[..|script| - 1]);
      if script[|script| - 1] == TakeWeak then AfterWeakInc(before) else AfterWeakDec(before)
  }

  function AfterDestructor(c: Control): Control {
    if c.freeFn.Some? then AfterScript(c.(destroyed := c.destroyed + 1), c.freeFn.value) else c
  }

  function AfterDec(c: Control): Control {
    var d := Touched(c).(refcnt := c.refcnt - 1);
    if d.refcnt == 0 then
      var e := Touched(AfterDestructor(d)).(ptr := NULL);
      if e.weakRefcnt == 0 then e.(frees := e.frees + 1) else e
    else
      d
  }

  function After(c: Control, op: Op): Control {
    match op
    case Inc => AfterInc(c)
    case Dec => AfterDec(c)
    case WeakInc => AfterWeakInc(c)
    case WeakDec => AfterWeakDec(c)
  }

  function Run(c: Control, ops: seq<Op>): Control {
    if ops == [] then c else After(Run(c, ops[..|ops| - 1]), ops[|ops| - 1])
  }

  // The weak references left after a destructor's work on `weak` of them.
  function WeakLeft(weak: int, script: seq<WeakOp>): int {
    if script == [] then weak
    else WeakLeft(weak, script[..|script| - 1]) + if script[|script| - 1] == TakeWeak then 1 else -1
  }

  // A destructor drops only weak references that somebody holds.
  ghost predicate ScriptBalanced(weak: int, script: seq<WeakOp>) {
    forall i :: 0 <= i <= |script| ==> WeakLeft(weak, script[..i]) >= 0
  }

  // Only who holds a reference uses it: a strong one to copy or drop it, a weak one to drop it, either
  // to take another weak one.
  ghost predicate Balanced(c: Control, op: Op) {
    match op
    case Inc => c.refcnt > 0
    case Dec => c.refcnt > 0 && (c.refcnt == 1 && c.freeFn.Some? ==> ScriptBalanced(c.weakRefcnt, c.freeFn.value))
    case WeakInc => c.refcnt > 0 || c.weakRefcnt > 0
    case WeakDec => c.weakRefcnt > 0
  }

  ghost predicate AllBalanced(c: Control, ops: seq<Op>) {
    forall i :: 0 <= i < |ops| ==> Balanced(Run(c, ops[..i]), ops[i])
  }

  // The block keeps `ptr` exactly while it has strong holders; its destructor has run exactly once
  // after that; its memory has been given back exactly once when no holder is left, never before, and
  // never touched since.
  ghost predicate Sound(c: Control, ptr: Pointer) {
    && c.refcnt >= 0 && c.weakRefcnt >= 0 && !c.faulted
    && c.ptr == (if c.refcnt > 0 then ptr else NULL)
    && c.destroyed == (if c.refcnt == 0 && c.freeFn.Some? then 1 else 0)
    && c.frees == (if c.refcnt == 0 && c.weakRefcnt == 0 then 1 else 0)
  }

  lemma {:induction false} ScriptKeepsBlock(c: Control, script: seq<WeakOp>)
    requires c.ptr != NULL && c.frees == 0
    ensures AfterScript(c, script) == c.(weakRefcnt := WeakLeft(c.weakRefcnt, script))
  {
    if script != [] {
      ScriptKeepsBlock(c, script[..|script| - 1]);
    }
  }

  lemma StepKeepsSound(c: Control, op: Op, ptr: Pointer)
    requires ptr != NULL && Sound(c, ptr) && Balanced(c, op)
    ensures Sound(After(c, op), ptr) && After(c, op).freeFn == c.freeFn
  {
    if op == Dec && c.refcnt == 1 && c.freeFn.Some? {
      var script := c.freeFn.value;
      ScriptKeepsBlock(Touched(c).(refcnt := 0, destroyed := 1), script);
      assert script[..|script|] == script;
    }
  }

  lemma BalancedSoFar(c: Control, ops: seq<Op>)
    requires ops != [] && AllBalanced(c, ops)
    ensures AllBalanced(c, ops[..|ops| - 1]) && Balanced(Run(c, ops[..|ops| - 1]), ops[|ops| - 1])
  {
    var front := ops[..|ops| - 1];
    forall i | 0 <= i < |front|
      ensures Balanced(Run(c, front[..i]), front[i])
    {
      assert front[..i] == ops[..i];
    }
  }

  /** Over every balanced history of a block on a non-NULL pointer the block is sound throughout. */
  lemma {:induction false} RunIsSound(ptr: Pointer, freeFn: Option<seq<WeakOp>>, ops: seq<Op>)
    requires ptr != NULL && AllBalanced(New(ptr, freeFn), ops)
    ensures Sound(Run(New(ptr, freeFn), ops), ptr) && Run(New(ptr, freeFn), ops).freeFn == freeFn
  {
    if ops != [] {
      var c, front := New(ptr, freeFn), ops[..|ops| - 1];
      BalancedSoFar(c, ops);
      RunIsSound(ptr, freeFn, front);
      StepKeepsSound(Run(c, front), ops[|ops| - 1], ptr);
    }
  }

  // How many of the operations are `op`.
  function Times(ops: seq<Op>, op: Op): nat {
    if ops == [] then 0 else Times(ops[..|ops| - 1], op) + (if ops[|ops| - 1] == op then 1 else 0)
  }

  lemma {:induction false} WeakLeftAdds(weak: int, script: seq<WeakOp>)
    ensures WeakLeft(weak, script) == weak + WeakLeft(0, script)
  {
    if script != [] { WeakLeftAdds(weak, script[..|script| - 1]); }
  }

  lemma StepCounts(c: Control, op: Op, ptr: Pointer)
    requires ptr != NULL && Sound(c, ptr) && Balanced(c, op)
    ensures var d := After(c, op);
            && d.refcnt == c.refcnt + (if op == Inc then 1 else if op == Dec then -1 else 0)
            && d.weakRefcnt == c.weakRefcnt + (if op == WeakInc then 1 else if op == WeakDec then -1 else 0)
                               + (if d.destroyed > c.destroyed then WeakLeft(0, c.freeFn.value) else 0)
  {
    if op == Dec && c.refcnt == 1 && c.freeFn.Some? {
      ScriptKeepsBlock(Touched(c).(refcnt := 0, destroyed := 1), c.freeFn.value);
      WeakLeftAdds(c.weakRefcnt, c.freeFn.value);
    }
  }

  /** Over every balanced history the counts are what was taken less what was dropped, a destructor's own work
      included. */
  lemma {:induction false} CountsAreRight(ptr: Pointer, freeFn: Option<seq<WeakOp>>, ops: seq<Op>)
    requires ptr != NULL && AllBalanced(New(ptr, freeFn), ops)
    ensures var c := Run(New(ptr, freeFn), ops);
            && c.refcnt == 1 + Times(ops, Inc) - Times(ops, Dec)
            && c.weakRefcnt == Times(ops, WeakInc) - Times(ops, WeakDec)
                               + (if freeFn.Some? && c.refcnt == 0 then WeakLeft(0, freeFn.value) else 0)
  {
    if ops != [] {
      var c, front := New(ptr, freeFn), ops[..|ops| - 1];
      BalancedSoFar(c, ops);
      CountsAreRight(ptr, freeFn, front);
      RunIsSound(ptr, freeFn, front);
      StepCounts(Run(c, front), ops[|ops| - 1], ptr);
      RunIsSound(ptr, freeFn, ops);
    }
  }

  ghost predicate SoundAfter(ptr: Pointer, freeFn: Option<seq<WeakOp>>, ops: seq<Op>) {
    AllBalanced(New(ptr, freeFn), ops) ==> Sound(Run(New(ptr, freeFn), ops), ptr)
  }

  ghost predicate SoundForEveryHistory(ptr: Pointer) {
    forall freeFn, ops :: SoundAfter(ptr, freeFn, ops)
  }

  // On a NULL pointer the first weak reference to go takes the block with it, strong holders or not.
  lemma NullPointerFails(freeFn: Option<seq<WeakOp>>)
    ensures AllBalanced(New(NULL, freeFn), [WeakInc, WeakDec, Inc])
    ensures Run(New(NULL, freeFn), [WeakInc, WeakDec, Inc]).faulted
    ensures !SoundAfter(NULL, freeFn, [WeakInc, WeakDec, Inc])
  {
    var c, ops := New(NULL, freeFn), [WeakInc, WeakDec, Inc];
    var c1, c2 := AfterWeakInc(c), AfterWeakDec(AfterWeakInc(c));
    assert ops[..0] == [] && ops[..1] == [WeakInc] && ops[..2] == [WeakInc, WeakDec] && ops[..3] == ops;
    assert [WeakInc, WeakDec][..1] == [WeakInc] && [WeakInc][..0] == [];
    assert Run(c, ops[..0]) == c;
    assert Run(c, ops[..1]) == c1;
    assert Run(c, ops[..2]) == c2;
  }

  /** The counting is right for all balanced histories exactly when the counted pointer is not NULL. */
  lemma SoundIffPointerNotNull(ptr: Pointer)
    ensures SoundForEveryHistory(ptr) <==> ptr != NULL
  {
    if ptr == NULL {
      NullPointerFails(None);
    } else {
      forall freeFn, ops
        ensures SoundAfter(ptr, freeFn, ops)
      {
        if AllBalanced(New(ptr, freeFn), ops) {
          RunIsSound(ptr, freeFn, ops);
        }
      }
    }
  }

  class ControlBlock {
    var ptr: Pointer
    var refcnt: int
    var weakRefcnt: int
    var freeFn: Option<seq<WeakOp>>
    ghost var destroyed: nat
    ghost var frees: nat
    ghost var faulted: bool

    ghost function View(): Control
      reads this
    {
      Control(ptr, refcnt, weakRefcnt, freeFn, destroyed, frees, faulted)
    }

    constructor (ptr: Pointer, freeFn: Option<seq<WeakOp>>)
      ensures View() == New(ptr, freeFn)
    {
      this.ptr, this.refcnt, this.weakRefcnt, this.freeFn := ptr, 1, 0, freeFn;
      destroyed, frees, faulted := 0, 0, false;
    }

    ghost method Touch()
      modifies this`faulted
      ensures View() == Touched(old(View()))
    {
      faulted := faulted || frees > 0;
    }

    ghost method GiveBack()
      modifies this`frees
      ensures frees == old(frees) + 1
    {
      frees := frees + 1;
    }

    static method Inc(ref: ControlBlock?) returns (count: int)
      modifies ref
      ensures ref == null ==> count == 0
      ensures ref != null ==> ref.View() == AfterInc(old(ref.View())) && count == ref.refcnt
    {
      if ref == null {
        return 0;
      }
      ref.Touch();
      ref.refcnt := ref.refcnt + 1;
      return ref.refcnt;
    }

    static method WeakInc(ref: ControlBlock?) returns (count: int)
      modifies ref
      ensures ref == null ==> count == 0
      ensures ref != null ==> ref.View() == AfterWeakInc(old(ref.View())) && count == ref.weakRefcnt
    {
      if ref == null {
        return 0;
      }
      ref.Touch();
      ref.weakRefcnt := ref.weakRefcnt + 1;
      return ref.weakRefcnt;
    }

    static method WeakDec(ref: ControlBlock?) returns (count: int)
      modifies ref
      ensures ref == null ==> count == 0
      ensures ref != null ==> ref.View() == AfterWeakDec(old(ref.View())) && count == ref.weakRefcnt
    {
      if ref == null {
        return 0;
      }
      ref.Touch();
      ref.weakRefcnt := ref.weakRefcnt - 1;
      if ref.weakRefcnt == 0 {
        if ref.ptr == NULL {
          ref.GiveBack();
        }
        return 0;
      }
      return ref.weakRefcnt;
    }

    // The destructor, re-entering the block it was called from.
    static method Destroy(ref: ControlBlock, script: seq<WeakOp>)
      modifies ref
      ensures ref.View() == AfterScript(old(ref.View()).(destroyed := old(ref.destroyed) + 1), script)
    {
      ref.destroyed := ref.destroyed + 1;
      ghost var start := ref.View();
      for i := 0 to |script|
        invariant ref.View() == AfterScript(start, script[..i])
      {
        assert script[..i + 1][..i] == script[..i];
        if script[i] == TakeWeak {
          var _ := WeakInc(ref);
        } else {
          var _ := WeakDec(ref);
        }
      }
      assert script[..|script|] == script;
    }

    static method Dec(ref: ControlBlock?) returns (count: int)
      modifies ref
      ensures ref == null ==> count == 0
      ensures ref != null ==> ref.View() == AfterDec(old(ref.View())) && count == old(ref.refcnt) - 1
    {
      if ref == null {
        return 0;
      }
      ref.Touch();
      ref.refcnt := ref.refcnt - 1;
      if ref.refcnt == 0 {
        if ref.freeFn.Some? {
          Destroy(ref, ref.freeFn.value);
        }
        ref.Touch();
        ref.ptr := NULL;
        if ref.weakRefcnt == 0 {
          ref.GiveBack();
        }
        return 0;
      }
      return ref.refcnt;
    }

    static function Get(ref: ControlBlock?): (ptr: Pointer)
      reads ref
      ensures ref == null ==> ptr == NULL
      ensures forall p: Pointer :: ref != null && Sound(ref.View(), p) ==> ptr == (if ref.refcnt > 0 then p else NULL)
    {
      if ref != null then ref.ptr else NULL
    }
  }
}
