/** The 64-bit messages a flush or an input coroutine writes to its event loop: the packing macros
    of flb_task.h and flb_bits.h, and the message types of flb_engine_macros.h. */
module Signals {
  import opened Bits

  const ENGINE: nat := 1      // what engine messages carry on the left
  const ENGINE_TASK: nat := 2
  const ENGINE_IN_CORO: nat := 3

  /** FLB_TASK_SET, with its cast to uint32_t. */
  function TaskSet(ret: nat, task: nat, out: nat): nat {
    Low(Or(Or(Shl(ret, 28), Shl(task, 14)), out), 32)
  }

  function TaskRet(val: nat): nat { Shr(val, 28) }

  function TaskId(val: nat): nat { Shr(And(val, 0xfffc000), 14) }

  function TaskOut(val: nat): nat { And(val, 0x3fff) }

  /** FLB_BITS_U64_SET on 32-bit arguments. */
  function U64Set(a: nat, b: nat): nat {
    Low(Or(Shl(a, 32), b), 64)
  }

  function U64High(val: nat): nat { Shr(val, 32) }

  function U64Low(val: nat): nat { And(val, 0xffffffff) }

  /** What flb_output_return writes. */
  function FlushMessage(ret: nat, task: nat, out: nat): nat {
    U64Set(ENGINE_TASK, TaskSet(ret, task, out))
  }

  /** What flb_input_return writes. */
  function CollectMessage(ins: nat): nat {
    U64Set(ENGINE_IN_CORO, ins)
  }

  /** FLB_ENGINE_EV_STARTED, FAILED, STOP and SHUTDOWN are codes 1 to 4. */
  function EngineMessage(code: nat): nat {
    U64Set(ENGINE, code)
  }

  lemma Widths()
    ensures Pow2(4) == 0x10 && Pow2(14) == 0x4000 && Pow2(32) == 0x1_0000_0000
  {
    assert Pow2(4) == 0x10;
    assert Pow2(8) == 0x100;
    assert Pow2(12) == 0x1000;
    assert Pow2(16) == 0x10000;
    assert Pow2(20) == 0x100000;
    assert Pow2(24) == 0x1000000;
    assert Pow2(28) == 0x10000000;
  }

  lemma IdMask()
    ensures Shl(0x3fff, 14) == 0xfffc000
  {
    assert Shl(0x3fff, 4) == 0x3fff0;
    assert Shl(0x3fff, 8) == 0x3fff00;
    assert Shl(0x3fff, 12) == 0x3fff000;
  }

  // ------------------------------------------------------------ two halves

  lemma HalvesKept(a: nat, b: nat)
    requires a < Pow2(32) && b < Pow2(32)
    ensures U64High(U64Set(a, b)) == a && U64Low(U64Set(a, b)) == b
  {
    hide Pow2, Low, Or, Shl, Shr, And;
    Widths();
    OrDisjoint(a, b, 32);
    FieldsFit(a, 32, b, 32);
    LowSmall(Shl(a, 32) + b, 64);
    SplitSum(a, b, 32);
    AndMask(Shl(a, 32) + b, 32);
  }

  // ------------------------------------------------------------ three fields

  predicate Fits(ret: nat, task: nat, out: nat) {
    ret < 0x10 && task < 0x4000 && out < 0x4000
  }

  lemma TaskSetValue(ret: nat, task: nat, out: nat)
    requires Fits(ret, task, out)
    ensures TaskSet(ret, task, out) == Shl(Shl(ret, 14) + task, 14) + out < Pow2(32)
  {
    hide Pow2, Low, Or, Shl, Shr, And;
    Widths();
    var x := Shl(ret, 14) + task;
    FieldsFit(ret, 4, task, 14);
    FieldsFit(x, 18, out, 14);
    FieldsFit(task, 14, 0, 14);
    OrDisjoint(ret, Shl(task, 14), 28);
    ShlAdd(Shl(ret, 14), task, 14);
    ShlShl(ret, 14, 14);
    OrDisjoint(x, out, 14);
    LowSmall(Shl(x, 14) + out, 32);
  }

  lemma FieldsOfSum(x: nat, out: nat)
    requires out < 0x4000
    ensures var v := Shl(x, 14) + out;
            TaskOut(v) == out && TaskId(v) == Low(x, 14) && TaskRet(v) == Shr(x, 14)
  {
    hide Pow2, Low, Or, Shl, Shr, And;
    Widths();
    var v := Shl(x, 14) + out;
    IdMask();
    AndMask(v, 14);
    SplitSum(x, out, 14);
    AndShifted(v, 0x3fff, 14);
    AndMask(x, 14);
    SplitSum(Low(x, 14), 0, 14);
    ShrShr(v, 14, 14);
  }

  /** A flush's message names its own return code, task and output exactly when they fit their
      4, 14 and 14 bits. */
  lemma FieldsKept(ret: nat, task: nat, out: nat)
    ensures var v := TaskSet(ret, task, out);
            (TaskRet(v) == ret && TaskId(v) == task && TaskOut(v) == out) <==> Fits(ret, task, out)
  {
    hide Pow2, Low, Or, Shl, Shr, And;
    Widths();
    var v := TaskSet(ret, task, out);
    if Fits(ret, task, out) {
      TaskSetValue(ret, task, out);
      FieldsOfSum(Shl(ret, 14) + task, out);
      SplitSum(ret, task, 14);
    }
    FieldRanges(Or(Or(Shl(ret, 28), Shl(task, 14)), out));
  }

  /** Whatever was packed, what comes out is 4, 14 and 14 bits wide. */
  lemma FieldRanges(w: nat)
    ensures Fits(TaskRet(Low(w, 32)), TaskId(Low(w, 32)), TaskOut(Low(w, 32)))
  {
    hide Pow2, Low, Or, Shl, Shr, And;
    Widths();
    var v := Low(w, 32);
    IdMask();
    ShrSmall(v, 4, 28);
    AndMask(v, 14);
    AndShifted(v, 0x3fff, 14);
    AndMask(Shr(v, 14), 14);
    SplitSum(Low(Shr(v, 14), 14), 0, 14);
  }

  /** The whole message, end to end. */
  lemma FlushMessageDecodes(ret: nat, task: nat, out: nat)
    requires Fits(ret, task, out)
    ensures var val := FlushMessage(ret, task, out);
            && U64High(val) == ENGINE_TASK
            && TaskRet(U64Low(val)) == ret && TaskId(U64Low(val)) == task && TaskOut(U64Low(val)) == out
  {
    hide Pow2, Low, Or, Shl, Shr, And;
    Widths();
    TaskSetValue(ret, task, out);
    HalvesKept(ENGINE_TASK, TaskSet(ret, task, out));
    FieldsKept(ret, task, out);
  }

  /** Messages of the three kinds are never confused. */
  lemma KindsDiffer(ret: nat, task: nat, out: nat, ins: nat, code: nat)
    requires ins < 0x1_0000_0000 && 1 <= code <= 4
    ensures FlushMessage(ret, task, out) != CollectMessage(ins)
    ensures FlushMessage(ret, task, out) != EngineMessage(code)
    ensures CollectMessage(ins) != EngineMessage(code)
  {
    hide Pow2, Low, Or, Shl, Shr, And;
    Widths();
    HalvesKept(ENGINE_TASK, TaskSet(ret, task, out));
    HalvesKept(ENGINE_IN_CORO, ins);
    HalvesKept(ENGINE, code);
  }

  // ------------------------------------------------------------ where the fields are

  lemma Pow28()
    ensures Pow2(28) == 0x1000_0000
  {
    assert Pow2(8) == 0x100;
    assert Pow2(16) == 0x10000;
    assert Pow2(24) == 0x1000000;
  }

  /** The layout of the messages as numbers: the return code from bit 28, the task from bit 14, the
      output from bit 0 on, and what kind of message it is from bit 32 on. */
  lemma Layout(ret: nat, task: nat, out: nat, ins: nat, code: nat)
    requires Fits(ret, task, out) && ins < 0x1_0000_0000 && code < 0x1_0000_0000
    ensures FlushMessage(ret, task, out) == 2 * 0x1_0000_0000 + ret * 0x1000_0000 + task * 0x4000 + out
    ensures CollectMessage(ins) == 3 * 0x1_0000_0000 + ins
    ensures EngineMessage(code) == 0x1_0000_0000 + code
  {
    hide Pow2, Low, Or, Shl, Shr, And;
    Widths();
    TaskSetValue(ret, task, out);
    ShlTimes(ret, 14);
    ShlTimes(Shl(ret, 14) + task, 14);
    SetValue(2, TaskSet(ret, task, out));
    SetValue(3, ins);
    SetValue(1, code);
  }

  lemma SetValue(a: nat, b: nat)
    requires a < 0x1_0000_0000 && b < 0x1_0000_0000
    ensures U64Set(a, b) == a * 0x1_0000_0000 + b
  {
    hide Pow2, Low, Or, Shl, Shr, And;
    Widths();
    OrDisjoint(a, b, 32);
    FieldsFit(a, 32, b, 32);
    LowSmall(Shl(a, 32) + b, 64);
    ShlTimes(a, 32);
  }

  /** And what is read from there, of any 32-bit value. */
  lemma FieldsRead(v: nat)
    requires v < 0x1_0000_0000
    ensures TaskRet(v) == v / 0x1000_0000
    ensures TaskId(v) == v / 0x4000 % 0x4000
    ensures TaskOut(v) == v % 0x4000
  {
    hide Pow2, Low, Or, Shl, Shr, And;
    Widths();
    Pow28();
    SplitDiv(v, 28);
    SplitDiv(v, 14);
    SplitAt(v, 14);
    FieldsOfSum(Shr(v, 14), Low(v, 14));
    SplitDiv(Shr(v, 14), 14);
  }
}
