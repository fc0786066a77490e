/** One instruction of the interpreter loop (interpreter/interpreter.go, op_call.go,
    op_memory.go) as a step of a state machine.

    What a frame does not determine by itself comes in as an `Answer`: the word an
    instruction computes or reads, whether an address or slot is warm or exists, the slot
    values SSTORE compares, and what a callee turns out to be. All results are for all answers. */
module Machine {
  import opened Types
  import opened Jumpdests
  import opened Evm
  import opened Memory
  import Gas
  import Stack
  import State

  datatype Frame = Frame(code: Code, pc: nat, gas: U64, stack: seq<Word>, mem: Mem, isStatic: bool, depth: nat)

  /** How far the buffer behind a frame's memory may reach; no Go buffer is longer. */
  type Capacity = x: nat | x <= TWO_64 / 2 - 32

  /** What EVM.Call or EVM.Create finds. A plain call's frame comes out of a pool with the
      depth its last user left in it. */
  datatype Target = Precompile(cost: Option<nat>) | Poor | NoCode | Runs(code: Code, poolDepth: nat)

  /** `hasRoom` says that the runtime finds the memory a step asks for; `capacity` is that of
      the memory's buffer; `returned` is the length of the last return data and `replied` of
      what a callee will return. */
  datatype Answer = Answer(word: Word, warm: bool, isThere: bool, current: Hash, original: Hash,
                           log: State.Log, output: Code, hasRoom: bool, capacity: Capacity, returned: U64,
                           replied: nat, target: Target, newAddr: Address, codeHash: Hash)

  /** What a step asks of the state. */
  datatype Effect = Quiet | Stored(key: Hash, newVal: Hash,
      refund: U64) | Emitted(log: State.Log) | Killed(ben: Address)

  datatype Outcome =
    | Next(f: Frame, effect: Effect)
    | Stopped(exit: Exit, gasLeft: U64, effect: Effect)
    | Calling(f: Frame, kind: CallKind, addr: Address, value: U64, childGas: U64, stipend: U64)
    | Creating(f: Frame, value: U64)
    | Panic

  const OUT := Stopped(Failed, 0, Quiet)
  const MAX_CALL_DEPTH := 1024

  function Start(code: Code, gas: U64, isStatic: bool, depth: nat): Frame {
    Frame(code, 0, gas, [], Mem(0, 0), isStatic, depth)
  }

  predicate IsCall(op: Byte) {
    op == 0xf1 || op == 0xf2 || op == 0xf4 || op == 0xfa
  }

  // ---------- what every step keeps ----------

  /** 1 when the frame could still place a CREATE without gas for a push. */
  function Spare(f: Frame): nat {
    if f.depth < MAX_CALL_DEPTH && f.stack != [] then 1 else 0
  }

  predicate SameFrame(f: Frame, g: Frame) {
    g.code == f.code && g.isStatic == f.isStatic && g.depth == f.depth
  }

  predicate Advanced(f: Frame, g: Frame)
    requires f.pc < |f.code|
  {
    && SameFrame(f, g) && g.gas <= f.gas
    && (g.pc == f.pc + InstrLen(f.code[f.pc])
        || (ValidJump(f.code, g.pc) && g.gas + 8 <= f.gas && InstrLen(f.code[f.pc]) == 1))
    && (g.gas == f.gas ==> Spare(g) <= Spare(f))
  }

  /** Operands an instruction takes and results it leaves (delta and alpha in Appendix H of the
      Yellow Paper). */
  function Takes(op: Byte): nat {
    if op == 0x08 || op == 0x09 || op == 0x37 || op == 0x39 || op == 0x3e || op == 0xf0 then 3
    else if op == 0x3c || op == 0xf5 then 4
    else if op == 0xf1 || op == 0xf2 then 7
    else if op == 0xf4 || op == 0xfa then 6
    else if 0x80 <= op <= 0x8f then op - 0x7f
    else if 0x90 <= op <= 0x9f then op - 0x8e
    else if 0xa0 <= op <= 0xa4 then op - 0x9e
    else if op == 0x15 || op == 0x19 || op == 0x31 || op == 0x35 || op == 0x3b || op == 0x3f || op == 0x40
            || op == 0x50 || op == 0x51 || op == 0x54 || op == 0x56 || op == 0xff then 1
    else if op == 0x00 || op == 0xfe || 0x30 <= op <= 0x48 || 0x58 <= op <= 0x7f then 0
    else 2
  }

  function Leaves(op: Byte): nat {
    if 0x80 <= op <= 0x8f then Takes(op) + 1
    else if 0x90 <= op <= 0x9f then Takes(op)
    else if op == 0x00 || op == 0x37 || op == 0x39 || op == 0x3c || op == 0x3e || op == 0x50 || op == 0x52
            || op == 0x53 || 0x55 <= op <= 0x57 || op == 0x5b || 0xa0 <= op <= 0xa4 || op == 0xf3 || op == 0xfd
                || op == 0xff then 0
    else 1
  }

  /** The stack moves by exactly what the instruction takes and leaves and stays within 1024;
      only a call or creation refused at the depth limit leaves its operands where they are. */
  predicate HeightOk(f: Frame, g: Frame)
    requires f.pc < |f.code|
  {
    var op := f.code[f.pc];
    if (IsCall(op) || op == 0xf0 || op == 0xf5) && f.depth >= MAX_CALL_DEPTH then
      |g.stack| == |f.stack| + 1 || (|f.stack| == Stack.MAX_DEPTH && g.stack == f.stack)
    else
      && |f.stack| >= Takes(op)
      && |g.stack| == |f.stack| - Takes(op) + Leaves(op)
      && (|f.stack| <= Stack.MAX_DEPTH ==> |g.stack| <= Stack.MAX_DEPTH)
  }

  /** The contract of a step: gas never grows, the program counter moves to the next
      instruction or pays at least 8 to land on a valid jump destination, a static frame
      writes nothing, a call keeps 100 gas from parent and child alike (9100 from the parent
      when it moves value) and a 64th of the rest from the child, and a creation runs on what
      the 63/64 rule leaves behind. */
  predicate Sound(f: Frame, o: Outcome)
    requires f.pc < |f.code|
  {
    match o
    case Next(g, e) => Advanced(f, g) && HeightOk(f, g) && (f.isStatic ==> e.Quiet?)
    case Stopped(exit, left, e) => left <= f.gas && (exit.Failed? ==> left == 0) && (f.isStatic ==> e.Quiet?)
    case Calling(g, kind, _, value, childGas, stipend) =>
      && SameFrame(f, g) && g.pc == f.pc + 1 && InstrLen(f.code[f.pc]) == 1 && IsCall(f.code[f.pc])
      && |g.stack| + Takes(f.code[f.pc]) == |f.stack|
      && stipend == (if value > 0 then Gas.CALL_STIPEND else 0) <= childGas
      && g.gas + (childGas - stipend) + (if value > 0 then 9100 else 100) <= f.gas
      && childGas - stipend <= 63 * (g.gas + 1)
      && childGas + 100 <= f.gas
    case Creating(g, _) =>
      && SameFrame(f, g) && g.pc == f.pc + 1 && InstrLen(f.code[f.pc]) == 1
      && |g.stack| + Takes(f.code[f.pc]) == |f.stack|
      && g.gas <= f.gas / 64 && !f.isStatic && Spare(f) == 1
    case Panic => true
  }

  // ---------- operands ----------

  /** Stack.Back: the operand n below the top; the caller has checked that it is there. */
  function Arg(f: Frame, n: nat): Word
    requires n < |f.stack|
  {
    f.stack[|f.stack| - 1 - n]
  }

  function Drop(f: Frame, n: nat): Frame
    requires n <= |f.stack|
  {
    f.(stack := f.stack[..|f.stack| - n])
  }

  function ToAddr(w: Word): Address {
    w % 0x1_0000_0000_0000_0000_0000_0000_0000_0000_0000_0000
  }

  /** expandMem: None is the error return. */
  function Grow(f: Frame, offset: U64, size: U64): (r: Option<Frame>)
    ensures r.Some? ==> r.value.gas <= f.gas && r.value == f.(gas := r.value.gas, mem := r.value.mem)
  {
    match ExpandMem(f.mem, offset, size, f.gas)
    case None => None
    case Some((mem, gas)) => Some(f.(mem := mem, gas := gas))
  }

  /** Data moved beyond the memory and its buffer: a Go runtime panic. */
  predicate Beyond(m: Mem, a: Answer, offset: U64, size: U64) {
    size > 0 && offset + size > m.len && offset + size > a.capacity
  }

  /** A region that was charged for is out of reach exactly when the request was too far. */
  lemma ChargedIsInReachIff(f: Frame, a: Answer, offset: U64, size: U64)
    requires Grow(f, offset, size).Some?
    ensures Beyond(Grow(f, offset, size).value.mem, a, offset, size) <==> TooFar(f.mem, offset, size)
  {
    hide ExpandMem;
    if size > 0 {
      GrantedIsCoveredIff(f.mem, offset, size, f.gas);
    } else {
      assert !TooFar(f.mem, offset, size);
    }
  }

  function PushIgnored(f: Frame, w: Word): Frame {
    if |f.stack| == Stack.MAX_DEPTH then f else f.(stack := f.stack + [w])
  }

  // ---------- plain instructions ----------

  /** `pops` operands are popped with a check; if `rewrites`, the operand below them is
      replaced in place without one; if `pushes`, a word is pushed with a check. */
  datatype Plain = Plain(cost: nat, pops: nat, rewrites: bool, pushes: bool)

  function PlainOp(op: Byte): Option<Plain> {
    if op == 0x01 || op == 0x03 || 0x10 <= op <= 0x14 || 0x16 <= op <= 0x18 || 0x1a <= op <= 0x1d then
      Some(Plain(Gas.VERY_LOW, 1, true, false))
    else if op == 0x02 || 0x04 <= op <= 0x07 || op == 0x0b then Some(Plain(Gas.LOW, 1, true, false))
    else if op == 0x08 || op == 0x09 then Some(Plain(Gas.MID, 2, true, false))
    else if op == 0x15 || op == 0x19 || op == 0x35 then Some(Plain(Gas.VERY_LOW, 0, true, false))
    else if op == 0x40 then Some(Plain(20, 0, true, false))
    else if op == 0x30 || 0x32 <= op <= 0x34 || op == 0x36 || op == 0x38 || op == 0x3a || op == 0x3d
            || 0x41 <= op <= 0x48 || 0x58 <= op <= 0x5a then
      Some(Plain(Gas.BASE, 0, false, true))
    else if op == 0x50 then Some(Plain(Gas.BASE, 1, false, false))
    else if op == JUMPDEST then Some(Plain(Gas.JUMP_DEST, 0, false, false))
    else if PUSH1 <= op <= PUSH32 then Some(Plain(Gas.VERY_LOW, 0, false, true))
    else None
  }

  /** STOP and the instructions that move data are not plain. */
  lemma PlainMovesNothing(op: Byte)
    ensures PlainOp(op).Some? ==>
              op != 0x00 && op != 0x20 && op != 0x37 && op != 0x39 && op != 0x3c && op != 0x3e
              && !(0x51 <= op <= 0x53) && !(0xa0 <= op)
  {
  }

  lemma PlainHeights(op: Byte)
    requires PlainOp(op).Some?
    ensures var p := PlainOp(op).value;
            && p.cost > 0 && !IsCall(op) && op != 0xf0 && op != 0xf5
            && Takes(op) == p.pops + (if p.rewrites then 1 else 0)
            && Leaves(op) == (if p.rewrites || p.pushes then 1 else 0)
  {
  }

  function PlainStep(f: Frame, p: Plain, word: Word): (o: Outcome)
    requires f.pc < |f.code| && PlainOp(f.code[f.pc]) == Some(p)
    ensures Sound(f, o)
    ensures o.Panic? <==> p.rewrites && |f.stack| == p.pops && f.gas >= p.cost
  {
    PlainHeights(f.code[f.pc]);
    hide PlainOp, Takes, Leaves;
    var n := |f.stack|;
    if f.gas < p.cost || n < p.pops then OUT
    else if p.rewrites && n == p.pops then Panic
    else if p.pushes && n == Stack.MAX_DEPTH then OUT
    else
      var g := f.(pc := f.pc + InstrLen(f.code[f.pc]), gas := f.gas - p.cost);
      var rest := Drop(g, p.pops + if p.rewrites then 1 else 0);
      Next(if p.rewrites || p.pushes then rest.(stack := rest.stack + [word]) else rest, Quiet)
  }

  /** DUPn and SWAPn. */
  function ShuffleStep(f: Frame): (o: Outcome)
    requires f.pc < |f.code| && 0x80 <= f.code[f.pc] <= 0x9f
    ensures Sound(f, o)
    ensures !o.Panic?
  {
    var op := f.code[f.pc];
    if f.gas < Gas.VERY_LOW then OUT
    else
      match (if op < 0x90 then Stack.Dup(f.stack, op - 0x80 + 1) else Stack.Swap(f.stack, op - 0x90 + 1))
      case Err(_) => OUT
      case Ok(s) => Next(f.(pc := f.pc + 1, gas := f.gas - Gas.VERY_LOW, stack := s), Quiet)
  }

  /** JUMP always jumps, JUMPI when its second operand is not zero. */
  predicate Jumps(f: Frame)
    requires f.pc < |f.code|
  {
    |f.stack| >= 1 && (f.code[f.pc] == 0x57 ==> |f.stack| >= 2 && Arg(f, 1) != 0)
  }

  /** JUMP and JUMPI. */
  function JumpStep(f: Frame): (o: Outcome)
    requires f.pc < |f.code| && (f.code[f.pc] == 0x56 || f.code[f.pc] == 0x57)
    ensures Sound(f, o) && !o.Panic?
    ensures o.Next? ==> o.f.pc == (if Jumps(f) then Low64(Arg(f, 0)) else f.pc + 1)
    ensures o.Next? && Jumps(f) ==> ValidJump(f.code, o.f.pc)
  {
    var conditional := f.code[f.pc] == 0x57;
    var cost, pops := if conditional then Gas.HIGH else Gas.MID, if conditional then 2 else 1;
    if f.gas < cost || |f.stack| < pops then OUT
    else
      var g := Drop(f, pops).(pc := f.pc + 1, gas := f.gas - cost);
      if conditional && Arg(f, 1) == 0 then Next(g, Quiet)
      else
        var d := Low64(Arg(f, 0));
        if ValidJump(f.code, d) then Next(g.(pc := d), Quiet) else OUT
  }

  // ---------- instructions over memory ----------

  function ByteLen(w: Word): nat {
    if w == 0 then 0 else 1 + ByteLen(w / 256)
  }

  /** SHA3 with its memory charged for twice; the error of the second charge is dropped. */
  function Sha3Paid(f: Frame): (r: Option<Frame>)
    requires |f.stack| >= 2
    ensures r.Some? ==> r.value.gas <= f.gas && r.value == f.(gas := r.value.gas, mem := r.value.mem)
  {
    hide Grow, ExpansionCost;
    var off, size := Low64(Arg(f, 0)), Low64(Arg(f, 1));
    var memCost := ExpansionCost(f.mem, off, size);
    var cost := Wrap64(30 + (if memCost.Some? then memCost.value else 0) + Gas.Sha3Words(size));
    if f.gas < cost then None
    else
      var paid := f.(gas := f.gas - cost);
      var grown := Grow(paid, off, size);
      Some(if grown.Some? then grown.value else paid)
  }

  /** EXP and SHA3, whose price is computed first. */
  function PricedStep(f: Frame, a: Answer): (o: Outcome)
    requires f.pc < |f.code| && (f.code[f.pc] == 0x0a || f.code[f.pc] == 0x20)
    ensures Sound(f, o)
    ensures a.hasRoom ==> (o.Panic? <==> |f.stack| < 2 || (f.code[f.pc] == 0x20 && Sha3Strays(f, a)))
  {
    hide Sha3Paid;
    if |f.stack| < 2 then Panic
    else if f.code[f.pc] == 0x0a then
      var cost := 10 + 50 * ByteLen(Arg(f, 1));
      if f.gas < cost then OUT
      else Next(Drop(f, 2).(pc := f.pc + 1, gas := f.gas - cost, stack := Drop(f, 2).stack + [a.word]), Quiet)
    else match Sha3Paid(f)
      case None => OUT
      case Some(g) =>
        if !a.hasRoom || Beyond(g.mem, a, Low64(Arg(f, 0)), Low64(Arg(f, 1))) then Panic
        else Next(Drop(g, 2).(pc := f.pc + 1, stack := Drop(g, 2).stack + [a.word]), Quiet)
  }

  predicate Sha3Strays(f: Frame, a: Answer)
    requires |f.stack| >= 2
  {
    Sha3Paid(f).Some? && Beyond(Sha3Paid(f).value.mem, a, Low64(Arg(f, 0)), Low64(Arg(f, 1)))
  }

  /** MLOAD, MSTORE and MSTORE8 up to the move; the two stores then check their operands. */
  function MemPaid(f: Frame): (r: Option<Frame>)
    requires f.pc < |f.code| && 0x51 <= f.code[f.pc] <= 0x53 && f.stack != []
    ensures r.Some? ==> r.value.gas + Gas.VERY_LOW <= f.gas && r.value == f.(gas := r.value.gas, mem := r.value.mem)
    ensures r.Some? ==> f.code[f.pc] == 0x51 || |f.stack| >= 2
  {
    hide Grow;
    if f.gas < Gas.VERY_LOW then None
    else if f.code[f.pc] != 0x51 && |f.stack| < 2 then None
    else Grow(f.(gas := f.gas - Gas.VERY_LOW), Low64(Arg(f, 0)), MemSize(f))
  }

  function MemSize(f: Frame): U64
    requires f.pc < |f.code|
  {
    if f.code[f.pc] == 0x53 then 1 else 32
  }

  function MemStep(f: Frame, a: Answer): (o: Outcome)
    requires f.pc < |f.code| && 0x51 <= f.code[f.pc] <= 0x53
    ensures Sound(f, o)
    ensures a.hasRoom ==> (o.Panic? <==> if f.stack == [] then f.gas >= Gas.VERY_LOW else MemStrays(f, a))
  {
    hide MemPaid;
    if f.stack == [] then if f.gas < Gas.VERY_LOW then OUT else Panic
    else match MemPaid(f)
      case None => OUT
      case Some(g) =>
        if !a.hasRoom || Beyond(g.mem, a, Low64(Arg(f, 0)), MemSize(f)) then Panic
        else if f.code[f.pc] == 0x51 then
          Next(Drop(g, 1).(pc := f.pc + 1, stack := Drop(g, 1).stack + [a.word]), Quiet)
        else Next(Drop(g, 2).(pc := f.pc + 1), Quiet)
  }

  predicate MemStrays(f: Frame, a: Answer)
    requires f.pc < |f.code| && 0x51 <= f.code[f.pc] <= 0x53 && f.stack != []
  {
    MemPaid(f).Some? && Beyond(MemPaid(f).value.mem, a, Low64(Arg(f, 0)), MemSize(f))
  }

  /** memCopyOp: dest is peeked third and size first, whatever order the copy pops them in. */
  function CopyCharge(f: Frame): (r: Option<Frame>)
    requires |f.stack| >= 3
    ensures r.Some? ==> r.value.gas <= f.gas && r.value == f.(gas := r.value.gas, mem := r.value.mem)
  {
    hide Grow;
    var dest, size := Low64(Arg(f, 2)), Low64(Arg(f, 0));
    if size == 0 then Some(f)
    else match Grow(f, dest, size)
      case None => None
      case Some(g) =>
        if g.gas < Gas.CopyWords(size) then None else Some(g.(gas := g.gas - Gas.CopyWords(size)))
  }

  /** EXTCODECOPY peeks the address, pays for it, and then peeks like the others. */
  predicate ShortCopy(f: Frame, a: Answer)
    requires f.pc < |f.code|
  {
    if f.code[f.pc] == 0x3c then
      f.stack == [] || (|f.stack| < 3 && f.gas >= if a.warm then Gas.WARM_READ else Gas.COLD_ACCOUNT)
    else |f.stack| < 3
  }

  /** What an access to the address costs EXTCODECOPY. */
  function CopyAccess(f: Frame, a: Answer): nat
    requires f.pc < |f.code|
  {
    if f.code[f.pc] != 0x3c then 0 else if a.warm then Gas.WARM_READ else Gas.COLD_ACCOUNT
  }

  /** The four copies up to the move. */
  function CopyPaid(f: Frame, a: Answer): (r: Option<Frame>)
    requires f.pc < |f.code| && |f.stack| >= 3
    ensures r.Some? ==> r.value.gas <= f.gas && r.value == f.(gas := r.value.gas, mem := r.value.mem)
    ensures r.Some? && f.code[f.pc] == 0x3c ==> |f.stack| >= 4
  {
    hide CopyCharge;
    if f.gas < CopyAccess(f, a) || (f.code[f.pc] == 0x3c && |f.stack| < 4) then None
    else CopyCharge(f.(gas := f.gas - CopyAccess(f, a)))
  }

  /** Operand i of the copy itself, after the address EXTCODECOPY pops: where to, from where,
      how much. They are not the operands it was charged for. */
  function CopyArg(f: Frame, i: nat): U64
    requires f.pc < |f.code| && i < 3 && |f.stack| >= if f.code[f.pc] == 0x3c then 4 else 3
  {
    Low64(Arg(f, if f.code[f.pc] == 0x3c then i + 1 else i))
  }

  /** RETURNDATACOPY beyond the return data is an error. */
  predicate CopyFails(f: Frame, a: Answer)
    requires f.pc < |f.code| && |f.stack| >= if f.code[f.pc] == 0x3c then 4 else 3
  {
    f.code[f.pc] == 0x3e && CopyArg(f, 1) + CopyArg(f, 2) > a.returned
  }

  predicate CopyStrays(f: Frame, a: Answer)
    requires f.pc < |f.code| && |f.stack| >= 3
  {
    CopyPaid(f, a).Some? && !CopyFails(f, a) && Beyond(CopyPaid(f, a).value.mem, a, CopyArg(f, 0), CopyArg(f, 2))
  }

  /** CALLDATACOPY, CODECOPY, EXTCODECOPY and RETURNDATACOPY; copying with a zero size is free. */
  function CopyStep(f: Frame, a: Answer): (o: Outcome)
    requires f.pc < |f.code| && f.code[f.pc] in {0x37, 0x39, 0x3c, 0x3e}
    ensures Sound(f, o)
    ensures a.hasRoom ==> (o.Panic? <==> ShortCopy(f, a) || (|f.stack| >= 3 && CopyStrays(f, a)))
  {
    hide CopyPaid, CopyArg;
    var ext := f.code[f.pc] == 0x3c;
    if ext && f.stack == [] then Panic
    else if f.gas < CopyAccess(f, a) then OUT
    else if |f.stack| < 3 then Panic
    else match CopyPaid(f, a)
      case None => OUT
      case Some(g) =>
        if CopyFails(f, a) then OUT
        else if !a.hasRoom || Beyond(g.mem, a, CopyArg(f, 0), CopyArg(f, 2)) then Panic
        else Next(Drop(g, if ext then 4 else 3).(pc := f.pc + 1), Quiet)
  }

  /** RETURN and REVERT. */
  function ReturnStep(f: Frame, a: Answer): (o: Outcome)
    requires f.pc < |f.code| && (f.code[f.pc] == 0xf3 || f.code[f.pc] == 0xfd)
    ensures Sound(f, o)
    ensures a.hasRoom ==> (o.Panic? <==> |f.stack| < 2 || ReturnStrays(f, a))
  {
    hide Grow;
    if |f.stack| < 2 then Panic
    else match Grow(f, Low64(Arg(f, 0)), Low64(Arg(f, 1)))
      case None => OUT
      case Some(g) =>
        if !a.hasRoom || Beyond(g.mem, a, Low64(Arg(f, 0)), Low64(Arg(f, 1))) then Panic
        else Stopped(if f.code[f.pc] == 0xf3 then Halted else Reverted, g.gas, Quiet)
  }

  predicate ReturnStrays(f: Frame, a: Answer)
    requires |f.stack| >= 2
  {
    var off, size := Low64(Arg(f, 0)), Low64(Arg(f, 1));
    Grow(f, off, size).Some? && Beyond(Grow(f, off, size).value.mem, a, off, size)
  }

  // ---------- instructions over the state ----------

  /** BALANCE, EXTCODESIZE, EXTCODEHASH and SLOAD: a warm or a cold read that rewrites the top. */
  function ReadStep(f: Frame, a: Answer): (o: Outcome)
    requires f.pc < |f.code| && f.code[f.pc] in {0x31, 0x3b, 0x3f, 0x54}
    ensures Sound(f, o)
    ensures o.Panic? <==> f.stack == []
  {
    var cost := if a.warm then Gas.WARM_READ else if f.code[f.pc] == 0x54 then Gas.COLD_SLOAD else Gas.COLD_ACCOUNT;
    if f.stack == [] then Panic
    else if f.gas < cost then OUT
    else Next(Drop(f, 1).(pc := f.pc + 1, gas := f.gas - cost, stack := Drop(f, 1).stack + [a.word]), Quiet)
  }

  function SstoreStep(f: Frame, a: Answer): (o: Outcome)
    requires f.pc < |f.code| && f.code[f.pc] == 0x55
    ensures Sound(f, o)
    ensures o.Panic? <==> |f.stack| < 2 && !f.isStatic && f.gas > 2300
    ensures f.isStatic || f.gas <= 2300 ==> o == OUT
    ensures o.Next? ==> o.f.gas + 100 <= f.gas && o.effect.Stored?
                        && o.effect.key == Arg(f, 0) && o.effect.newVal == Arg(f, 1)
  {
    if f.isStatic || f.gas <= 2300 then OUT
    else if |f.stack| < 2 then Panic
    else
      var cold := if a.warm then 0 else Gas.COLD_SLOAD;
      var (cost, refund) := Gas.SstoreCost(a.current, a.original, Arg(f, 1));
      if f.gas < cold || f.gas - cold < cost then OUT
      else Next(Drop(f, 2).(pc := f.pc + 1, gas := f.gas - cold - cost), Stored(Arg(f, 0), Arg(f, 1), refund))
  }

  function LogCost(topics: nat, size: U64): U64 {
    Wrap64(375 + Wrap64(8 * size) + topics * 375)
  }

  /** LOG up to the move. */
  function LogPaid(f: Frame): (r: Option<Frame>)
    requires f.pc < |f.code| && 0xa0 <= f.code[f.pc] <= 0xa4 && |f.stack| >= 2
    ensures r.Some? ==> r.value.gas <= f.gas && r.value == f.(gas := r.value.gas, mem := r.value.mem)
    ensures r.Some? ==> |f.stack| >= 2 + f.code[f.pc] - 0xa0
  {
    hide Grow, Low64, LogCost;
    var topics: nat := f.code[f.pc] - 0xa0;
    var size := Low64(Arg(f, 1));
    match Grow(f, Low64(Arg(f, 0)), size)
    case None => None
    case Some(g) =>
      if g.gas < LogCost(topics, size) || |f.stack| < 2 + topics then None
      else Some(g.(gas := g.gas - LogCost(topics, size)))
  }

  function LogStep(f: Frame, a: Answer): (o: Outcome)
    requires f.pc < |f.code| && 0xa0 <= f.code[f.pc] <= 0xa4
    ensures Sound(f, o)
    ensures a.hasRoom ==> (o.Panic? <==> !f.isStatic && (|f.stack| < 2 || LogStrays(f, a)))
  {
    hide LogPaid;
    if f.isStatic then OUT
    else if |f.stack| < 2 then Panic
    else match LogPaid(f)
      case None => OUT
      case Some(g) =>
        if !a.hasRoom || Beyond(g.mem, a, Low64(Arg(f, 0)), Low64(Arg(f, 1))) then Panic
        else Next(Drop(g, 2 + f.code[f.pc] - 0xa0).(pc := f.pc + 1), Emitted(a.log))
  }

  predicate LogStrays(f: Frame, a: Answer)
    requires f.pc < |f.code| && 0xa0 <= f.code[f.pc] <= 0xa4 && |f.stack| >= 2
  {
    LogPaid(f).Some? && Beyond(LogPaid(f).value.mem, a, Low64(Arg(f, 0)), Low64(Arg(f, 1)))
  }

  function DestroyStep(f: Frame, a: Answer): (o: Outcome)
    requires f.pc < |f.code| && f.code[f.pc] == 0xff
    ensures Sound(f, o)
    ensures !o.Panic?
  {
    var cost := Gas.SELF_DESTRUCT + (if a.warm then 0 else Gas.COLD_ACCOUNT) + (if a.isThere then 0
        else Gas.NEW_ACCOUNT);
    if f.isStatic || f.stack == [] || f.gas < cost then OUT
    else Stopped(Halted, f.gas - cost, Killed(ToAddr(Arg(f, 0))))
  }

  // ---------- calls and creations ----------

  function KindOf(op: Byte): CallKind
    requires IsCall(op)
  {
    if op == 0xf1 then PlainCall else if op == 0xf2 then CallCode else if op == 0xf4 then DelegateCall else StaticCall
  }

  /** Grow for the input and then for the output of a call. */
  function GrowBoth(f: Frame, inOff: U64, inSize: U64, outOff: U64, outSize: U64): (r: Option<Frame>)
    ensures r.Some? ==> r.value.gas <= f.gas && r.value == f.(gas := r.value.gas, mem := r.value.mem)
  {
    hide Grow;
    match Grow(f, inOff, inSize)
    case None => None
    case Some(g) => Grow(g, outOff, outSize)
  }

  /** What a call costs before gas is forwarded. */
  function CallCost(addr: Address, value: U64, a: Answer): (cost: nat)
    ensures cost >= if value == 0 then 100 else 9100
  {
    (if a.warm then Gas.WARM_READ else Gas.COLD_ACCOUNT)
    + (if value == 0 then 0
       else Gas.CALL_VALUE + if !Precompiled(addr) && !a.isThere then Gas.NEW_ACCOUNT else 0)
  }

  function Forwarded(gas: U64, gasArg: Word): (r: U64)
    ensures r <= gas - gas / 64
  {
    var all := Gas.CallGas(gas);
    if gasArg < all then gasArg else all
  }

  lemma CallTakes(op: Byte)
    requires IsCall(op)
    ensures Takes(op) == (if KindOf(op).PlainCall? || KindOf(op).CallCode? then 7 else 6) && Leaves(op) == 1
        && InstrLen(op) == 1
  {
  }

  /** execCall up to the handler. The stipend is added with 64-bit wrap-around. */
  function CallStep(f: Frame, a: Answer): (o: Outcome)
    requires f.pc < |f.code| && IsCall(f.code[f.pc])
    ensures Sound(f, o)
    ensures a.hasRoom ==> (o.Panic? <==> CallStrays(f, a))
  {
    CallTakes(f.code[f.pc]);
    hide ChargedCall, CallPaid, Takes, Leaves;
    if f.depth >= MAX_CALL_DEPTH then Next(PushIgnored(f.(pc := f.pc + 1), 0), Quiet)
    else if |f.stack| < CallBase(f) + 4 then OUT
    else ChargedCall(f, a)
  }

  predicate HasValue(f: Frame)
    requires f.pc < |f.code| && IsCall(f.code[f.pc])
  {
    KindOf(f.code[f.pc]).PlainCall? || KindOf(f.code[f.pc]).CallCode?
  }

  /** The memory operands start this far below the top. */
  function CallBase(f: Frame): nat
    requires f.pc < |f.code| && IsCall(f.code[f.pc])
  {
    if HasValue(f) then 3 else 2
  }

  function CallValue(f: Frame): U64
    requires f.pc < |f.code| && IsCall(f.code[f.pc]) && |f.stack| >= CallBase(f) + 4
  {
    if HasValue(f) then Low64(Arg(f, 2)) else 0
  }

  /** What a call pays before it forwards gas. */
  function CallPaid(f: Frame, a: Answer): (r: Option<Frame>)
    requires f.pc < |f.code| && IsCall(f.code[f.pc]) && |f.stack| >= CallBase(f) + 4
    ensures r.Some? ==> r.value == f.(gas := r.value.gas, mem := r.value.mem)
    ensures r.Some? ==> r.value.gas + (if CallValue(f) == 0 then 100 else 9100) <= f.gas
  {
    hide GrowBoth, ToAddr, Low64, CallCost;
    var b := CallBase(f);
    match GrowBoth(f, Low64(Arg(f, b)), Low64(Arg(f, b + 1)), Low64(Arg(f, b + 2)), Low64(Arg(f, b + 3)))
    case None => None
    case Some(g) =>
      var cost := CallCost(ToAddr(Arg(f, 1)), CallValue(f), a);
      if g.gas < cost then None else Some(g.(gas := g.gas - cost))
  }

  /** The input, or the place for what the callee returns, is out of reach. */
  predicate RegionsStray(f: Frame, g: Frame, a: Answer)
    requires f.pc < |f.code| && IsCall(f.code[f.pc]) && |f.stack| >= CallBase(f) + 4
  {
    var b := CallBase(f);
    Beyond(g.mem, a, Low64(Arg(f, b)), Low64(Arg(f, b + 1)))
    || (a.replied > 0 && Beyond(g.mem, a, Low64(Arg(f, b + 2)), Low64(Arg(f, b + 3))))
  }

  predicate CallStrays(f: Frame, a: Answer)
    requires f.pc < |f.code| && IsCall(f.code[f.pc])
  {
    && f.depth < MAX_CALL_DEPTH && |f.stack| >= CallBase(f) + 4
    && CallPaid(f, a).Some? && RegionsStray(f, CallPaid(f, a).value, a)
  }

  /** execCall once its operands are popped. The reply is written after the callee has run;
      as a panic there ends the whole run, it is raised here. */
  function ChargedCall(f: Frame, a: Answer): (o: Outcome)
    requires f.pc < |f.code| && IsCall(f.code[f.pc]) && |f.stack| >= CallBase(f) + 4
    ensures Sound(f, o) && !o.Next?
    ensures a.hasRoom ==> (o.Panic? <==> CallPaid(f, a).Some? && RegionsStray(f, CallPaid(f, a).value, a))
  {
    CallTakes(f.code[f.pc]);
    hide CallPaid, Place, ToAddr, Low64, Takes, Leaves, RegionsStray;
    match CallPaid(f, a)
    case None => OUT
    case Some(g) =>
      if !a.hasRoom || RegionsStray(f, g, a) then Panic
      else
        Place(Drop(g, CallBase(f) + 4).(pc := f.pc + 1), KindOf(f.code[f.pc]), ToAddr(Arg(f, 1)), CallValue(f),
            Arg(f, 0))
  }

  /** Split the gas left after the fixed costs between parent and child. */
  function Place(f: Frame, kind: CallKind, addr: Address, value: U64, gasArg: Word): (o: Outcome)
    requires value > 0 ==> f.gas + Gas.CALL_VALUE < TWO_64
    ensures o.Calling? && o.f == f.(gas := o.f.gas) && o.kind == kind && o.addr == addr && o.value == value
    ensures o.stipend == (if value > 0 then Gas.CALL_STIPEND else 0) <= o.childGas
    ensures o.f.gas + (o.childGas - o.stipend) == f.gas && o.childGas - o.stipend <= 63 * (o.f.gas + 1)
  {
    var forward := Forwarded(f.gas, gasArg);
    var stipend := if value > 0 then Gas.CALL_STIPEND else 0;
    Calling(f.(gas := f.gas - forward), kind, addr, value, Wrap64(forward + stipend), stipend)
  }

  /** The end of execCall: gas is clamped to what was forwarded without the stipend. */
  function ResumeCall(f: Frame, childGas: U64, stipend: U64, gasLeft: U64, ok: bool): Frame
    requires stipend <= childGas && f.gas + (childGas - stipend) < TWO_64
  {
    var back := if gasLeft > childGas - stipend then childGas - stipend else gasLeft;
    PushIgnored(f.(gas := f.gas + back), if ok then 1 else 0)
  }

  function CreatePops(f: Frame): nat
    requires f.pc < |f.code|
  {
    if f.code[f.pc] == 0xf5 then 4 else 3
  }

  predicate CreateStrays(f: Frame, a: Answer)
    requires f.pc < |f.code|
  {
    !f.isStatic && f.depth < MAX_CALL_DEPTH && |f.stack| >= CreatePops(f) &&
    var off, size := Low64(Arg(f, 1)), Low64(Arg(f, 2));
    Grow(f, off, size).Some? && Beyond(Grow(f, off, size).value.mem, a, off, size)
  }

  /** execCreate up to the handler: the frame keeps what the 63/64 rule leaves and lends it. */
  function CreateStep(f: Frame, a: Answer): (o: Outcome)
    requires f.pc < |f.code| && (f.code[f.pc] == 0xf0 || f.code[f.pc] == 0xf5)
    ensures Sound(f, o)
    ensures a.hasRoom ==> (o.Panic? <==> CreateStrays(f, a))
  {
    hide Grow;
    var pops := CreatePops(f);
    if f.isStatic then OUT
    else if f.depth >= MAX_CALL_DEPTH then Next(PushIgnored(f.(pc := f.pc + 1), 0), Quiet)
    else if |f.stack| < pops then OUT
    else match Grow(f, Low64(Arg(f, 1)), Low64(Arg(f, 2)))
      case None => OUT
      case Some(g) =>
        if !a.hasRoom || Beyond(g.mem, a, Low64(Arg(f, 1)), Low64(Arg(f, 2))) then Panic
        else Creating(Drop(g, pops).(pc := f.pc + 1, gas := g.gas - Gas.CallGas(g.gas)), Low64(Arg(f, 0)))
  }

  /** The end of execCreate: whatever the handler reports is added, unclamped. */
  function ResumeCreate(f: Frame, gasLeft: U64, ok: bool, addr: Address): Frame
    requires f.gas + gasLeft < TWO_64
  {
    PushIgnored(f.(gas := f.gas + gasLeft), if ok then addr else 0)
  }

  // ---------- unchecked operands ----------

  /** An operand is read below the bottom of the stack: `Stack.Back` is reached, past the
      checks each instruction makes before it, with too few words. The instructions that pop
      all their operands, and DUP and SWAP, never do this. */
  predicate Underflows(f: Frame, a: Answer)
    requires f.pc < |f.code|
  {
    var op, n := f.code[f.pc], |f.stack|;
    if PlainOp(op).Some? then
      PlainOp(op).value.rewrites && n == PlainOp(op).value.pops && f.gas >= PlainOp(op).value.cost
    else if op in {0x0a, 0x20, 0xf3, 0xfd} then n < 2
    else if op in {0x31, 0x3b, 0x3f, 0x54} then n < 1
    else if 0x51 <= op <= 0x53 then n < 1 && f.gas >= Gas.VERY_LOW
    else if op in {0x37, 0x39, 0x3c, 0x3e} then ShortCopy(f, a)
    else if op == 0x55 then n < 2 && !f.isStatic && f.gas > 2300
    else if 0xa0 <= op <= 0xa4 then n < 2 && !f.isStatic
    else false
  }

  /** So a step that panics has fewer operands than the instruction takes. */
  lemma UnderflowIsShort(f: Frame, a: Answer)
    requires f.pc < |f.code| && Underflows(f, a)
    ensures |f.stack| < Takes(f.code[f.pc])
  {
  }

  /** Data is moved out of reach of the memory's buffer. Instructions that charge for the
      region they move do so only for requests too far for a word count
      (`ChargedIsInReachIff`); the copies, which charge for other operands, and SHA3, which
      drops the error of its charge, also for others. */
  predicate Strays(f: Frame, a: Answer)
    requires f.pc < |f.code|
  {
    var op, n := f.code[f.pc], |f.stack|;
    if op == 0x20 then n >= 2 && Sha3Strays(f, a)
    else if 0x51 <= op <= 0x53 then n >= 1 && MemStrays(f, a)
    else if op in {0x37, 0x39, 0x3c, 0x3e} then n >= 3 && CopyStrays(f, a)
    else if op == 0xf3 || op == 0xfd then n >= 2 && ReturnStrays(f, a)
    else if 0xa0 <= op <= 0xa4 then n >= 2 && !f.isStatic && LogStrays(f, a)
    else if IsCall(op) then CallStrays(f, a)
    else if op == 0xf0 || op == 0xf5 then CreateStrays(f, a)
    else false
  }

  // ---------- the switch ----------

  function Step(f: Frame, a: Answer): (o: Outcome)
    requires f.pc < |f.code|
    ensures Sound(f, o)
    ensures a.hasRoom ==> (o.Panic? <==> Underflows(f, a) || Strays(f, a))
  {
    hide PlainStep, ShuffleStep, JumpStep, PricedStep, MemStep, CopyStep, ReadStep, SstoreStep, LogStep, ReturnStep,
        DestroyStep, CallStep, CreateStep;
    PlainMovesNothing(f.code[f.pc]);
    hide Sound, PlainOp, Takes, Leaves, ShortCopy, Sha3Strays, MemStrays, CopyStrays, ReturnStrays, LogStrays,
        CallStrays, CreateStrays;
    var op := f.code[f.pc];
    if op == 0x00 then Stopped(Halted, f.gas, Quiet)
    else if PlainOp(op).Some? then PlainStep(f, PlainOp(op).value, a.word)
    else if 0x80 <= op <= 0x9f then ShuffleStep(f)
    else if op == 0x56 || op == 0x57 then JumpStep(f)
    else if op == 0x0a || op == 0x20 then PricedStep(f, a)
    else if 0x51 <= op <= 0x53 then MemStep(f, a)
    else if op in {0x37, 0x39, 0x3c, 0x3e} then CopyStep(f, a)
    else if op in {0x31, 0x3b, 0x3f, 0x54} then ReadStep(f, a)
    else if op == 0x55 then SstoreStep(f, a)
    else if 0xa0 <= op <= 0xa4 then LogStep(f, a)
    else if op == 0xf3 || op == 0xfd then ReturnStep(f, a)
    else if op == 0xff then DestroyStep(f, a)
    else if IsCall(op) then CallStep(f, a)
    else if op == 0xf0 || op == 0xf5 then CreateStep(f, a)
    else OUT
  }

  /** An MLOAD at the top of the address space is granted for nothing and then panics. */
  lemma TopLoadPanics(f: Frame, a: Answer)
    requires f.pc < |f.code| && f.code[f.pc] == 0x51 && f.gas >= Gas.VERY_LOW
    requires f.stack != [] && Arg(f, 0) == TWO_64 - 33 && f.mem.len < TWO_64 / 2 && a.hasRoom
    ensures Step(f, a).Panic? && !Underflows(f, a)
  {
    TopLoadStrays(f, a);
    PlainMovesNothing(0x51);
    hide Step, MemStrays, PlainOp;
    assert Strays(f, a);
  }

  lemma TopLoadStrays(f: Frame, a: Answer)
    requires f.pc < |f.code| && f.code[f.pc] == 0x51 && f.gas >= Gas.VERY_LOW
    requires f.stack != [] && Arg(f, 0) == TWO_64 - 33 && f.mem.len < TWO_64 / 2
    ensures MemStrays(f, a)
  {
    var g := f.(gas := f.gas - Gas.VERY_LOW);
    TopIsGranted(g);
    hide Grow, Beyond, Arg, Low64;
    assert Low64(Arg(f, 0)) == TWO_64 - 33 by {
      LowOfLow(TWO_64 - 33);
    }
    ChargedIsInReachIff(g, a, TWO_64 - 33, 32);
    assert MemPaid(f) == Grow(g, TWO_64 - 33, 32);
  }

  lemma LowOfLow(w: Word)
    requires w < TWO_64
    ensures Low64(w) == w
  {
  }

  lemma TopIsGranted(f: Frame)
    ensures Grow(f, TWO_64 - 33, 32).Some?
  {
    TopRequestIsFree(f.mem, f.gas);
    hide ExpandMem;
  }

  /** A copy of 5000 bytes to address 0 is charged for nothing, as its destination is taken for
      its size; in a memory without as long a buffer it panics. */
  lemma UnchargedCopyPanics(f: Frame, a: Answer)
    requires f.pc < |f.code| && f.code[f.pc] == 0x37 && |f.stack| >= 3 && f.mem.len == 0 && a.capacity < 5000
    requires Arg(f, 0) == 0 && Arg(f, 2) == 5000 && a.hasRoom
    ensures Step(f, a).Panic? && !Underflows(f, a)
  {
    UnchargedCopyStrays(f, a);
    PlainMovesNothing(0x37);
    hide Step, CopyStrays, PlainOp;
    assert Strays(f, a);
  }

  lemma UnchargedCopyStrays(f: Frame, a: Answer)
    requires f.pc < |f.code| && f.code[f.pc] == 0x37 && |f.stack| >= 3 && f.mem.len == 0 && a.capacity < 5000
    requires Arg(f, 0) == 0 && Arg(f, 2) == 5000
    ensures CopyStrays(f, a)
  {
    LowOfLow(0);
    LowOfLow(5000);
    hide Low64, Arg;
    assert CopyPaid(f, a) == Some(f);
  }
}
