/** What no revert takes back: the logs and the refund counter, which the journal does not know,
    and which Finalise keeps for the next transaction. */
module Residue {
  import opened Types
  import opened State
  import opened Evm
  import opened Journal
  import opened Settlement
  import opened TracedRun

  /** Logs written and refund earned, in order. */
  datatype Left = Left(logs: seq<Log>, refund: nat)

  const NOTHING := Left([], 0)

  function Plus(x: Left, y: Left): Left {
    Left(x.logs + y.logs, x.refund + y.refund)
  }

  /** What a script leaves, with everything its callees leave, whether they fail or not. */
  ghost function ScriptLeaves(db: Db, ctx: Ctx, s: Script): Left
    requires MarksOk(db)
    decreases s, 0
  {
    match s
    case End(_, _, _) => NOTHING
    case Destroy(_, _) => NOTHING
    case SStore(key, value, refund, next) =>
      Plus(Left([], refund),
           ScriptLeaves(Write(Refunded(db, refund), SetStorage(Slot(ctx.contract, key), value)), ctx, next))
    case Emit(l, next) => Plus(Left([l], 0), ScriptLeaves(Logged(db, l), ctx, next))
    case Call(kind, addr, value, gas, child, next) =>
      Plus(CallLeaves(db, ctx, kind, addr, value, child),
           ScriptLeaves(HandleCall(db, ctx, kind, addr, value, gas, child).db, ctx, next))
    case Create(addr, hash, value, gas, child, next) =>
      Plus(CreateLeaves(db, ctx.contract, addr, value, child),
           ScriptLeaves(CreateContract(db, ctx.contract, addr, hash, value, gas, child).db, ctx, next))
  }

  ghost function CallLeaves(db: Db, ctx: Ctx, kind: CallKind, addr: Address, value: U64, child: Script): Left
    requires MarksOk(db)
    decreases child, 3
  {
    match kind
    case StaticCall => ScriptLeaves(TakeSnapshot(db), Ctx(addr, ctx.contract), child)
    case PlainCall => ExecLeaves(db, ctx.contract, addr, value, child)
    case _ =>
      var callee := if kind.CallCode? then Ctx(ctx.contract, ctx.contract) else ctx;
      if Borrows(db, ctx, kind, addr, value) then ScriptLeaves(TakeSnapshot(db), callee, child) else NOTHING
  }

  ghost function ExecLeaves(db: Db, caller: Address, contract: Address, value: Word, child: Script): Left
    requires MarksOk(db)
    decreases child, 2
  {
    EntriesHaveMarks(db, caller, contract, value);
    match PlainEntry(db, caller, contract, value)
    case None => NOTHING
    case Some(db1) => ScriptLeaves(db1, Ctx(contract, caller), child)
  }

  ghost function CreateLeaves(db: Db, from: Address, addr: Address, value: Word, child: Script): Left
    requires MarksOk(db)
    decreases child, 1
  {
    EntriesHaveMarks(db, from, addr, value);
    match CreateEntry(db, from, addr, value)
    case None => NOTHING
    case Some(db1) => ScriptLeaves(db1, Ctx(addr, from), child)
  }

  /** `db'` has what `db` had and what was left since. */
  ghost predicate Gained(db: Db, db': Db, x: Left) {
    db'.logs == db.logs + x.logs && db'.refund == Wrap64(db.refund + x.refund)
  }

  lemma GainedTwice(db: Db, db1: Db, db2: Db, x: Left, y: Left)
    requires Gained(db, db1, x) && Gained(db1, db2, y)
    ensures Gained(db, db2, Plus(x, y))
  {
    assert db.logs + x.logs + y.logs == db.logs + (x.logs + y.logs);
    WrapTwice(db.refund + x.refund, y.refund);
  }

  lemma WrapTwice(a: nat, b: nat)
    ensures Wrap64(Wrap64(a) + b) == Wrap64(a + b)
  {
    var q := a / TWO_64;
    assert a == q * TWO_64 + Wrap64(a);
    WrapShifted(Wrap64(a) + b, q);
  }

  lemma {:induction false} WrapShifted(a: nat, q: nat)
    ensures Wrap64(a + q * TWO_64) == Wrap64(a)
  {
    if q > 0 {
      WrapShifted(a, q - 1);
      WrapOnce(a + (q - 1) * TWO_64);
    }
  }

  lemma WrapOnce(a: nat)
    ensures Wrap64(a + TWO_64) == Wrap64(a)
  {
  }

  lemma GainedNothing(db: Db, db': Db)
    requires db'.logs == db.logs && db'.refund == db.refund
    ensures Gained(db, db', NOTHING)
  {
  }

  lemma GainedAlike(db: Db, q: Db, after: Db, x: Left)
    requires Gained(db, q, x) && after.logs == q.logs && after.refund == q.refund
    ensures Gained(db, after, x)
  {
  }

  /** Neither a write, a snapshot nor a revert touches logs or refund. */
  lemma RevertLeaves(db: Db, id: nat)
    requires MarksOk(db)
    ensures Revert(db, id).logs == db.logs && Revert(db, id).refund == db.refund
  {
  }

  lemma SameAfterRestore(db: Db, r: Ran, r': Ran, base: Db, x: Left)
    requires MarksOk(db) && Grown(TakeSnapshot(db), r.db) && r' == RevertUnlessHalted(db, r) && Gained(base, r.db, x)
    ensures Gained(base, r'.db, x)
  {
    if !r.exit.Halted? {
      RevertLeaves(r.db, |db.snapshots|);
    }
  }

  /** A run, with all it calls, adds exactly the logs and refunds it meets, undone or not. */
  lemma {:induction false} ScriptGains(db: Db, ctx: Ctx, s: Script)
    requires MarksOk(db)
    ensures Gained(db, RunScript(db, ctx, s).db, ScriptLeaves(db, ctx, s))
    decreases s, 0
  {
    hide Write, MarksOk, HandleCall, CreateContract, CallLeaves, CreateLeaves, Gained, Plus;
    match s
    case End(_, _, _) => GainedNothing(db, db);
    case Destroy(ben, _) => DestroyGains(db, ctx.contract, ben);
    case SStore(key, value, refund, next) =>
      var db1 := Write(Refunded(db, refund), SetStorage(Slot(ctx.contract, key), value));
      StoreGains(db, Slot(ctx.contract, key), value, refund);
      ScriptGains(db1, ctx, next);
      GainedTwice(db, db1, RunScript(db1, ctx, next).db, Left([], refund), ScriptLeaves(db1, ctx, next));
    case Emit(l, next) =>
      LogGains(db, l);
      ScriptGains(Logged(db, l), ctx, next);
      GainedTwice(db, Logged(db, l), RunScript(Logged(db, l), ctx, next).db, Left([l], 0),
          ScriptLeaves(Logged(db, l), ctx, next));
    case Call(kind, addr, value, gas, child, next) =>
      var db1 := HandleCall(db, ctx, kind, addr, value, gas, child).db;
      CallGains(db, ctx, kind, addr, value, gas, child);
      ScriptGains(db1, ctx, next);
      GainedTwice(db, db1, RunScript(db1, ctx, next).db, CallLeaves(db, ctx, kind, addr, value, child),
          ScriptLeaves(db1, ctx, next));
    case Create(addr, hash, value, gas, child, next) =>
      var db1 := CreateContract(db, ctx.contract, addr, hash, value, gas, child).db;
      CreateGains(db, ctx.contract, addr, hash, value, gas, child);
      ScriptGains(db1, ctx, next);
      GainedTwice(db, db1, RunScript(db1, ctx, next).db, CreateLeaves(db, ctx.contract, addr, value, child),
          ScriptLeaves(db1, ctx, next));
  }

  lemma DestroyGains(db: Db, contract: Address, ben: Address)
    ensures Gained(db, Destroyed(db, contract, ben), NOTHING)
  {
  }

  lemma StoreGains(db: Db, s: Slot, v: Hash, refund: U64)
    requires MarksOk(db)
    ensures MarksOk(Write(Refunded(db, refund), SetStorage(s, v)))
    ensures Gained(db, Write(Refunded(db, refund), SetStorage(s, v)), Left([], refund))
  {
  }

  lemma LogGains(db: Db, l: Log)
    requires MarksOk(db)
    ensures MarksOk(Logged(db, l)) && Gained(db, Logged(db, l), Left([l], 0))
  {
  }

  /** One call, whether it halts, reverts or fails. */
  lemma {:induction false} CallGains(db: Db, ctx: Ctx, kind: CallKind, addr: Address, value: U64, gas: U64,
      child: Script)
    requires MarksOk(db)
    ensures Gained(db, HandleCall(db, ctx, kind, addr, value, gas, child).db,
        CallLeaves(db, ctx, kind, addr, value, child))
    decreases child, 3
  {
    hide RunScript, ScriptLeaves, ExecCall, ExecLeaves, RevertUnlessHalted;
    var db1 := TakeSnapshot(db);
    match kind
    case PlainCall => ExecGains(db, ctx.contract, addr, value, gas, None, child);
    case StaticCall => FrameGains(db, db1, Ctx(addr, ctx.contract), child);
    case CallCode => FrameGains(db, db1, Ctx(ctx.contract, ctx.contract), child);
    case DelegateCall => FrameGains(db, db1, ctx, child);
  }

  lemma {:induction false} FrameGains(db: Db, db1: Db, callee: Ctx, child: Script)
    requires MarksOk(db) && Grown(TakeSnapshot(db), db1) && db1.logs == db.logs && db1.refund == db.refund
    ensures var r := RunScript(db1, callee, child);
            && Grown(TakeSnapshot(db), r.db) && Gained(db, r.db, ScriptLeaves(db1, callee, child))
            && Gained(db, RevertUnlessHalted(db, r).db, ScriptLeaves(db1, callee, child))
    decreases child, 1
  {
    hide RunScript, ScriptLeaves, RevertUnlessHalted;
    ScriptGains(db1, callee, child);
    var r := RunScript(db1, callee, child);
    GrownTransitive(TakeSnapshot(db), db1, r.db);
    SameAfterRestore(db, r, RevertUnlessHalted(db, r), db, ScriptLeaves(db1, callee, child));
  }

  lemma {:induction false} ExecGains(db: Db, caller: Address, contract: Address, value: Word, gas: U64,
      preCost: Option<nat>, child: Script)
    requires MarksOk(db)
    ensures Gained(db, ExecCall(db, caller, contract, value, gas, preCost, child).db,
        ExecLeaves(db, caller, contract, value, child))
    decreases child, 2
  {
    EntriesHaveMarks(db, caller, contract, value);
    EntriesKeep(db, caller, contract, value);
    ExecEnters(db, caller, contract, value, gas, preCost, child);
    var after := ExecCall(db, caller, contract, value, gas, preCost, child).db;
    hide RunScript, ScriptLeaves, ExecCall, PlainEntry, Gained, MarksOk, Grown;
    match PlainEntry(db, caller, contract, value)
    case None => GainedNothing(db, after);
    case Some(db1) => FrameGains(db, db1, Ctx(contract, caller), child);
  }

  /** A CALL either runs code from its entry or touches neither logs nor refund. */
  lemma ExecEnters(db: Db, caller: Address, contract: Address, value: Word, gas: U64, preCost: Option<nat>,
      child: Script)
    requires MarksOk(db)
    ensures var e, after := PlainEntry(db, caller, contract, value),
        ExecCall(db, caller, contract, value, gas, preCost, child).db;
            if e.None? then after.logs == db.logs && after.refund == db.refund
            else MarksOk(e.value) && Grown(TakeSnapshot(db), RunScript(e.value, Ctx(contract, caller), child).db)
                 && after == RevertUnlessHalted(db, RunScript(e.value, Ctx(contract, caller), child)).db
  {
    hide RunScript, Revert, Apply, EntryFor;
    RevertLeaves(TakeSnapshot(db), |db.snapshots|);
  }

  lemma CreateEnters(db: Db, from: Address, addr: Address, codeHash: Hash, value: Word, gas: U64, child: Script)
    requires MarksOk(db)
    ensures var e, after := CreateEntry(db, from, addr, value),
        CreateContract(db, from, addr, codeHash, value, gas, child).db;
            if e.None? then after.logs == db.logs && after.refund == db.refund
            else MarksOk(e.value) && Grown(TakeSnapshot(db), RunScript(e.value, Ctx(addr, from), child).db)
                 && var q := RevertUnlessHalted(db, RunScript(e.value, Ctx(addr, from), child)).db;
                 after.logs == q.logs && after.refund == q.refund
  {
    hide RunScript, Revert, Apply, EntryFor, Creatable;
    RevertLeaves(Opened(Bumped(TakeSnapshot(db), from), addr), |db.snapshots|);
    RevertIgnoresFlags(db);
  }

  lemma RevertIgnoresFlags(db: Db)
    requires MarksOk(db)
    ensures forall r: Ran, clean: bool :: Grown(TakeSnapshot(db), r.db) ==>
              RevertUnlessHalted(db, r.(clean := clean)).db == RevertUnlessHalted(db, r).db
  {
  }

  lemma EntriesKeep(db: Db, from: Address, addr: Address, value: Word)
    requires MarksOk(db)
    ensures var e := PlainEntry(db, from, addr, value);
            e.Some? ==> Grown(TakeSnapshot(db), e.value) && e.value.logs == db.logs && e.value.refund == db.refund
    ensures var e := CreateEntry(db, from, addr, value);
            e.Some? ==> Grown(TakeSnapshot(db), e.value) && e.value.logs == db.logs && e.value.refund == db.refund
  {
    hide Apply, EntryFor;
  }

  lemma {:induction false} CreateGains(db: Db, from: Address, addr: Address, codeHash: Hash, value: Word, gas: U64,
      child: Script)
    requires MarksOk(db)
    ensures Gained(db, CreateContract(db, from, addr, codeHash, value, gas, child).db,
        CreateLeaves(db, from, addr, value, child))
    decreases child, 2
  {
    EntriesHaveMarks(db, from, addr, value);
    EntriesKeep(db, from, addr, value);
    CreateEnters(db, from, addr, codeHash, value, gas, child);
    var after := CreateContract(db, from, addr, codeHash, value, gas, child).db;
    hide RunScript, ScriptLeaves, CreateContract, CreateEntry, MarksOk, Grown, RevertUnlessHalted, Gained;
    match CreateEntry(db, from, addr, value)
    case None => GainedNothing(db, after);
    case Some(db1) =>
      FrameGains(db, db1, Ctx(addr, from), child);
      var q := RevertUnlessHalted(db, RunScript(db1, Ctx(addr, from), child)).db;
      GainedAlike(db, q, after, ScriptLeaves(db1, Ctx(addr, from), child));
  }

  /** A call leaves logs and refund counter as they were, however it ends, exactly when nothing
      in it logged and its refunds add up to a multiple of 2^64. */
  lemma CallLeavesNothingIff(db: Db, ctx: Ctx, kind: CallKind, addr: Address, value: U64, gas: U64, child: Script)
    requires MarksOk(db)
    ensures var db' := HandleCall(db, ctx, kind, addr, value, gas, child).db;
            var x := CallLeaves(db, ctx, kind, addr, value, child);
            db'.logs == db.logs && db'.refund == db.refund <==> x.logs == [] && x.refund % TWO_64 == 0
  {
    hide HandleCall, CallLeaves;
    CallGains(db, ctx, kind, addr, value, gas, child);
    var x := CallLeaves(db, ctx, kind, addr, value, child);
    assert db.logs + x.logs == db.logs <==> x.logs == [] by {
      assert |db.logs + x.logs| == |db.logs| + |x.logs|;
    }
    WrapTwice(x.refund, db.refund);
    WrapIsSameIff(db.refund, x.refund);
  }

  lemma WrapIsSameIff(a: U64, b: nat)
    ensures Wrap64(a + b) == a <==> b % TWO_64 == 0
  {
    WrapTwice(b, a);
  }

  /** The callee of a CALL earns a refund, logs and reverts: both stay. */
  lemma RevertedCalleeStillCounts(ctx: Ctx, log: Log)
    ensures MarksOk(ONE_CONTRACT)
    ensures var child := SStore(1, 0, 4800, Emit(log, End(Reverted, 0, [])));
            var r := HandleCall(ONE_CONTRACT, ctx, PlainCall, 30, 0, 100, child);
            r.exit.Reverted? && r.db.logs == [log] && r.db.refund == 4800 && ONE_CONTRACT.logs == []
                && ONE_CONTRACT.refund == 0
  {
    var child := SStore(1, 0, 4800, Emit(log, End(Reverted, 0, [])));
    var db1, callee := TakeSnapshot(ONE_CONTRACT), Ctx(30, ctx.contract);
    assert Acct(db1.world, 30).code == [0];
    var db2 := Write(Refunded(db1, 4800), SetStorage(Slot(30, 1), 0));
    assert RunScript(db2, callee, child.next) == RunScript(Logged(db2, log), callee, child.next.next);
    assert RunScript(db1, callee, child) == Ran(Logged(db2, log), Reverted, 0, [], true, true);
    RevertLeaves(Logged(db2, log), 0);
    hide Revert;
  }

  /** Finalise keeps the counter, so the next transaction is paid for earlier refunds again,
      unless there were none, it fails, or the cap is reached with and without them. */
  lemma OldRefundIsPaidIff(before: U64, now: U64, used: U64, exit: Exit)
    ensures GrantedRefund(Wrap64(before + now), used, exit) != GrantedRefund(now, used, exit)
            <==> !exit.Failed? && before > 0 && (now < used / 5 || Wrap64(before + now) < used / 5)
  {
    assert Wrap64(before + now) == if before + now < TWO_64 then before + now else before + now - TWO_64;
  }

  ghost function MessageLeaves(db: Db, m: Message, c: Callee): Left
    requires MarksOk(db)
  {
    if m.to.Some? then ExecLeaves(db, m.from, m.to.value, m.value, c.script)
    else CreateLeaves(db, m.from, c.newAddr, m.value, c.script)
  }

  lemma MessageGains(db: Db, m: Message, c: Callee)
    requires MarksOk(db) && (m.intrinsic.Some? ==> m.intrinsic.value <= m.gas)
    ensures Gained(db, RunMessage(db, m, c).db, MessageLeaves(db, m, c))
  {
    hide Gained, ExecCall, ExecLeaves, CreateContract, CreateLeaves;
    if m.to.Some? {
      ExecGains(db, m.from, m.to.value, m.value, GasToRun(m), c.preCost, c.script);
    } else {
      CreateGains(db, m.from, c.newAddr, c.codeHash, m.value, GasToRun(m), c.script);
    }
  }

  /** The counter a transaction settles with is the one it started with plus all it met; it and
      the logs outlive Finalise. */
  lemma {:induction false} TransactionRefund(db: Db, m: Message, c: Callee)
    requires MarksOk(db) && (m.intrinsic.Some? ==> m.intrinsic.value <= m.gas)
    ensures MarksOk(Bought(db, m))
    ensures var x, after := MessageLeaves(Bought(db, m), m, c), RunMessage(Bought(db, m), m, c).db;
            && after.refund == Wrap64(db.refund + x.refund) && after.logs == db.logs + x.logs
            && Finalised(after).refund == after.refund && Finalised(after).logs == after.logs
  {
    hide *;
    BoughtKeeps(db, m);
    MessageGains(Bought(db, m), m, c);
    var x, after := MessageLeaves(Bought(db, m), m, c), RunMessage(Bought(db, m), m, c).db;
    GainedCounts(db, Bought(db, m), after, x);
    FinaliseKeeps(after);
  }

  lemma GainedCounts(db: Db, bought: Db, after: Db, x: Left)
    requires Gained(bought, after, x) && bought.refund == db.refund && bought.logs == db.logs
    ensures after.refund == Wrap64(db.refund + x.refund) && after.logs == db.logs + x.logs
  {
  }

  lemma FinaliseKeeps(db: Db)
    ensures Finalised(db).refund == db.refund && Finalised(db).logs == db.logs
  {
  }

  lemma BoughtKeeps(db: Db, m: Message)
    requires MarksOk(db)
    ensures MarksOk(Bought(db, m)) && Bought(db, m).refund == db.refund && Bought(db, m).logs == db.logs
  {
  }

  /** A CALLCODE or DELEGATECALL gives the stack of marks back exactly when it ran code that did
      not halt; one that lacks funds leaves its mark. */
  lemma BorrowedCallMarksIff(db: Db, ctx: Ctx, kind: CallKind, addr: Address, value: U64, gas: U64, child: Script)
    requires MarksOk(db) && (kind.CallCode? || kind.DelegateCall?)
    ensures HandleCall(db, ctx, kind, addr, value, gas, child).db.snapshots == db.snapshots
            <==> Borrows(db, ctx, kind, addr, value) && !ExitOf(child).Halted?
  {
    hide RunScript, Revert;
    var callee := if kind.CallCode? then Ctx(ctx.contract, ctx.contract) else ctx;
    RunEndsAs(TakeSnapshot(db), callee, child);
    FrameUndone(db, RunScript(TakeSnapshot(db), callee, child).db);
  }
}
