/** The call discipline of evm/evm.go: snapshot on entry, transfer, run, revert on failure.

    What one run of the interpreter does to the state is a `Script`: the writes it makes, the
    calls it places with the scripts of the callees, and how it ends. Scripts range over all
    behaviours of all code; module `Interpreter` shows that every interpreter run yields one. */
module Evm {
  import opened Types
  import opened State
  import opened Journal

  datatype CallKind = PlainCall | CallCode | DelegateCall | StaticCall

  datatype Exit = Halted | Reverted | Failed

  datatype Script =
    | End(exit: Exit, gasLeft: U64, output: Code)
    | Destroy(beneficiary: Address, gasLeft: U64)
    | SStore(key: Hash, newVal: Hash, refund: U64, next: Script)
    | Emit(log: Log, next: Script)
    | Call(kind: CallKind, addr: Address, value: U64, gas: U64, child: Script, next: Script)
    | Create(addr: Address, codeHash: Hash, value: U64, gas: U64, child: Script, next: Script)

  datatype Ctx = Ctx(contract: Address, caller: Address)

  /** The outcome of a run. `clean` records whether every CreateAccount on the way had nothing
      to lose (`Journal.Creatable`), `lossless` whether every one that was undone had. */
  datatype Ran = Ran(db: Db, exit: Exit, gasLeft: U64, output: Code, clean: bool, lossless: bool)

  predicate Precompiled(a: Address) {
    1 <= a <= 9
  }

  /** precompile.Run: every precompile has a price, computed from its input, and one that
      cannot be paid, like any error (None), takes all the gas. */
  function PrecompileLeft(cost: Option<nat>, gas: U64): (left: U64)
    ensures left <= gas
  {
    if cost.None? || gas < cost.value then 0 else gas - cost.value
  }

  /** Marks stay sorted and bounded, and nothing older than the run is disturbed: a snapshot
      id handed out before the run still names the same journal position after it. */
  ghost predicate Grown(db: Db, db': Db) {
    MarksOk(db') && db.snapshots <= db'.snapshots && db.journal <= db'.journal
  }

  lemma GrownTransitive(db: Db, db1: Db, db2: Db)
    requires Grown(db, db1) && Grown(db1, db2)
    ensures Grown(db, db2)
  {
  }

  /** Reverting to the snapshot a frame took on entry gives back journal and marks as they were. */
  lemma FrameUndone(db: Db, db': Db)
    requires MarksOk(db) && Grown(TakeSnapshot(db), db')
    ensures var back := Revert(db', |db.snapshots|);
            back.journal == db.journal && back.snapshots == db.snapshots && Grown(db, back)
  {
    var id := |db.snapshots|;
    assert db'.snapshots[id] == TakeSnapshot(db).snapshots[id];
    assert db'.snapshots[..id] == TakeSnapshot(db).snapshots[..id] == db.snapshots;
    assert db'.journal[..|db.journal|] == db.journal;
  }

  function Refunded(db: Db, gas: U64): Db {
    db.(refund := Wrap64(db.refund + gas))
  }

  function Logged(db: Db, l: Log): Db {
    db.(logs := db.logs + [l])
  }

  function Transfer(db: Db, from: Address, to: Address, v: Word): (r: Db)
    ensures MarksOk(db) ==> Grown(db, r)
  {
    Write(Write(db, SubBalance(from, v)), AddBalance(to, v))
  }

  /** SELFDESTRUCT: credit the beneficiary first, then empty the contract, then mark it
      if it was created in this transaction. */
  function Destroyed(db: Db, contract: Address, ben: Address): (r: Db)
    ensures MarksOk(db) ==> Grown(db, r)
  {
    var bal := Acct(db.world, contract).balance;
    var db1 := if bal == 0 then db
               else Write(Write(db, AddBalance(ben, bal)), SubBalance(contract, bal));
    if contract in db1.world.created then Write(db1, Suicide(contract)) else db1
  }

  /** The end of a frame entered in state `db`. */
  ghost function RevertUnlessHalted(db: Db, r: Ran): (q: Ran)
    requires MarksOk(db) && Grown(TakeSnapshot(db), r.db)
    ensures Grown(db, q.db) && q == r.(db := q.db, lossless := if r.exit.Halted? then r.lossless else r.clean)
  {
    FrameUndone(db, r.db);
    if r.exit.Halted? then r else r.(db := Revert(r.db, |db.snapshots|), lossless := r.clean)
  }

  ghost function RunScript(db: Db, ctx: Ctx, s: Script): (r: Ran)
    requires MarksOk(db)
    ensures Grown(db, r.db) && (r.clean ==> r.lossless)
    decreases s, 0
  {
    match s
    case End(exit, gasLeft, output) => Ran(db, exit, if exit.Failed? then 0 else gasLeft, output, true, true)
    case Destroy(ben, gasLeft) => Ran(Destroyed(db, ctx.contract, ben), Halted, gasLeft, [], true, true)
    case SStore(key, value, refund, next) =>
      RunScript(Write(Refunded(db, refund), SetStorage(Slot(ctx.contract, key), value)), ctx, next)
    case Emit(l, next) => RunScript(Logged(db, l), ctx, next)
    case Call(kind, addr, value, gas, child, next) =>
      var c := HandleCall(db, ctx, kind, addr, value, gas, child);
      var r := RunScript(c.db, ctx, next);
      r.(clean := c.clean && r.clean, lossless := c.lossless && r.lossless)
    case Create(addr, hash, value, gas, child, next) =>
      var c := CreateContract(db, ctx.contract, addr, hash, value, gas, child);
      var r := RunScript(c.db, ctx, next);
      r.(clean := c.clean && r.clean, lossless := c.lossless && r.lossless)
  }

  /** EVM.Call */
  ghost function HandleCall(db: Db, ctx: Ctx, kind: CallKind, addr: Address, value: U64, gas: U64,
      child: Script): (r: Ran)
    requires MarksOk(db)
    ensures Grown(db, r.db) && (r.clean ==> r.lossless)
    decreases child, 2
  {
    var db1 := TakeSnapshot(db);
    match kind
    case StaticCall =>
      var r := RunScript(db1, Ctx(addr, ctx.contract), child);
      if r.exit.Failed? then RevertUnlessHalted(db, r) else r
    case PlainCall => ExecCall(db, ctx.contract, addr, value, gas, None, child)
    case _ =>
      if kind.CallCode? && value > 0 && Acct(db.world, ctx.contract).balance < value then
        Ran(db1, Failed, gas, [], true, true)
      else if Acct(db.world, addr).code == [] then
        Ran(db1, Halted, gas, [], true, true)
      else
        var callee := if kind.CallCode? then Ctx(ctx.contract, ctx.contract) else ctx;
        RevertUnlessHalted(db, RunScript(db1, callee, child))
  }

  /** EVM.execCall for CALL; `preCost` is what a precompile would charge. */
  ghost function ExecCall(db: Db, caller: Address, contract: Address, value: Word, gas: U64, preCost: Option<nat>,
      child: Script): (r: Ran)
    requires MarksOk(db)
    ensures Grown(db, r.db) && (r.clean ==> r.lossless)
    decreases child, 1
  {
    if Precompiled(contract) then Ran(db, Halted, PrecompileLeft(preCost, gas), [], true, true)
    else
      var db1 := TakeSnapshot(db);
      if value != 0 && Acct(db1.world, caller).balance < value then
        RevertUnlessHalted(db, Ran(db1, Failed, 0, [], true, true))
      else
        var db2 := if value == 0 then db1 else Transfer(db1, caller, contract, value);
        if Acct(db2.world, contract).code == [] then Ran(db2, Halted, gas, [], true, true)
        else
          var r := RunScript(db2, Ctx(contract, caller), child);
          GrownTransitive(db1, db2, r.db);
          RevertUnlessHalted(db, r)
  }

  function Bumped(db: Db, from: Address): (r: Db)
    ensures MarksOk(db) ==> Grown(db, r)
  {
    Write(db, SetNonce(from, Wrap64(Acct(db.world, from).nonce + 1)))
  }

  /** The part of EVM.create between the nonce increment and the transfer. */
  function Opened(db: Db, addr: Address): (r: Db)
    ensures MarksOk(db) ==> Grown(db, r)
  {
    Write(Write(db, CreateAccount(addr)), SetNonce(addr, 1))
  }

  /** EVM.create; the new address is the hash the source computes from sender and nonce. */
  ghost function CreateContract(db: Db, from: Address, addr: Address, codeHash: Hash, value: Word, gas: U64,
      child: Script): (r: Ran)
    requires MarksOk(db)
    ensures Grown(db, r.db) && (r.clean ==> r.lossless)
    decreases child, 1
  {
    var db1 := TakeSnapshot(db);
    var clean := Creatable(Bumped(db1, from), addr);
    var db2 := Opened(Bumped(db1, from), addr);
    GrownTransitive(db1, Bumped(db1, from), db2);
    if value != 0 && Acct(db2.world, from).balance < value then
      RevertUnlessHalted(db, Ran(db2, Failed, 0, [], clean, clean))
    else
      var db3 := if value == 0 then db2 else Transfer(db2, from, addr, value);
      var r := RunScript(db3, Ctx(addr, from), child);
      GrownTransitive(db1, db2, db3);
      GrownTransitive(db1, db3, r.db);
      Deployed(db, r.(clean := clean && r.clean), addr, codeHash)
  }

  ghost function Deployed(db: Db, r: Ran, addr: Address, codeHash: Hash): (q: Ran)
    requires MarksOk(db) && Grown(TakeSnapshot(db), r.db)
    ensures Grown(db, q.db) && q.clean == r.clean && q.lossless == (if r.exit.Halted? then r.lossless else r.clean)
  {
    if r.exit.Halted? then r.(db := Write(r.db, SetCode(addr, r.output, codeHash)))
    else
      var q := RevertUnlessHalted(db, r);
      Ran(q.db, r.exit, 0, if r.exit.Reverted? then r.output else [], r.clean, r.clean)
  }

  /** The gas the outermost frame of a script reports. */
  function ExitGas(s: Script): U64 {
    match s
    case End(_, gasLeft, _) => gasLeft
    case Destroy(_, gasLeft) => gasLeft
    case SStore(_, _, _, next) => ExitGas(next)
    case Emit(_, next) => ExitGas(next)
    case Call(_, _, _, _, _, next) => ExitGas(next)
    case Create(_, _, _, _, _, next) => ExitGas(next)
  }

  lemma {:induction false} RunReportsExitGas(db: Db, ctx: Ctx, s: Script)
    requires MarksOk(db)
    ensures RunScript(db, ctx, s).gasLeft <= ExitGas(s)
    decreases s
  {
    hide HandleCall, CreateContract, Write;
    match s
    case End(_, _, _) =>
    case Destroy(_, _) =>
    case SStore(key, value, refund, next) =>
      RunReportsExitGas(Write(Refunded(db, refund), SetStorage(Slot(ctx.contract, key), value)), ctx, next);
    case Emit(l, next) => RunReportsExitGas(Logged(db, l), ctx, next);
    case Call(kind, addr, value, gas, child, next) =>
      RunReportsExitGas(HandleCall(db, ctx, kind, addr, value, gas, child).db, ctx, next);
    case Create(addr, hash, value, gas, child, next) =>
      RunReportsExitGas(CreateContract(db, ctx.contract, addr, hash, value, gas, child).db, ctx, next);
  }

  // ---------- the reference: keep a copy, put it back on failure ----------

  /** `Always` puts the copy back on every failure; `AsCoded` keeps what a STATICCALL that
      reverts has written, as the code does. */
  datatype Rollback = Always | AsCoded

  /** How the outermost frame of a script ends. */
  function ExitOf(s: Script): Exit {
    match s
    case End(exit, _, _) => exit
    case Destroy(_, _) => Halted
    case SStore(_, _, _, next) => ExitOf(next)
    case Emit(_, next) => ExitOf(next)
    case Call(_, _, _, _, _, next) => ExitOf(next)
    case Create(_, _, _, _, _, next) => ExitOf(next)
  }

  /** No STATICCALL in the script has a callee that ends in REVERT. */
  predicate NoStaticRevert(s: Script) {
    match s
    case End(_, _, _) => true
    case Destroy(_, _) => true
    case SStore(_, _, _, next) => NoStaticRevert(next)
    case Emit(_, next) => NoStaticRevert(next)
    case Call(kind, _, _, _, child, next) =>
      !(kind.StaticCall? && ExitOf(child).Reverted?) && NoStaticRevert(child) && NoStaticRevert(next)
    case Create(_, _, _, _, child, next) => NoStaticRevert(child) && NoStaticRevert(next)
  }

  lemma {:induction false} RunEndsAs(db: Db, ctx: Ctx, s: Script)
    requires MarksOk(db)
    ensures RunScript(db, ctx, s).exit == ExitOf(s)
    decreases s
  {
    hide HandleCall, CreateContract, Write;
    match s
    case End(_, _, _) =>
    case Destroy(_, _) =>
    case SStore(key, value, refund, next) =>
      RunEndsAs(Write(Refunded(db, refund), SetStorage(Slot(ctx.contract, key), value)), ctx, next);
    case Emit(l, next) => RunEndsAs(Logged(db, l), ctx, next);
    case Call(kind, addr, value, gas, child, next) =>
      RunEndsAs(HandleCall(db, ctx, kind, addr, value, gas, child).db, ctx, next);
    case Create(addr, hash, value, gas, child, next) =>
      RunEndsAs(CreateContract(db, ctx.contract, addr, hash, value, gas, child).db, ctx, next);
  }

  datatype RefRan = RefRan(ref: Ref, exit: Exit, gasLeft: U64, output: Code)

  function RefTransfer(r: Ref, from: Address, to: Address, v: Word): Ref {
    RefWrite(RefWrite(r, SubBalance(from, v)), AddBalance(to, v))
  }

  function RefDestroyed(r: Ref, contract: Address, ben: Address): Ref {
    var bal := r.acct(contract).balance;
    var r1 := if bal == 0 then r
              else RefWrite(RefWrite(r, AddBalance(ben, bal)), SubBalance(contract, bal));
    if r1.created(contract) then RefWrite(r1, Suicide(contract)) else r1
  }

  function RefBumped(r: Ref, from: Address): Ref {
    RefWrite(r, SetNonce(from, Wrap64(r.acct(from).nonce + 1)))
  }

  function RefOpened(r: Ref, addr: Address): Ref {
    RefWrite(RefWrite(r, CreateAccount(addr)), SetNonce(addr, 1))
  }

  function Restored(copy: Ref, r: RefRan): RefRan {
    if r.exit.Halted? then r else r.(ref := copy)
  }

  function RefScript(mode: Rollback, r: Ref, ctx: Ctx, s: Script): RefRan
    decreases s, 0
  {
    match s
    case End(exit, gasLeft, output) => RefRan(r, exit, if exit.Failed? then 0 else gasLeft, output)
    case Destroy(ben, gasLeft) => RefRan(RefDestroyed(r, ctx.contract, ben), Halted, gasLeft, [])
    case SStore(key, value, _, next) => RefScript(mode, RefWrite(r, SetStorage(Slot(ctx.contract, key), value)), ctx,
        next)
    case Emit(_, next) => RefScript(mode, r, ctx, next)
    case Call(kind, addr, value, gas, child, next) =>
      RefScript(mode, RefCall(mode, r, ctx, kind, addr, value, gas, child).ref, ctx, next)
    case Create(addr, hash, value, gas, child, next) =>
      RefScript(mode, RefCreate(mode, r, ctx.contract, addr, hash, value, gas, child).ref, ctx, next)
  }

  function RefCall(mode: Rollback, r: Ref, ctx: Ctx, kind: CallKind, addr: Address, value: U64, gas: U64,
      child: Script): RefRan
    decreases child, 2
  {
    match kind
    case StaticCall =>
      var r' := RefScript(mode, r, Ctx(addr, ctx.contract), child);
      if r'.exit.Failed? || (mode.Always? && r'.exit.Reverted?) then r'.(ref := r) else r'
    case PlainCall => RefExecCall(mode, r, ctx.contract, addr, value, gas, None, child)
    case CallCode =>
      if r.acct(ctx.contract).balance < value then RefRan(r, Failed, gas, [])
      else if r.acct(addr).code == [] then RefRan(r, Halted, gas, [])
      else Restored(r, RefScript(mode, r, Ctx(ctx.contract, ctx.contract), child))
    case DelegateCall =>
      if r.acct(addr).code == [] then RefRan(r, Halted, gas, [])
      else Restored(r, RefScript(mode, r, ctx, child))
  }

  function RefExecCall(mode: Rollback, r: Ref, caller: Address, contract: Address, value: Word, gas: U64,
      preCost: Option<nat>, child: Script): RefRan
    decreases child, 1
  {
    if Precompiled(contract) then RefRan(r, Halted, PrecompileLeft(preCost, gas), [])
    else if r.acct(caller).balance < value then RefRan(r, Failed, 0, [])
    else
      var r1 := if value == 0 then r else RefTransfer(r, caller, contract, value);
      if r1.acct(contract).code == [] then RefRan(r1, Halted, gas, [])
      else Restored(r, RefScript(mode, r1, Ctx(contract, caller), child))
  }

  function RefCreate(mode: Rollback, r: Ref, from: Address, addr: Address, codeHash: Hash, value: Word, gas: U64,
      child: Script): RefRan
    decreases child, 1
  {
    var r2 := RefOpened(RefBumped(r, from), addr);
    if r2.acct(from).balance < value then RefRan(r, Failed, 0, [])
    else
      var r3 := if value == 0 then r2 else RefTransfer(r2, from, addr, value);
      RefDeployed(r, RefScript(mode, r3, Ctx(addr, from), child), addr, codeHash)
  }

  function RefDeployed(copy: Ref, r: RefRan, addr: Address, codeHash: Hash): RefRan {
    match r.exit
    case Halted => r.(ref := RefWrite(r.ref, SetCode(addr, r.output, codeHash)))
    case Reverted => RefRan(copy, Reverted, 0, r.output)
    case Failed => RefRan(copy, Failed, 0, [])
  }

  // ---------- the refinement ----------

  ghost predicate Matches(r: Ran, q: RefRan, saved: seq<Ref>) {
    Simulates(r.db, q.ref, saved) && r.exit == q.exit && r.gasLeft == q.gasLeft && r.output == q.output
  }

  lemma SimulatesReads(db: Db, cur: Ref, saved: seq<Ref>, a: Address)
    requires Simulates(db, cur, saved)
    ensures Acct(db.world, a) == cur.acct(a) && MarksOk(db) && |saved| == |db.snapshots|
  {
  }

  lemma TransferSimulates(db: Db, cur: Ref, saved: seq<Ref>, from: Address, to: Address, v: Word)
    requires Simulates(db, cur, saved)
    ensures Simulates(Transfer(db, from, to, v), RefTransfer(cur, from, to, v), saved)
  {
    WriteSimulates(db, cur, saved, SubBalance(from, v));
    WriteSimulates(Write(db, SubBalance(from, v)), RefWrite(cur, SubBalance(from, v)), saved, AddBalance(to, v));
  }

  lemma DestroySimulates(db: Db, cur: Ref, saved: seq<Ref>, contract: Address, ben: Address)
    requires Simulates(db, cur, saved)
    ensures Simulates(Destroyed(db, contract, ben), RefDestroyed(cur, contract, ben), saved)
  {
    var bal := Acct(db.world, contract).balance;
    var db1, cur1 := db, cur;
    if bal != 0 {
      WriteSimulates(db, cur, saved, AddBalance(ben, bal));
      db1, cur1 := Write(db, AddBalance(ben, bal)), RefWrite(cur, AddBalance(ben, bal));
      WriteSimulates(db1, cur1, saved, SubBalance(contract, bal));
      db1, cur1 := Write(db1, SubBalance(contract, bal)), RefWrite(cur1, SubBalance(contract, bal));
    }
    if contract in db1.world.created {
      WriteSimulates(db1, cur1, saved, Suicide(contract));
    }
  }

  lemma BumpSimulates(db: Db, cur: Ref, saved: seq<Ref>, from: Address)
    requires Simulates(db, cur, saved)
    ensures Simulates(Bumped(db, from), RefBumped(cur, from), saved)
  {
    SimulatesReads(db, cur, saved, from);
    hide Simulates, Write, RefWrite, Wrap64, Grown;
    var bump := SetNonce(from, Wrap64(Acct(db.world, from).nonce + 1));
    WriteSimulates(db, cur, saved, bump);
    assert Bumped(db, from) == Write(db, bump);
    assert RefBumped(cur, from) == RefWrite(cur, bump);
  }

  lemma OpenSimulates(db: Db, cur: Ref, saved: seq<Ref>, addr: Address)
    requires Simulates(db, cur, saved) && Creatable(db, addr)
    ensures Simulates(Opened(db, addr), RefOpened(cur, addr), saved)
  {
    WriteSimulates(db, cur, saved, CreateAccount(addr));
    WriteSimulates(Write(db, CreateAccount(addr)), RefWrite(cur, CreateAccount(addr)), saved, SetNonce(addr, 1));
  }

  /** A frame entered at `id` that fails gives back the copy taken on entry. */
  lemma FailedFrameRestores(r: Ran, q: RefRan, saved: seq<Ref>, saved': seq<Ref>, copy: Ref)
    requires Simulates(r.db, q.ref, saved') && saved + [copy] <= saved'
    ensures Simulates(Revert(r.db, |saved|), copy, saved)
  {
    RevertSimulates(r.db, q.ref, saved', |saved|);
    assert saved'[..|saved|] == saved && saved'[|saved|] == (saved + [copy])[|saved|];
  }

  /** For every script, every nesting and every pattern of failures, the journalled run and
      the copying run end in the same way with the same reads: with the reference that puts
      the copy back on every failure when no STATICCALL's callee reverts, and with the one
      that follows the code there for all scripts. */
  lemma {:induction false} ScriptRefines(mode: Rollback, db: Db, cur: Ref, saved: seq<Ref>, ctx: Ctx, s: Script)
      returns (saved': seq<Ref>)
    requires Simulates(db, cur, saved) && RunScript(db, ctx, s).clean
    requires mode.Always? ==> NoStaticRevert(s)
    ensures saved <= saved' && Matches(RunScript(db, ctx, s), RefScript(mode, cur, ctx, s), saved')
    decreases s, 0
  {
    saved' := saved;
    match s
    case End(_, _, _) =>
    case Destroy(ben, _) => DestroySimulates(db, cur, saved, ctx.contract, ben);
    case SStore(key, value, refund, next) =>
      var op := SetStorage(Slot(ctx.contract, key), value);
      WriteSimulates(Refunded(db, refund), cur, saved, op);
      saved' := ScriptRefines(mode, Write(Refunded(db, refund), op), RefWrite(cur, op), saved, ctx, next);
    case Emit(l, next) =>
      saved' := ScriptRefines(mode, Logged(db, l), cur, saved, ctx, next);
    case Call(kind, addr, value, gas, child, next) =>
      saved' := CallRefines(mode, db, cur, saved, ctx, kind, addr, value, gas, child);
      var db1 := HandleCall(db, ctx, kind, addr, value, gas, child).db;
      saved' := ScriptRefines(mode, db1, RefCall(mode, cur, ctx, kind, addr, value, gas, child).ref, saved', ctx, next);
    case Create(addr, hash, value, gas, child, next) =>
      saved' := CreateRefines(mode, db, cur, saved, ctx.contract, addr, hash, value, gas, child);
      var db1 := CreateContract(db, ctx.contract, addr, hash, value, gas, child).db;
      saved' := ScriptRefines(mode, db1, RefCreate(mode, cur, ctx.contract, addr, hash, value, gas, child).ref, saved',
          ctx, next);
  }

  /** One frame, entered at snapshot |saved| of `db` and started in `db1`. */
  lemma {:induction false} FrameRefines(mode: Rollback, db: Db, db1: Db, cur: Ref, cur1: Ref, saved: seq<Ref>,
      callee: Ctx, child: Script) returns (saved': seq<Ref>)
    requires MarksOk(db) && |db.snapshots| == |saved| && Grown(TakeSnapshot(db), db1)
    requires Simulates(db1, cur1, saved + [cur]) && RunScript(db1, callee, child).clean
    requires mode.Always? ==> NoStaticRevert(child)
    ensures saved <= saved' && Grown(TakeSnapshot(db), RunScript(db1, callee, child).db)
    ensures Matches(RevertUnlessHalted(db, RunScript(db1, callee, child)),
        Restored(cur, RefScript(mode, cur1, callee, child)), saved')
    ensures !RunScript(db1, callee, child).exit.Failed? ==>
              exists kept :: saved <= kept && Matches(RunScript(db1, callee, child),
                  RefScript(mode, cur1, callee, child), kept)
    decreases child, 1
  {
    hide Simulates, RunScript, RefScript;
    var r, q := RunScript(db1, callee, child), RefScript(mode, cur1, callee, child);
    GrownTransitive(TakeSnapshot(db), db1, r.db);
    saved' := ScriptRefines(mode, db1, cur1, saved + [cur], callee, child);
    assert saved <= saved';
    if !r.exit.Halted? {
      FailedFrameRestores(r, q, saved, saved', cur);
      saved' := saved;
    }
  }

  lemma {:induction false} CallRefines(mode: Rollback, db: Db, cur: Ref, saved: seq<Ref>, ctx: Ctx, kind: CallKind,
      addr: Address, value: U64, gas: U64, child: Script) returns (saved': seq<Ref>)
    requires Simulates(db, cur, saved) && HandleCall(db, ctx, kind, addr, value, gas, child).clean
    requires mode.Always? ==> NoStaticRevert(child) && !(kind.StaticCall? && ExitOf(child).Reverted?)
    ensures saved <= saved'
    ensures Matches(HandleCall(db, ctx, kind, addr, value, gas, child),
        RefCall(mode, cur, ctx, kind, addr, value, gas, child), saved')
    decreases child, 3
  {
    hide Simulates, Write, RefWrite, RunScript, RefScript, RevertUnlessHalted;
    SimulatesReads(db, cur, saved, ctx.contract);
    SimulatesReads(db, cur, saved, addr);
    SnapshotSimulates(db, cur, saved);
    saved' := saved + [cur];
    match kind
    case PlainCall =>
      saved' := ExecCallRefines(mode, db, cur, saved, ctx.contract, addr, value, gas, None, child);
    case StaticCall =>
      var callee := Ctx(addr, ctx.contract);
      RunEndsAs(TakeSnapshot(db), callee, child);
      saved' := FrameRefines(mode, db, TakeSnapshot(db), cur, cur, saved, callee, child);
      if !RunScript(TakeSnapshot(db), callee, child).exit.Failed? {
        saved' :| saved <= saved' && Matches(RunScript(TakeSnapshot(db), callee, child),
            RefScript(mode, cur, callee, child), saved');
      }
    case CallCode =>
      if Acct(db.world, ctx.contract).balance >= value && Acct(db.world, addr).code != [] {
        saved' := FrameRefines(mode, db, TakeSnapshot(db), cur, cur, saved, Ctx(ctx.contract, ctx.contract), child);
      }
    case DelegateCall =>
      if Acct(db.world, addr).code != [] {
        saved' := FrameRefines(mode, db, TakeSnapshot(db), cur, cur, saved, ctx, child);
      }
  }

  lemma {:induction false} ExecCallRefines(mode: Rollback, db: Db, cur: Ref, saved: seq<Ref>, caller: Address,
      contract: Address, value: Word, gas: U64, preCost: Option<nat>, child: Script) returns (saved': seq<Ref>)
    requires Simulates(db, cur, saved) && ExecCall(db, caller, contract, value, gas, preCost, child).clean
    requires mode.Always? ==> NoStaticRevert(child)
    ensures saved <= saved'
    ensures Matches(ExecCall(db, caller, contract, value, gas, preCost, child),
        RefExecCall(mode, cur, caller, contract, value, gas, preCost, child), saved')
    decreases child, 2
  {
    hide Simulates, Write, RefWrite, RunScript, RefScript;
    saved' := saved;
    SimulatesReads(db, cur, saved, caller);
    if !Precompiled(contract) {
      var db1, cur1 := TakeSnapshot(db), cur;
      SnapshotSimulates(db, cur, saved);
      if value != 0 && Acct(db1.world, caller).balance < value {
        FailedFrameRestores(Ran(db1, Failed, 0, [], true, true), RefRan(cur, Failed, 0, []), saved, saved + [cur], cur);
      } else {
        if value != 0 {
          TransferSimulates(db1, cur, saved + [cur], caller, contract, value);
          db1, cur1 := Transfer(db1, caller, contract, value), RefTransfer(cur, caller, contract, value);
        }
        saved' := saved + [cur];
        SimulatesReads(db1, cur1, saved', contract);
        if Acct(db1.world, contract).code != [] {
          saved' := FrameRefines(mode, db, db1, cur, cur1, saved, Ctx(contract, caller), child);
        }
      }
    }
  }

  lemma {:induction false} CreateRefines(mode: Rollback, db: Db, cur: Ref, saved: seq<Ref>, from: Address,
      addr: Address, codeHash: Hash, value: Word, gas: U64, child: Script) returns (saved': seq<Ref>)
    requires Simulates(db, cur, saved) && CreateContract(db, from, addr, codeHash, value, gas, child).clean
    requires mode.Always? ==> NoStaticRevert(child)
    ensures saved <= saved'
    ensures Matches(CreateContract(db, from, addr, codeHash, value, gas, child),
        RefCreate(mode, cur, from, addr, codeHash, value, gas, child), saved')
    decreases child, 1
  {
    hide Simulates, Creatable, Write, RefWrite, Revert, RunScript, RefScript;
    SimulatesReads(db, cur, saved, from);
    SnapshotSimulates(db, cur, saved);
    saved' := saved + [cur];
    BumpSimulates(TakeSnapshot(db), cur, saved', from);
    OpenSimulates(Bumped(TakeSnapshot(db), from), RefBumped(cur, from), saved', addr);
    var db2 := Opened(Bumped(TakeSnapshot(db), from), addr);
    var cur2 := RefOpened(RefBumped(cur, from), addr);
    SimulatesReads(db2, cur2, saved', from);
    GrownTransitive(TakeSnapshot(db), Bumped(TakeSnapshot(db), from), db2);
    if value != 0 && Acct(db2.world, from).balance < value {
      FailedFrameRestores(Ran(db2, Failed, 0, [], true, true), RefRan(cur2, Failed, 0, []), saved, saved', cur);
      saved' := saved;
    } else {
      if value != 0 {
        TransferSimulates(db2, cur2, saved', from, addr, value);
        db2, cur2 := Transfer(db2, from, addr, value), RefTransfer(cur2, from, addr, value);
      }
      GrownTransitive(TakeSnapshot(db), Opened(Bumped(TakeSnapshot(db), from), addr), db2);
      saved' := ScriptRefines(mode, db2, cur2, saved', Ctx(addr, from), child);
      var r, q := RunScript(db2, Ctx(addr, from), child), RefScript(mode, cur2, Ctx(addr, from), child);
      GrownTransitive(TakeSnapshot(db), db2, r.db);
      saved' := DeployRefines(db, r, q, saved, saved', cur, addr, codeHash);
    }
  }

  lemma DeployRefines(db: Db, r: Ran, q: RefRan, saved: seq<Ref>, inner: seq<Ref>, copy: Ref, addr: Address,
      codeHash: Hash) returns (saved': seq<Ref>)
    requires MarksOk(db) && Grown(TakeSnapshot(db), r.db) && |db.snapshots| == |saved|
    requires Matches(r, q, inner) && saved + [copy] <= inner
    ensures saved <= saved' && Matches(Deployed(db, r, addr, codeHash), RefDeployed(copy, q, addr, codeHash), saved')
  {
    if r.exit.Halted? {
      saved' := inner;
      WriteSimulates(r.db, q.ref, inner, SetCode(addr, r.output, codeHash));
    } else {
      saved' := saved;
      FailedFrameRestores(r, q, saved, inner, copy);
    }
  }

  // ---------- what a failure restores ----------

  lemma RefCallRestores(r: Ref, ctx: Ctx, kind: CallKind, addr: Address, value: U64, gas: U64, child: Script)
    ensures var q := RefCall(AsCoded, r, ctx, kind, addr, value, gas, child);
            q.exit.Failed? || (q.exit.Reverted? && !kind.StaticCall?) ==> q.ref == r
  {
    hide RefScript;
  }

  lemma RefExecCallRestores(r: Ref, caller: Address, contract: Address, value: Word, gas: U64, preCost: Option<nat>,
      child: Script)
    ensures var q := RefExecCall(AsCoded, r, caller, contract, value, gas, preCost, child);
            !q.exit.Halted? ==> q.ref == r
  {
    hide RefScript;
  }

  lemma RefCreateRestores(r: Ref, from: Address, addr: Address, codeHash: Hash, value: Word, gas: U64, child: Script)
    ensures var q := RefCreate(AsCoded, r, from, addr, codeHash, value, gas, child);
            !q.exit.Halted? ==> q.ref == r
  {
    hide RefScript;
  }

  /** A call of any kind that fails, and one of any kind but STATICCALL that reverts, gives
      back every read its caller had before it. */
  lemma FailedCallRestores(db: Db, ctx: Ctx, kind: CallKind, addr: Address, value: U64, gas: U64, child: Script)
    requires MarksOk(db) && WellFormed(db.world, db.journal)
    requires var r := HandleCall(db, ctx, kind, addr, value, gas, child);
             r.clean && (r.exit.Failed? || (r.exit.Reverted? && !kind.StaticCall?))
    ensures SameReads(HandleCall(db, ctx, kind, addr, value, gas, child).db.world, db.world)
  {
    hide HandleCall, RefCall, WellFormed;
    WellFormedSimulates(db);
    var cur, saved := RefOf(db.world), CopiesOf(db);
    var saved' := CallRefines(AsCoded, db, cur, saved, ctx, kind, addr, value, gas, child);
    RefCallRestores(cur, ctx, kind, addr, value, gas, child);
    SameReferenceSameReads(db.world, HandleCall(db, ctx, kind, addr, value, gas, child).db.world, cur);
  }

  /** A creation that does not halt gives back every read, the sender's nonce included. */
  lemma FailedCreateRestores(db: Db, from: Address, addr: Address, codeHash: Hash, value: Word, gas: U64, child: Script)
    requires MarksOk(db) && WellFormed(db.world, db.journal)
    requires var r := CreateContract(db, from, addr, codeHash, value, gas, child); r.clean && !r.exit.Halted?
    ensures SameReads(CreateContract(db, from, addr, codeHash, value, gas, child).db.world, db.world)
  {
    hide CreateContract, RefCreate, WellFormed;
    WellFormedSimulates(db);
    var cur, saved := RefOf(db.world), CopiesOf(db);
    var saved' := CreateRefines(AsCoded, db, cur, saved, from, addr, codeHash, value, gas, child);
    RefCreateRestores(cur, from, addr, codeHash, value, gas, child);
    SameReferenceSameReads(db.world, CreateContract(db, from, addr, codeHash, value, gas, child).db.world, cur);
  }

  /** Every clean call of this kind that does not halt leaves the reads its caller had. */
  ghost predicate RestoresOnFailure(kind: CallKind) {
    forall db: Db, ctx: Ctx, addr: Address, value: U64, gas: U64, child: Script ::
      MarksOk(db) && WellFormed(db.world, db.journal) && HandleCall(db, ctx, kind, addr, value, gas, child).clean
      && !HandleCall(db, ctx, kind, addr, value, gas, child).exit.Halted?
      ==> SameReads(HandleCall(db, ctx, kind, addr, value, gas, child).db.world, db.world)
  }

  /** Accounts 30 and 21; only the first has code. */
  const ONE_CONTRACT := Write(NEW_DB, SetCode(30, [0], 0))

  /** A static frame at 21 calls contract 30, which stores 7 in its slot 1, and reverts. */
  function WritesThenReverts(gas: U64): Script {
    Call(PlainCall, 30, 0, gas, SStore(1, 7, 0, End(Halted, 0, [])), End(Reverted, 0, []))
  }

  /** A STATICCALL that reverts does not take back what was written below it. */
  lemma StaticRevertKeepsWrites(ctx: Ctx, gas: U64)
    ensures MarksOk(ONE_CONTRACT) && WellFormed(ONE_CONTRACT.world, ONE_CONTRACT.journal)
    ensures var r := HandleCall(ONE_CONTRACT, ctx, StaticCall, 21, 0, gas, WritesThenReverts(gas));
            && r.exit.Reverted? && r.clean
            && Load(ONE_CONTRACT.world.storage, Slot(30, 1)) == 0
            && Load(r.db.world.storage, Slot(30, 1)) == 7
  {
    var db1 := TakeSnapshot(ONE_CONTRACT);
    assert Acct(db1.world, 30).code == [0];
    StoringCall(db1, gas);
    hide ExecCall, Write, ONE_CONTRACT;
    var db2 := Write(Refunded(TakeSnapshot(db1), 0), SetStorage(Slot(30, 1), 7));
    assert RunScript(db1, Ctx(21, ctx.contract), WritesThenReverts(gas)) == Ran(db2, Reverted, 0, [], true, true);
  }

  lemma StoringCall(db: Db, gas: U64)
    requires MarksOk(db) && Acct(db.world, 30).code == [0]
    ensures var r := ExecCall(db, 21, 30, 0, gas, None, SStore(1, 7, 0, End(Halted, 0, [])));
            && r == Ran(Write(Refunded(TakeSnapshot(db), 0), SetStorage(Slot(30, 1), 7)), Halted, 0, [], true, true)
            && Load(r.db.world.storage, Slot(30, 1)) == 7
  {
    var inner := SStore(1, 7, 0, End(Halted, 0, []));
    var db1 := TakeSnapshot(db);
    var db2 := Write(Refunded(db1, 0), SetStorage(Slot(30, 1), 7));
    assert RunScript(db1, Ctx(30, 21), inner) == Ran(db2, Halted, 0, [], true, true);
  }

  /** The kinds of call that undo everything when they do not halt are those other than STATICCALL. */
  lemma RestoresIffNotStatic(kind: CallKind)
    ensures RestoresOnFailure(kind) <==> !kind.StaticCall?
  {
    hide HandleCall;
    if kind.StaticCall? {
      StaticRevertKeepsWrites(Ctx(0, 0), 0);
    } else {
      forall db: Db, ctx: Ctx, addr: Address, value: U64, gas: U64, child: Script |
        MarksOk(db) && WellFormed(db.world, db.journal) && HandleCall(db, ctx, kind, addr, value, gas, child).clean
        && !HandleCall(db, ctx, kind, addr, value, gas, child).exit.Halted?
        ensures SameReads(HandleCall(db, ctx, kind, addr, value, gas, child).db.world, db.world)
      {
        FailedCallRestores(db, ctx, kind, addr, value, gas, child);
      }
    }
  }

  /** A call to an account without code changes a read exactly when it is a CALL with funded
      value to another account that is not a precompile; a static caller makes no difference. */
  lemma CodelessCallChangesIff(db: Db, ctx: Ctx, kind: CallKind, addr: Address, value: U64, gas: U64, child: Script)
    requires MarksOk(db) && Acct(db.world, addr).code == [] && (kind.StaticCall? ==> child.End?)
    ensures !SameReads(HandleCall(db, ctx, kind, addr, value, gas, child).db.world, db.world)
            <==> kind.PlainCall? && !Precompiled(addr) && addr != ctx.contract
                 && 0 < value <= Acct(db.world, ctx.contract).balance
  {
    var from := ctx.contract;
    if kind.PlainCall? && !Precompiled(addr) && 0 < value <= Acct(db.world, from).balance {
      TransferChangesIff(TakeSnapshot(db), from, addr, value);
    } else {
      EmptyFrameUndone(db);
    }
  }

  lemma TransferChangesIff(db: Db, from: Address, to: Address, v: U64)
    requires 0 < v <= Acct(db.world, from).balance
    ensures SameReads(Transfer(db, from, to, v).world, db.world) <==> from == to
    ensures Acct(Transfer(db, from, to, v).world, to).code == Acct(db.world, to).code
  {
    var w := Transfer(db, from, to, v).world;
    if from == to {
      assert Acct(w, from) == Acct(db.world, from);
    } else {
      assert Acct(w, from).balance == Acct(db.world, from).balance - v;
    }
  }

  lemma EmptyFrameUndone(db: Db)
    requires MarksOk(db)
    ensures Revert(TakeSnapshot(db), |db.snapshots|).world == db.world
  {
    assert db.journal[|db.journal|..] == [];
  }
}
