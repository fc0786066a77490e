/** A run neither sees nor touches the journal and the marks that were there before it. From
    this the refinement of copies follows under a weaker condition than in `Evm`: a creation
    may meet an account that is not blank, as long as it is not undone. */
module Locality {
  import opened Types
  import opened State
  import opened Journal
  import opened Evm

  // ---------- a database with more history ----------

  ghost predicate Past(pj: seq<Entry>, ps: seq<nat>) {
    && (forall k :: 0 <= k < |ps| ==> ps[k] <= |pj|)
    && (forall j, k :: 0 <= j < k < |ps| ==> ps[j] <= ps[k])
  }

  function Shifted(ps: seq<nat>, n: nat): seq<nat> {
    seq(|ps|, i requires 0 <= i < |ps| => ps[i] + n)
  }

  /** `d` with older journal entries and older marks. */
  function Extended(d: Db, pj: seq<Entry>, ps: seq<nat>): Db {
    d.(journal := pj + d.journal, snapshots := ps + Shifted(d.snapshots, |pj|))
  }

  lemma ExtendedMarks(d: Db, pj: seq<Entry>, ps: seq<nat>)
    requires MarksOk(d) && Past(pj, ps)
    ensures MarksOk(Extended(d, pj, ps)) && |Extended(d, pj, ps).snapshots| == |ps| + |d.snapshots|
    ensures Extended(d, pj, ps).world == d.world
  {
  }

  lemma WriteExtended(d: Db, pj: seq<Entry>, ps: seq<nat>, op: Op)
    ensures Write(Extended(d, pj, ps), op) == Extended(Write(d, op), pj, ps)
  {
    assert pj + (d.journal + [EntryFor(d.world, op)]) == pj + d.journal + [EntryFor(d.world, op)];
  }

  lemma SnapExtended(d: Db, pj: seq<Entry>, ps: seq<nat>)
    ensures TakeSnapshot(Extended(d, pj, ps)) == Extended(TakeSnapshot(d), pj, ps)
  {
    assert Shifted(d.snapshots + [|d.journal|], |pj|) == Shifted(d.snapshots, |pj|) + [|pj + d.journal|];
  }

  lemma RevertExtended(d: Db, pj: seq<Entry>, ps: seq<nat>, id: nat)
    requires MarksOk(d) && Past(pj, ps)
    ensures MarksOk(Extended(d, pj, ps))
    ensures Revert(Extended(d, pj, ps), |ps| + id) == Extended(Revert(d, id), pj, ps)
  {
    ExtendedMarks(d, pj, ps);
    if id < |d.snapshots| {
      var e, mark := Extended(d, pj, ps), d.snapshots[id];
      assert e.snapshots[|ps| + id] == mark + |pj|;
      assert e.journal[mark + |pj|..] == d.journal[mark..];
      assert e.journal[..mark + |pj|] == pj + d.journal[..mark];
      assert e.snapshots[..|ps| + id] == ps + Shifted(d.snapshots[..id], |pj|);
    }
  }

  // ---------- runs do not look back ----------

  /** The same outcome but for the history; what loses nothing with it loses nothing without. */
  ghost predicate SameOutcome(r: Ran, r0: Ran, pj: seq<Entry>, ps: seq<nat>) {
    && r.db == Extended(r0.db, pj, ps) && r.exit == r0.exit && r.gasLeft == r0.gasLeft && r.output == r0.output
    && (r.clean ==> r0.clean) && (r.lossless ==> r0.lossless)
  }

  lemma TransferExtended(d: Db, pj: seq<Entry>, ps: seq<nat>, from: Address, to: Address, v: Word)
    ensures Transfer(Extended(d, pj, ps), from, to, v) == Extended(Transfer(d, from, to, v), pj, ps)
  {
    hide Write, Extended;
    WriteExtended(d, pj, ps, SubBalance(from, v));
    WriteExtended(Write(d, SubBalance(from, v)), pj, ps, AddBalance(to, v));
  }

  lemma DestroyExtended(d: Db, pj: seq<Entry>, ps: seq<nat>, contract: Address, ben: Address)
    ensures Destroyed(Extended(d, pj, ps), contract, ben) == Extended(Destroyed(d, contract, ben), pj, ps)
  {
    hide Write;
    var bal := Acct(d.world, contract).balance;
    var d1 := d;
    if bal != 0 {
      WriteExtended(d, pj, ps, AddBalance(ben, bal));
      WriteExtended(Write(d, AddBalance(ben, bal)), pj, ps, SubBalance(contract, bal));
      d1 := Write(Write(d, AddBalance(ben, bal)), SubBalance(contract, bal));
    }
    WriteExtended(d1, pj, ps, Suicide(contract));
  }

  lemma OpenExtended(d: Db, pj: seq<Entry>, ps: seq<nat>, from: Address, addr: Address)
    ensures Bumped(Extended(d, pj, ps), from) == Extended(Bumped(d, from), pj, ps)
    ensures Opened(Extended(d, pj, ps), addr) == Extended(Opened(d, addr), pj, ps)
    ensures Creatable(Extended(d, pj, ps), addr) ==> Creatable(d, addr)
  {
    hide Write;
    WriteExtended(d, pj, ps, SetNonce(from, Wrap64(Acct(d.world, from).nonce + 1)));
    WriteExtended(d, pj, ps, CreateAccount(addr));
    WriteExtended(Write(d, CreateAccount(addr)), pj, ps, SetNonce(addr, 1));
    var e := Extended(d, pj, ps);
    if Creatable(e, addr) {
      forall i | 0 <= i < |d.journal| ensures !Touches(d.journal[i], addr) {
        assert e.journal[|pj| + i] == d.journal[i];
      }
    }
  }

  lemma {:induction false} ScriptExtended(d: Db, pj: seq<Entry>, ps: seq<nat>, ctx: Ctx, s: Script)
    requires MarksOk(d) && Past(pj, ps)
    ensures MarksOk(Extended(d, pj, ps))
    ensures SameOutcome(RunScript(Extended(d, pj, ps), ctx, s), RunScript(d, ctx, s), pj, ps)
    decreases s, 0
  {
    hide Write, MarksOk, Destroyed, HandleCall, CreateContract;
    ExtendedMarks(d, pj, ps);
    match s
    case End(_, _, _) =>
    case Destroy(ben, _) => DestroyExtended(d, pj, ps, ctx.contract, ben);
    case SStore(key, value, refund, next) =>
      var op := SetStorage(Slot(ctx.contract, key), value);
      RefundedMarks(d, refund);
      WriteExtended(Refunded(d, refund), pj, ps, op);
      ScriptExtended(Write(Refunded(d, refund), op), pj, ps, ctx, next);
    case Emit(l, next) =>
      LoggedMarks(d, l);
      ScriptExtended(Logged(d, l), pj, ps, ctx, next);
    case Call(kind, addr, value, gas, child, next) =>
      CallExtended(d, pj, ps, ctx, kind, addr, value, gas, child);
      ScriptExtended(HandleCall(d, ctx, kind, addr, value, gas, child).db, pj, ps, ctx, next);
    case Create(addr, hash, value, gas, child, next) =>
      CreateExtended(d, pj, ps, ctx.contract, addr, hash, value, gas, child);
      ScriptExtended(CreateContract(d, ctx.contract, addr, hash, value, gas, child).db, pj, ps, ctx, next);
  }

  lemma RefundedMarks(d: Db, gas: U64)
    requires MarksOk(d)
    ensures MarksOk(Refunded(d, gas))
  {
  }

  lemma LoggedMarks(d: Db, l: Log)
    requires MarksOk(d)
    ensures MarksOk(Logged(d, l))
  {
  }

  /** A frame entered from `d` in the state `d1`, and the same frame with more history. */
  lemma {:induction false} FrameExtended(d: Db, d1: Db, pj: seq<Entry>, ps: seq<nat>, callee: Ctx, child: Script)
    requires MarksOk(d) && Past(pj, ps) && Grown(TakeSnapshot(d), d1)
    ensures var e, e1 := Extended(d, pj, ps), Extended(d1, pj, ps);
            && MarksOk(e) && Grown(TakeSnapshot(e), e1)
            && Grown(TakeSnapshot(d), RunScript(d1, callee, child).db)
            && Grown(TakeSnapshot(e), RunScript(e1, callee, child).db)
            && SameOutcome(RunScript(e1, callee, child), RunScript(d1, callee, child), pj, ps)
            && SameOutcome(RevertUnlessHalted(e, RunScript(e1, callee, child)),
                RevertUnlessHalted(d, RunScript(d1, callee, child)), pj, ps)
    decreases child, 1
  {
    hide RunScript;
    GrownExtended(d, d1, pj, ps);
    ScriptExtended(d1, pj, ps, callee, child);
    var r, r0 := RunScript(Extended(d1, pj, ps), callee, child), RunScript(d1, callee, child);
    GrownTransitive(TakeSnapshot(d), d1, r0.db);
    EndExtended(d, r0, r, pj, ps);
  }

  /** The end of a frame entered from `d`. */
  lemma EndExtended(d: Db, r0: Ran, r: Ran, pj: seq<Entry>, ps: seq<nat>)
    requires MarksOk(d) && Past(pj, ps) && Grown(TakeSnapshot(d), r0.db) && SameOutcome(r, r0, pj, ps)
    ensures var e := Extended(d, pj, ps);
            && MarksOk(e) && Grown(TakeSnapshot(e), r.db)
            && SameOutcome(RevertUnlessHalted(e, r), RevertUnlessHalted(d, r0), pj, ps)
  {
    GrownExtended(d, r0.db, pj, ps);
    RevertExtended(r0.db, pj, ps, |d.snapshots|);
    hide Revert, Extended, Grown, MarksOk;
  }

  lemma GrownExtended(d: Db, d1: Db, pj: seq<Entry>, ps: seq<nat>)
    requires MarksOk(d) && Past(pj, ps) && Grown(TakeSnapshot(d), d1)
    ensures MarksOk(Extended(d, pj, ps)) && Grown(TakeSnapshot(Extended(d, pj, ps)), Extended(d1, pj, ps))
    ensures |Extended(d, pj, ps).snapshots| == |ps| + |d.snapshots|
  {
    ExtendedMarks(d, pj, ps);
    ExtendedMarks(d1, pj, ps);
    SnapExtended(d, pj, ps);
    var s, s1 := TakeSnapshot(d).snapshots, d1.snapshots;
    assert s <= s1 ==> Shifted(s, |pj|) <= Shifted(s1, |pj|);
  }

  lemma {:induction false} CallExtended(d: Db, pj: seq<Entry>, ps: seq<nat>, ctx: Ctx, kind: CallKind, addr: Address,
      value: U64, gas: U64, child: Script)
    requires MarksOk(d) && Past(pj, ps)
    ensures MarksOk(Extended(d, pj, ps))
    ensures SameOutcome(HandleCall(Extended(d, pj, ps), ctx, kind, addr, value, gas, child),
        HandleCall(d, ctx, kind, addr, value, gas, child), pj, ps)
    decreases child, 3
  {
    hide RunScript, ExecCall, RevertUnlessHalted, Revert;
    ExtendedMarks(d, pj, ps);
    SnapExtended(d, pj, ps);
    match kind
    case PlainCall => ExecCallExtended(d, pj, ps, ctx.contract, addr, value, gas, None, child);
    case StaticCall => FrameExtended(d, TakeSnapshot(d), pj, ps, Ctx(addr, ctx.contract), child);
    case CallCode => FrameExtended(d, TakeSnapshot(d), pj, ps, Ctx(ctx.contract, ctx.contract), child);
    case DelegateCall => FrameExtended(d, TakeSnapshot(d), pj, ps, ctx, child);
  }

  lemma {:induction false} ExecCallExtended(d: Db, pj: seq<Entry>, ps: seq<nat>, caller: Address, contract: Address,
      value: Word, gas: U64, preCost: Option<nat>, child: Script)
    requires MarksOk(d) && Past(pj, ps)
    ensures MarksOk(Extended(d, pj, ps))
    ensures SameOutcome(ExecCall(Extended(d, pj, ps), caller, contract, value, gas, preCost, child),
        ExecCall(d, caller, contract, value, gas, preCost, child), pj, ps)
    decreases child, 2
  {
    hide RunScript, RevertUnlessHalted, Revert, Transfer;
    ExtendedMarks(d, pj, ps);
    SnapExtended(d, pj, ps);
    var d1 := TakeSnapshot(d);
    if !Precompiled(contract) {
      if value != 0 && Acct(d.world, caller).balance < value {
        EndExtended(d, Ran(d1, Failed, 0, [], true, true), Ran(Extended(d1, pj, ps), Failed, 0, [], true, true), pj,
            ps);
      } else {
        TransferExtended(d1, pj, ps, caller, contract, value);
        var d2 := if value == 0 then d1 else Transfer(d1, caller, contract, value);
        FrameExtended(d, d2, pj, ps, Ctx(contract, caller), child);
      }
    }
  }

  lemma {:induction false} CreateExtended(d: Db, pj: seq<Entry>, ps: seq<nat>, from: Address, addr: Address,
      codeHash: Hash, value: Word, gas: U64, child: Script)
    requires MarksOk(d) && Past(pj, ps)
    ensures MarksOk(Extended(d, pj, ps))
    ensures SameOutcome(CreateContract(Extended(d, pj, ps), from, addr, codeHash, value, gas, child),
        CreateContract(d, from, addr, codeHash, value, gas, child), pj, ps)
    decreases child, 2
  {
    hide RunScript, RevertUnlessHalted, Revert, Transfer, Opened, Bumped, Creatable, Deployed;
    ExtendedMarks(d, pj, ps);
    SnapExtended(d, pj, ps);
    var d1 := TakeSnapshot(d);
    OpenExtended(d1, pj, ps, from, addr);
    OpenExtended(Bumped(d1, from), pj, ps, from, addr);
    var d2 := Opened(Bumped(d1, from), addr);
    var e2 := Extended(d2, pj, ps);
    var clean0, clean := Creatable(Bumped(d1, from), addr), Creatable(Extended(Bumped(d1, from), pj, ps), addr);
    GrownTransitive(d1, Bumped(d1, from), d2);
    if value != 0 && Acct(d2.world, from).balance < value {
      EndExtended(d, Ran(d2, Failed, 0, [], clean0, clean0), Ran(e2, Failed, 0, [], clean, clean), pj, ps);
    } else {
      TransferExtended(d2, pj, ps, from, addr, value);
      var d3 := if value == 0 then d2 else Transfer(d2, from, addr, value);
      GrownTransitive(d1, d2, d3);
      FrameExtended(d, d3, pj, ps, Ctx(addr, from), child);
      var r0, r := RunScript(d3, Ctx(addr, from), child), RunScript(Extended(d3, pj, ps), Ctx(addr, from), child);
      DeployExtended(d, r0.(clean := clean0 && r0.clean), r.(clean := clean && r.clean), pj, ps, addr, codeHash);
    }
  }

  lemma DeployExtended(d: Db, r0: Ran, r: Ran, pj: seq<Entry>, ps: seq<nat>, addr: Address, codeHash: Hash)
    requires MarksOk(d) && Past(pj, ps) && Grown(TakeSnapshot(d), r0.db) && SameOutcome(r, r0, pj, ps)
    ensures MarksOk(Extended(d, pj, ps)) && Grown(TakeSnapshot(Extended(d, pj, ps)), r.db)
    ensures SameOutcome(Deployed(Extended(d, pj, ps), r, addr, codeHash), Deployed(d, r0, addr, codeHash), pj, ps)
  {
    EndExtended(d, r0, r, pj, ps);
    WriteExtended(r0.db, pj, ps, SetCode(addr, r.output, codeHash));
  }

  // ---------- without history ----------

  function Forgotten(db: Db): Db {
    db.(journal := [], snapshots := [])
  }

  lemma HistoryIsForgotten(db: Db)
    requires MarksOk(db)
    ensures Past(db.journal, db.snapshots) && MarksOk(Forgotten(db))
    ensures db == Extended(Forgotten(db), db.journal, db.snapshots)
  {
  }

  /** Every account marked as created has a record; all that is asked of a database here. */
  predicate Recorded(w: World) {
    w.created <= w.accounts.Keys
  }

  ghost predicate Stands(db: Db, cur: Ref) {
    MarksOk(db) && Recorded(db.world) && Agrees(db.world, cur)
  }

  ghost predicate Alike(r: Ran, q: RefRan) {
    Stands(r.db, q.ref) && r.exit == q.exit && r.gasLeft == q.gasLeft && r.output == q.output
  }

  lemma ForgottenSimulates(db: Db, cur: Ref)
    requires Stands(db, cur)
    ensures MarksOk(db) && Simulates(Forgotten(db), cur, [])
  {
  }

  lemma SimulatedStands(d: Db, cur: Ref, saved: seq<Ref>, pj: seq<Entry>, ps: seq<nat>)
    requires Simulates(d, cur, saved) && MarksOk(Extended(d, pj, ps))
    ensures Stands(Extended(d, pj, ps), cur)
  {
  }

  lemma StandsReads(db: Db, cur: Ref, a: Address)
    requires Stands(db, cur)
    ensures MarksOk(db) && Acct(db.world, a) == cur.acct(a)
  {
  }

  lemma StandsAgrees(db: Db, cur: Ref)
    requires Stands(db, cur)
    ensures MarksOk(db) && Agrees(db.world, cur)
  {
  }

  lemma WriteStands(db: Db, cur: Ref, op: Op)
    requires Stands(db, cur)
    ensures Stands(Write(db, op), RefWrite(cur, op))
  {
    hide RefWrite, EntryFor;
    ApplyAgrees(db.world, cur, op);
  }

  lemma SnapStands(db: Db, cur: Ref)
    requires Stands(db, cur)
    ensures Stands(TakeSnapshot(db), cur)
  {
  }

  lemma RefundLogStands(db: Db, cur: Ref, gas: U64, l: Log)
    requires Stands(db, cur)
    ensures Stands(Refunded(db, gas), cur) && Stands(Logged(db, l), cur)
  {
  }

  lemma TransferStands(db: Db, cur: Ref, from: Address, to: Address, v: Word)
    requires Stands(db, cur)
    ensures Stands(Transfer(db, from, to, v), RefTransfer(cur, from, to, v))
  {
    hide Stands, Write, RefWrite;
    WriteStands(db, cur, SubBalance(from, v));
    WriteStands(Write(db, SubBalance(from, v)), RefWrite(cur, SubBalance(from, v)), AddBalance(to, v));
  }

  lemma DestroyStands(db: Db, cur: Ref, contract: Address, ben: Address)
    requires Stands(db, cur)
    ensures Stands(Destroyed(db, contract, ben), RefDestroyed(cur, contract, ben))
  {
    hide Write, RefWrite;
    StandsReads(db, cur, contract);
    var bal := Acct(db.world, contract).balance;
    var db1, cur1 := db, cur;
    if bal != 0 {
      WriteStands(db, cur, AddBalance(ben, bal));
      db1, cur1 := Write(db, AddBalance(ben, bal)), RefWrite(cur, AddBalance(ben, bal));
      WriteStands(db1, cur1, SubBalance(contract, bal));
      db1, cur1 := Write(db1, SubBalance(contract, bal)), RefWrite(cur1, SubBalance(contract, bal));
    }
    assert contract in db1.world.created <==> cur1.created(contract);
    WriteStands(db1, cur1, Suicide(contract));
  }

  lemma OpenStands(db: Db, cur: Ref, from: Address, addr: Address)
    requires Stands(db, cur)
    ensures Stands(Opened(Bumped(db, from), addr), RefOpened(RefBumped(cur, from), addr))
  {
    hide Stands, Write, RefWrite, Wrap64;
    StandsReads(db, cur, from);
    var bump := SetNonce(from, Wrap64(Acct(db.world, from).nonce + 1));
    WriteStands(db, cur, bump);
    var db1, cur1 := Write(db, bump), RefWrite(cur, bump);
    WriteStands(db1, cur1, CreateAccount(addr));
    WriteStands(Write(db1, CreateAccount(addr)), RefWrite(cur1, CreateAccount(addr)), SetNonce(addr, 1));
  }

  // ---------- calls that lose nothing at all ----------

  lemma CleanCall(mode: Rollback, db: Db, cur: Ref, ctx: Ctx, kind: CallKind, addr: Address, value: U64, gas: U64,
      child: Script)
    requires Stands(db, cur) && HandleCall(db, ctx, kind, addr, value, gas, child).clean
    requires mode.Always? ==> NoStaticRevert(child) && !(kind.StaticCall? && ExitOf(child).Reverted?)
    ensures Alike(HandleCall(db, ctx, kind, addr, value, gas, child),
        RefCall(mode, cur, ctx, kind, addr, value, gas, child))
  {
    hide Stands, Simulates, HandleCall, RefCall, Extended, Forgotten, Past;
    ForgottenSimulates(db, cur);
    HistoryIsForgotten(db);
    CallExtended(Forgotten(db), db.journal, db.snapshots, ctx, kind, addr, value, gas, child);
    var saved := CallRefines(mode, Forgotten(db), cur, [], ctx, kind, addr, value, gas, child);
    SimulatedStands(HandleCall(Forgotten(db), ctx, kind, addr, value, gas, child).db,
        RefCall(mode, cur, ctx, kind, addr, value, gas, child).ref, saved, db.journal, db.snapshots);
  }

  lemma CleanExecCall(mode: Rollback, db: Db, cur: Ref, caller: Address, contract: Address, value: Word, gas: U64,
      preCost: Option<nat>, child: Script)
    requires Stands(db, cur) && ExecCall(db, caller, contract, value, gas, preCost, child).clean
    requires mode.Always? ==> NoStaticRevert(child)
    ensures Alike(ExecCall(db, caller, contract, value, gas, preCost, child),
        RefExecCall(mode, cur, caller, contract, value, gas, preCost, child))
  {
    hide Stands, Simulates, ExecCall, RefExecCall, Extended, Forgotten, Past;
    ForgottenSimulates(db, cur);
    HistoryIsForgotten(db);
    ExecCallExtended(Forgotten(db), db.journal, db.snapshots, caller, contract, value, gas, preCost, child);
    var saved := ExecCallRefines(mode, Forgotten(db), cur, [], caller, contract, value, gas, preCost, child);
    SimulatedStands(ExecCall(Forgotten(db), caller, contract, value, gas, preCost, child).db,
        RefExecCall(mode, cur, caller, contract, value, gas, preCost, child).ref, saved, db.journal, db.snapshots);
  }

  lemma CleanCreate(mode: Rollback, db: Db, cur: Ref, from: Address, addr: Address, codeHash: Hash, value: Word,
      gas: U64, child: Script)
    requires Stands(db, cur) && CreateContract(db, from, addr, codeHash, value, gas, child).clean
    requires mode.Always? ==> NoStaticRevert(child)
    ensures Alike(CreateContract(db, from, addr, codeHash, value, gas, child),
        RefCreate(mode, cur, from, addr, codeHash, value, gas, child))
  {
    hide Stands, Simulates, CreateContract, RefCreate, Extended, Forgotten, Past;
    ForgottenSimulates(db, cur);
    HistoryIsForgotten(db);
    CreateExtended(Forgotten(db), db.journal, db.snapshots, from, addr, codeHash, value, gas, child);
    var saved := CreateRefines(mode, Forgotten(db), cur, [], from, addr, codeHash, value, gas, child);
    SimulatedStands(CreateContract(Forgotten(db), from, addr, codeHash, value, gas, child).db,
        RefCreate(mode, cur, from, addr, codeHash, value, gas, child).ref, saved, db.journal, db.snapshots);
  }

  // ---------- runs that undo no loss ----------

  /** The refinement of copies for every script in which no creation that is undone met an
      account with something to lose. Creations that succeed may meet any account. */
  lemma {:induction false} RunRefinesCopies(mode: Rollback, db: Db, cur: Ref, ctx: Ctx, s: Script)
    requires Stands(db, cur) && RunScript(db, ctx, s).lossless
    requires mode.Always? ==> NoStaticRevert(s)
    ensures Alike(RunScript(db, ctx, s), RefScript(mode, cur, ctx, s))
    decreases s, 0
  {
    hide Stands, Write, RefWrite, Destroyed, RefDestroyed, HandleCall, RefCall, CreateContract, RefCreate;
    StandsReads(db, cur, 0);
    match s
    case End(_, _, _) =>
    case Destroy(ben, _) => DestroyStands(db, cur, ctx.contract, ben);
    case SStore(key, value, refund, next) =>
      var op := SetStorage(Slot(ctx.contract, key), value);
      RefundLogStands(db, cur, refund, Log(0, [], []));
      WriteStands(Refunded(db, refund), cur, op);
      RunRefinesCopies(mode, Write(Refunded(db, refund), op), RefWrite(cur, op), ctx, next);
    case Emit(l, next) =>
      RefundLogStands(db, cur, 0, l);
      RunRefinesCopies(mode, Logged(db, l), cur, ctx, next);
    case Call(kind, addr, value, gas, child, next) =>
      LosslessCall(mode, db, cur, ctx, kind, addr, value, gas, child);
      RunRefinesCopies(mode, HandleCall(db, ctx, kind, addr, value, gas, child).db,
          RefCall(mode, cur, ctx, kind, addr, value, gas, child).ref, ctx, next);
    case Create(addr, hash, value, gas, child, next) =>
      LosslessCreate(mode, db, cur, ctx.contract, addr, hash, value, gas, child);
      RunRefinesCopies(mode, CreateContract(db, ctx.contract, addr, hash, value, gas, child).db,
          RefCreate(mode, cur, ctx.contract, addr, hash, value, gas, child).ref, ctx, next);
  }

  lemma {:induction false} LosslessCall(mode: Rollback, db: Db, cur: Ref, ctx: Ctx, kind: CallKind, addr: Address,
      value: U64, gas: U64, child: Script)
    requires Stands(db, cur) && HandleCall(db, ctx, kind, addr, value, gas, child).lossless
    requires mode.Always? ==> NoStaticRevert(child) && !(kind.StaticCall? && ExitOf(child).Reverted?)
    ensures Alike(HandleCall(db, ctx, kind, addr, value, gas, child),
        RefCall(mode, cur, ctx, kind, addr, value, gas, child))
    decreases child, 3
  {
    hide Stands, RunScript, RefScript, ExecCall, RefExecCall, Revert;
    StandsReads(db, cur, ctx.contract);
    StandsReads(db, cur, addr);
    if HandleCall(db, ctx, kind, addr, value, gas, child).clean {
      CleanCall(mode, db, cur, ctx, kind, addr, value, gas, child);
    } else {
      SnapStands(db, cur);
      match kind
      case PlainCall => LosslessExecCall(mode, db, cur, ctx.contract, addr, value, gas, None, child);
      case StaticCall =>
        RunEndsAs(TakeSnapshot(db), Ctx(addr, ctx.contract), child);
        RunRefinesCopies(mode, TakeSnapshot(db), cur, Ctx(addr, ctx.contract), child);
      case CallCode => RunRefinesCopies(mode, TakeSnapshot(db), cur, Ctx(ctx.contract, ctx.contract), child);
      case DelegateCall => RunRefinesCopies(mode, TakeSnapshot(db), cur, ctx, child);
    }
  }

  lemma {:induction false} LosslessExecCall(mode: Rollback, db: Db, cur: Ref, caller: Address, contract: Address,
      value: Word, gas: U64, preCost: Option<nat>, child: Script)
    requires Stands(db, cur) && ExecCall(db, caller, contract, value, gas, preCost, child).lossless
    requires mode.Always? ==> NoStaticRevert(child)
    ensures Alike(ExecCall(db, caller, contract, value, gas, preCost, child),
        RefExecCall(mode, cur, caller, contract, value, gas, preCost, child))
    decreases child, 2
  {
    hide Stands, RunScript, RefScript, Transfer, RefTransfer, Revert;
    StandsReads(db, cur, caller);
    if ExecCall(db, caller, contract, value, gas, preCost, child).clean {
      CleanExecCall(mode, db, cur, caller, contract, value, gas, preCost, child);
    } else {
      var db1, cur1 := TakeSnapshot(db), cur;
      SnapStands(db, cur);
      if value != 0 {
        TransferStands(db1, cur, caller, contract, value);
        db1, cur1 := Transfer(db1, caller, contract, value), RefTransfer(cur, caller, contract, value);
      }
      StandsReads(db1, cur1, contract);
      RunRefinesCopies(mode, db1, cur1, Ctx(contract, caller), child);
    }
  }

  lemma {:induction false} LosslessCreate(mode: Rollback, db: Db, cur: Ref, from: Address, addr: Address,
      codeHash: Hash, value: Word, gas: U64, child: Script)
    requires Stands(db, cur) && CreateContract(db, from, addr, codeHash, value, gas, child).lossless
    requires mode.Always? ==> NoStaticRevert(child)
    ensures Alike(CreateContract(db, from, addr, codeHash, value, gas, child),
        RefCreate(mode, cur, from, addr, codeHash, value, gas, child))
    decreases child, 2
  {
    hide Stands, Write, RefWrite, RunScript, RefScript, Transfer, RefTransfer, Revert, Opened, RefOpened, Bumped,
        RefBumped, Creatable;
    StandsReads(db, cur, from);
    if CreateContract(db, from, addr, codeHash, value, gas, child).clean {
      CleanCreate(mode, db, cur, from, addr, codeHash, value, gas, child);
    } else {
      SnapStands(db, cur);
      OpenStands(TakeSnapshot(db), cur, from, addr);
      var db1, cur1 := Opened(Bumped(TakeSnapshot(db), from), addr), RefOpened(RefBumped(cur, from), addr);
      StandsReads(db1, cur1, from);
      if value != 0 {
        TransferStands(db1, cur1, from, addr, value);
        db1, cur1 := Transfer(db1, from, addr, value), RefTransfer(cur1, from, addr, value);
      }
      RunRefinesCopies(mode, db1, cur1, Ctx(addr, from), child);
      var r, q := RunScript(db1, Ctx(addr, from), child), RefScript(mode, cur1, Ctx(addr, from), child);
      WriteStands(r.db, q.ref, SetCode(addr, r.output, codeHash));
    }
  }
}
