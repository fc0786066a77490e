/** Any number of transactions over the fork database. After a Finalise the two databases may
    differ by zeros that one of them stores and the other does not; no run can tell. */
module ForkChain {
  import opened Types
  import opened State
  import opened Journal
  import opened Evm
  import Locality
  import opened ForkDb
  import opened Settlement
  import opened ForkRun

  // ---------- databases that differ by stored zeros ----------

  ghost predicate Equivalent(db: Db, db': Db) {
    && db' == db.(world := db.world.(storage := db'.world.storage))
    && forall s: Slot :: Load(db.world.storage, s) == Load(db'.world.storage, s)
  }

  ghost predicate SameEnd(r: Ran, r': Ran) {
    Equivalent(r.db, r'.db) && r.exit == r'.exit && r.gasLeft == r'.gasLeft && r.output == r'.output
  }

  lemma EquivalentFacts(db: Db, db': Db)
    requires Equivalent(db, db')
    ensures MarksOk(db) <==> MarksOk(db')
    ensures db.snapshots == db'.snapshots && db.refund == db'.refund
    ensures db.world.accounts == db'.world.accounts && db.world.created == db'.world.created
  {
  }

  lemma EquivalentAccounts(db: Db, db': Db, a: Address)
    requires Equivalent(db, db')
    ensures Acct(db.world, a) == Acct(db'.world, a)
  {
  }

  lemma WriteEquivalent(db: Db, db': Db, op: Op)
    requires Equivalent(db, db')
    ensures Equivalent(Write(db, op), Write(db', op))
  {
    forall s: Slot ensures Load(Write(db, op).world.storage, s) == Load(Write(db', op).world.storage, s) {
      assert Load(db.world.storage, s) == Load(db'.world.storage, s);
    }
  }

  lemma SnapEquivalent(db: Db, db': Db)
    requires Equivalent(db, db')
    ensures Equivalent(TakeSnapshot(db), TakeSnapshot(db'))
  {
  }

  lemma RefundLogEquivalent(db: Db, db': Db, gas: U64, l: Log)
    requires Equivalent(db, db')
    ensures Equivalent(Refunded(db, gas), Refunded(db', gas)) && Equivalent(Logged(db, l), Logged(db', l))
  {
  }

  lemma UndoEquivalent(w: World, v: World, e: Entry)
    requires v == w.(storage := v.storage) && forall s: Slot :: Load(w.storage, s) == Load(v.storage, s)
    ensures var w', v' := Undo(w, e), Undo(v, e);
            v' == w'.(storage := v'.storage) && forall s: Slot :: Load(w'.storage, s) == Load(v'.storage, s)
  {
    forall s: Slot ensures Load(Undo(w, e).storage, s) == Load(Undo(v, e).storage, s) {
      assert Load(w.storage, s) == Load(v.storage, s);
    }
  }

  lemma {:induction false} UndoAllEquivalent(w: World, v: World, s: seq<Entry>)
    requires v == w.(storage := v.storage) && forall s: Slot :: Load(w.storage, s) == Load(v.storage, s)
    ensures var w', v' := UndoAll(w, s), UndoAll(v, s);
            v' == w'.(storage := v'.storage) && forall s: Slot :: Load(w'.storage, s) == Load(v'.storage, s)
    decreases |s|
  {
    hide Undo;
    if s != [] {
      var e := s[|s| - 1];
      UndoEquivalent(w, v, e);
      UndoAllEquivalent(Undo(w, e), Undo(v, e), s[..|s| - 1]);
    }
  }

  lemma RevertEquivalent(db: Db, db': Db, id: nat)
    requires Equivalent(db, db') && MarksOk(db)
    ensures MarksOk(db') && Equivalent(Revert(db, id), Revert(db', id))
  {
    if id < |db.snapshots| {
      UndoAllEquivalent(db.world, db'.world, db.journal[db.snapshots[id]..]);
    }
  }

  lemma FinaliseEquivalent(db: Db, db': Db)
    requires Equivalent(db, db')
    ensures Equivalent(Finalised(db), Finalised(db'))
  {
    forall s: Slot
      ensures Load(Finalised(db).world.storage, s) == Load(Finalised(db').world.storage, s)
    {
      assert Load(db.world.storage, s) == Load(db'.world.storage, s);
    }
  }

  // ---------- runs cannot tell them apart ----------

  lemma TransferEquivalent(db: Db, db': Db, from: Address, to: Address, v: Word)
    requires Equivalent(db, db')
    ensures Equivalent(Transfer(db, from, to, v), Transfer(db', from, to, v))
  {
    hide Equivalent, Write;
    WriteEquivalent(db, db', SubBalance(from, v));
    WriteEquivalent(Write(db, SubBalance(from, v)), Write(db', SubBalance(from, v)), AddBalance(to, v));
  }

  lemma DestroyEquivalent(db: Db, db': Db, contract: Address, ben: Address)
    requires Equivalent(db, db')
    ensures Equivalent(Destroyed(db, contract, ben), Destroyed(db', contract, ben))
  {
    hide Equivalent, Write;
    EquivalentAccounts(db, db', contract);
    var bal := Acct(db.world, contract).balance;
    var db1, db1' := db, db';
    if bal != 0 {
      WriteEquivalent(db1, db1', AddBalance(ben, bal));
      db1, db1' := Write(db1, AddBalance(ben, bal)), Write(db1', AddBalance(ben, bal));
      WriteEquivalent(db1, db1', SubBalance(contract, bal));
      db1, db1' := Write(db1, SubBalance(contract, bal)), Write(db1', SubBalance(contract, bal));
    }
    EquivalentFacts(db1, db1');
    WriteEquivalent(db1, db1', Suicide(contract));
  }

  lemma BumpEquivalent(db: Db, db': Db, from: Address)
    requires Equivalent(db, db')
    ensures Equivalent(Bumped(db, from), Bumped(db', from))
  {
    hide Equivalent, Write;
    EquivalentAccounts(db, db', from);
    WriteEquivalent(db, db', SetNonce(from, Wrap64(Acct(db.world, from).nonce + 1)));
  }

  lemma OpenEquivalent(db: Db, db': Db, addr: Address)
    requires Equivalent(db, db')
    ensures Equivalent(Opened(db, addr), Opened(db', addr))
  {
    hide Equivalent, Write;
    WriteEquivalent(db, db', CreateAccount(addr));
    WriteEquivalent(Write(db, CreateAccount(addr)), Write(db', CreateAccount(addr)), SetNonce(addr, 1));
  }

  /** The end of a frame entered from `db`, and from `db'`. */
  lemma EndEquivalent(db: Db, db': Db, r: Ran, r': Ran)
    requires Equivalent(db, db') && SameEnd(r, r')
    requires MarksOk(db) && Grown(TakeSnapshot(db), r.db)
    ensures MarksOk(db') && Grown(TakeSnapshot(db'), r'.db)
    ensures SameEnd(RevertUnlessHalted(db, r), RevertUnlessHalted(db', r'))
    ensures Equivalent(Revert(r.db, |db.snapshots|), Revert(r'.db, |db'.snapshots|))
  {
    RevertEquivalent(r.db, r'.db, |db.snapshots|);
    hide Revert;
  }

  lemma {:induction false} ScriptEquivalent(db: Db, db': Db, ctx: Ctx, s: Script)
    requires Equivalent(db, db') && MarksOk(db)
    ensures MarksOk(db') && SameEnd(RunScript(db, ctx, s), RunScript(db', ctx, s))
    decreases s, 0
  {
    hide Equivalent, Write, MarksOk, Destroyed, HandleCall, CreateContract;
    EquivalentFacts(db, db');
    match s
    case End(_, _, _) =>
    case Destroy(ben, _) => DestroyEquivalent(db, db', ctx.contract, ben);
    case SStore(key, value, refund, next) =>
      var op := SetStorage(Slot(ctx.contract, key), value);
      RefundLogEquivalent(db, db', refund, Log(0, [], []));
      WriteEquivalent(Refunded(db, refund), Refunded(db', refund), op);
      Locality.RefundedMarks(db, refund);
      ScriptEquivalent(Write(Refunded(db, refund), op), Write(Refunded(db', refund), op), ctx, next);
    case Emit(l, next) =>
      RefundLogEquivalent(db, db', 0, l);
      Locality.LoggedMarks(db, l);
      ScriptEquivalent(Logged(db, l), Logged(db', l), ctx, next);
    case Call(kind, addr, value, gas, child, next) =>
      CallEquivalent(db, db', ctx, kind, addr, value, gas, child);
      ScriptEquivalent(HandleCall(db, ctx, kind, addr, value, gas, child).db,
                       HandleCall(db', ctx, kind, addr, value, gas, child).db, ctx, next);
    case Create(addr, hash, value, gas, child, next) =>
      CreateEquivalent(db, db', ctx.contract, addr, hash, value, gas, child);
      ScriptEquivalent(CreateContract(db, ctx.contract, addr, hash, value, gas, child).db,
                       CreateContract(db', ctx.contract, addr, hash, value, gas, child).db, ctx, next);
  }

  lemma SnapGrows(db: Db)
    requires MarksOk(db)
    ensures MarksOk(TakeSnapshot(db)) && Grown(TakeSnapshot(db), TakeSnapshot(db))
  {
  }

  /** One frame, entered in states that grew from the snapshots of `db` and `db'`. */
  lemma {:induction false} FrameEquivalent(db: Db, db': Db, db1: Db, db1': Db, callee: Ctx, child: Script)
    requires Equivalent(db, db') && Equivalent(db1, db1') && MarksOk(db) && Grown(TakeSnapshot(db), db1)
    ensures var r, r' := RunScript(db1, callee, child), RunScript(db1', callee, child);
            && MarksOk(db') && MarksOk(db1')
            && Grown(TakeSnapshot(db), r.db) && Grown(TakeSnapshot(db'), r'.db) && SameEnd(r, r')
            && SameEnd(RevertUnlessHalted(db, r), RevertUnlessHalted(db', r'))
            && Equivalent(Revert(r.db, |db.snapshots|), Revert(r'.db, |db'.snapshots|))
    decreases child, 1
  {
    hide Equivalent, RunScript;
    ScriptEquivalent(db1, db1', callee, child);
    var r, r' := RunScript(db1, callee, child), RunScript(db1', callee, child);
    GrownTransitive(TakeSnapshot(db), db1, r.db);
    EndEquivalent(db, db', r, r');
  }

  lemma {:induction false} CallEquivalent(db: Db, db': Db, ctx: Ctx, kind: CallKind, addr: Address, value: U64,
      gas: U64, child: Script)
    requires Equivalent(db, db') && MarksOk(db)
    ensures MarksOk(db')
    ensures SameEnd(HandleCall(db, ctx, kind, addr, value, gas, child),
        HandleCall(db', ctx, kind, addr, value, gas, child))
    decreases child, 3
  {
    hide Equivalent, RunScript, ExecCall, RevertUnlessHalted, Revert, Grown, MarksOk, Acct;
    SnapGrows(db);
    EquivalentFacts(db, db');
    EquivalentAccounts(db, db', addr);
    EquivalentAccounts(db, db', ctx.contract);
    SnapEquivalent(db, db');
    var db1, db1' := TakeSnapshot(db), TakeSnapshot(db');
    match kind
    case PlainCall => ExecCallEquivalent(db, db', ctx.contract, addr, value, gas, None, child);
    case StaticCall => FrameEquivalent(db, db', db1, db1', Ctx(addr, ctx.contract), child);
    case CallCode => FrameEquivalent(db, db', db1, db1', Ctx(ctx.contract, ctx.contract), child);
    case DelegateCall => FrameEquivalent(db, db', db1, db1', ctx, child);
  }

  lemma {:induction false} ExecCallEquivalent(db: Db, db': Db, caller: Address, contract: Address, value: Word,
      gas: U64, preCost: Option<nat>, child: Script)
    requires Equivalent(db, db') && MarksOk(db)
    ensures MarksOk(db')
    ensures SameEnd(ExecCall(db, caller, contract, value, gas, preCost, child),
        ExecCall(db', caller, contract, value, gas, preCost, child))
    decreases child, 2
  {
    hide Equivalent, RunScript, RevertUnlessHalted, Revert, Transfer, Acct, MarksOk, Grown;
    SnapGrows(db);
    EquivalentFacts(db, db');
    EquivalentAccounts(db, db', caller);
    SnapEquivalent(db, db');
    var db1, db1' := TakeSnapshot(db), TakeSnapshot(db');
    if !Precompiled(contract) {
      if value != 0 && Acct(db.world, caller).balance < value {
        EndEquivalent(db, db', Ran(db1, Failed, 0, [], true, true), Ran(db1', Failed, 0, [], true, true));
      } else {
        TransferEquivalent(db1, db1', caller, contract, value);
        if value != 0 {
          GrownTransitive(TakeSnapshot(db), db1, Transfer(db1, caller, contract, value));
          db1, db1' := Transfer(db1, caller, contract, value), Transfer(db1', caller, contract, value);
        }
        EquivalentAccounts(db1, db1', contract);
        FrameEquivalent(db, db', db1, db1', Ctx(contract, caller), child);
      }
    }
  }

  lemma {:induction false} CreateEquivalent(db: Db, db': Db, from: Address, addr: Address, codeHash: Hash, value: Word,
      gas: U64, child: Script)
    requires Equivalent(db, db') && MarksOk(db)
    ensures MarksOk(db')
    ensures SameEnd(CreateContract(db, from, addr, codeHash, value, gas, child),
        CreateContract(db', from, addr, codeHash, value, gas, child))
    decreases child, 2
  {
    hide Equivalent, Write, RunScript, RevertUnlessHalted, Revert, Transfer, Opened, Bumped, Creatable, Deployed, Acct,
        MarksOk;
    EquivalentFacts(db, db');
    SnapGrows(db);
    SnapEquivalent(db, db');
    BumpEquivalent(TakeSnapshot(db), TakeSnapshot(db'), from);
    OpenEquivalent(Bumped(TakeSnapshot(db), from), Bumped(TakeSnapshot(db'), from), addr);
    var db1, db1' := Opened(Bumped(TakeSnapshot(db), from), addr), Opened(Bumped(TakeSnapshot(db'), from), addr);
    GrownTransitive(TakeSnapshot(db), Bumped(TakeSnapshot(db), from), db1);
    EquivalentAccounts(db1, db1', from);
    if value != 0 && Acct(db1.world, from).balance < value {
      var clean := Creatable(Bumped(TakeSnapshot(db), from), addr);
      var clean' := Creatable(Bumped(TakeSnapshot(db'), from), addr);
      EndEquivalent(db, db', Ran(db1, Failed, 0, [], clean, clean), Ran(db1', Failed, 0, [], clean', clean'));
    } else {
      TransferEquivalent(db1, db1', from, addr, value);
      if value != 0 {
        GrownTransitive(TakeSnapshot(db), db1, Transfer(db1, from, addr, value));
        db1, db1' := Transfer(db1, from, addr, value), Transfer(db1', from, addr, value);
      }
      FrameEquivalent(db, db', db1, db1', Ctx(addr, from), child);
      var r, r' := RunScript(db1, Ctx(addr, from), child), RunScript(db1', Ctx(addr, from), child);
      var clean := Creatable(Bumped(TakeSnapshot(db), from), addr);
      var clean' := Creatable(Bumped(TakeSnapshot(db'), from), addr);
      DeployEquivalent(db, db', r.(clean := clean && r.clean), r'.(clean := clean' && r'.clean), addr, codeHash);
    }
  }

  lemma DeployEquivalent(db: Db, db': Db, r: Ran, r': Ran, addr: Address, codeHash: Hash)
    requires Equivalent(db, db') && SameEnd(r, r') && MarksOk(db) && Grown(TakeSnapshot(db), r.db)
    ensures MarksOk(db') && Grown(TakeSnapshot(db'), r'.db)
    ensures SameEnd(Deployed(db, r, addr, codeHash), Deployed(db', r', addr, codeHash))
  {
    EndEquivalent(db, db', r, r');
    WriteEquivalent(r.db, r'.db, SetCode(addr, r.output, codeHash));
    hide Equivalent, Write, RevertUnlessHalted, Grown, MarksOk;
  }

  lemma MessageEquivalent(db: Db, db': Db, m: Message, c: Callee)
    requires Equivalent(db, db') && MarksOk(db) && (m.intrinsic.Some? ==> m.intrinsic.value <= m.gas)
    ensures MarksOk(db') && SameEnd(RunMessage(db, m, c), RunMessage(db', m, c))
  {
    hide Equivalent, ExecCall, CreateContract;
    if m.to.Some? {
      ExecCallEquivalent(db, db', m.from, m.to.value, m.value, GasToRun(m), c.preCost, c.script);
    } else {
      CreateEquivalent(db, db', m.from, c.newAddr, c.codeHash, m.value, GasToRun(m), c.script);
    }
  }

  lemma BoughtEquivalent(db: Db, db': Db, m: Message)
    requires Equivalent(db, db')
    ensures Equivalent(Bought(db, m), Bought(db', m))
  {
    hide Equivalent, Write, Bumped, Upfront;
    var buy := SubBalance(m.from, Upfront(m));
    WriteEquivalent(db, db', buy);
    BumpEquivalent(Write(db, buy), Write(db', buy), m.from);
  }

  /** Returning gas and refund, Finalise, and the tip. */
  lemma SettleEquivalent(db: Db, db': Db, cfg: Config, m: Message, gasLeft: U64, used: U64, bonus: U64)
    requires Equivalent(db, db')
    ensures Equivalent(TipPaid(Finalised(BonusPaid(GasReturned(db, m, gasLeft), m, bonus)), cfg, m, used),
                       TipPaid(Finalised(BonusPaid(GasReturned(db', m, gasLeft), m, bonus)), cfg, m, used))
  {
    hide Equivalent, Write, Finalised, Fee, Wrap256, Wrap64;
    var back := AddBalance(m.from, Wrap256(Fee(gasLeft, m.gasPrice)));
    WriteEquivalent(db, db', back);
    var db1, db1' := Write(db, back), Write(db', back);
    if bonus > 0 {
      var extra := AddBalance(m.from, Wrap64(Fee(bonus, m.gasPrice)));
      WriteEquivalent(db1, db1', extra);
      db1, db1' := Write(db1, extra), Write(db1', extra);
    }
    FinaliseEquivalent(db1, db1');
    WriteEquivalent(Finalised(db1), Finalised(db1'), AddBalance(cfg.coinbase, Wrap256(Fee(used, Tip(cfg, m)))));
  }

  /** A transaction cannot tell the two apart. */
  lemma ExecuteEquivalent(db: Db, db': Db, cfg: Config, m: Message, c: Callee)
    requires Equivalent(db, db') && MarksOk(db)
    ensures MarksOk(db')
    ensures var e, e' := Execute(db, cfg, m, c), Execute(db', cfg, m, c);
            && Equivalent(e.db, e'.db) && e.status == e'.status
            && e.gasLeft == e'.gasLeft && e.used == e'.used && e.bonus == e'.bonus
  {
    hide Equivalent, Write, Bought, RunMessage, Upfront, Finalised, TipPaid, BonusPaid, GasReturned;
    EquivalentFacts(db, db');
    EquivalentAccounts(db, db', m.from);
    BoughtEquivalent(db, db', m);
    var db1, db1' := Bought(db, m), Bought(db', m);
    if m.intrinsic.Some? && m.gas < m.intrinsic.value {
      WriteEquivalent(db1, db1', AddBalance(m.from, Upfront(m)));
    } else if Acct(db.world, m.from).balance >= Upfront(m) {
      MessageEquivalent(db1, db1', m, c);
      var r, r' := RunMessage(db1, m, c), RunMessage(db1', m, c);
      EquivalentFacts(r.db, r'.db);
      var used := Wrap64(m.gas - r.gasLeft);
      SettleEquivalent(r.db, r'.db, cfg, m, r.gasLeft, used, GrantedRefund(r.db.refund, used, r.exit));
    }
  }

  // ---------- any number of transactions ----------

  datatype Tx = Tx(m: Message, c: Callee, peeks: Peeks)

  /** What a caller of Execute gets to see. */
  datatype Outcome = Outcome(status: Status, gasLeft: U64, used: U64, bonus: U64)

  ghost function OverFork(l: Lazy, r: Remote, cfg: Config, txs: seq<Tx>): (Lazy, seq<Outcome>)
    requires MarksOk(l.db)
    decreases |txs|
  {
    if txs == [] then (l, [])
    else
      var q := LazyExecute(l, r, cfg, txs[0].m, txs[0].c, txs[0].peeks);
      var (l', rest) := OverFork(q.l, r, cfg, txs[1..]);
      (l', [Outcome(q.status, q.gasLeft, q.used, q.bonus)] + rest)
  }

  ghost function OverPreloaded(db: Db, cfg: Config, txs: seq<Tx>): (Db, seq<Outcome>)
    requires MarksOk(db)
    decreases |txs|
  {
    if txs == [] then (db, [])
    else
      var e := Execute(db, cfg, txs[0].m, txs[0].c);
      var (db', rest) := OverPreloaded(e.db, cfg, txs[1..]);
      (db', [Outcome(e.status, e.gasLeft, e.used, e.bonus)] + rest)
  }

  /** No transaction that runs leaves a non-zero slot of a deleted account unfetched. */
  ghost predicate LeavesNothingBehind(l: Lazy, r: Remote, u: Scope, cfg: Config, txs: seq<Tx>)
    requires MarksOk(l.db)
    decreases |txs|
  {
    txs == [] ||
    var tx := txs[0];
    var q := LazyExecute(l, r, cfg, tx.m, tx.c, tx.peeks);
    && (q.status.Done? && (tx.m.intrinsic.Some? ==> tx.m.intrinsic.value <= tx.m.gas)
        ==> NothingLeftBehind(LazyUnsettled(l, r, tx.m, tx.c, tx.peeks), r, u))
    && LeavesNothingBehind(q.l, r, u, cfg, txs[1..])
  }

  /** Every sequence of transactions over the fork database has the outcomes it has over the
      preloaded one, and ends with the same accounts, storage, committed values and logs. */
  lemma {:induction false} TransactionsOverForkAgree(l: Lazy, r: Remote, u: Scope, db: Db, cfg: Config, txs: seq<Tx>)
    requires OnlyFetched(l) && MarksOk(l.db) && Equivalent(db, Preloaded(l, r, u))
    requires forall i :: 0 <= i < |txs| ==> MessageInScope(u, cfg, txs[i].m, txs[i].c) && Covered(u, txs[i].peeks)
    requires LeavesNothingBehind(l, r, u, cfg, txs)
    ensures MarksOk(db)
    ensures var (l', outcomes), (db', outcomes') := OverFork(l, r, cfg, txs), OverPreloaded(db, cfg, txs);
            OnlyFetched(l') && Equivalent(db', Preloaded(l', r, u)) && outcomes == outcomes'
    decreases |txs|
  {
    hide OnlyFetched, Equivalent, Preloaded, LazyExecute, Execute, MessageInScope, Covered, LazyUnsettled,
        NothingLeftBehind;
    PreloadedMarks(l, r, u);
    EquivalentFacts(db, Preloaded(l, r, u));
    if txs != [] {
      var tx := txs[0];
      ExecuteEquivalent(db, Preloaded(l, r, u), cfg, tx.m, tx.c);
      ExecuteOverPreloaded(l, r, u, cfg, tx);
      var q, e := LazyExecute(l, r, cfg, tx.m, tx.c, tx.peeks), Execute(db, cfg, tx.m, tx.c);
      EquivalentTransitive(e.db, Execute(Preloaded(l, r, u), cfg, tx.m, tx.c).db, Preloaded(q.l, r, u));
      TransactionsOverForkAgree(q.l, r, u, e.db, cfg, txs[1..]);
    }
  }

  lemma EquivalentTransitive(db: Db, db1: Db, db2: Db)
    requires Equivalent(db, db1) && Equivalent(db1, db2)
    ensures Equivalent(db, db2)
  {
    forall s: Slot ensures Load(db.world.storage, s) == Load(db2.world.storage, s) {
      assert Load(db.world.storage, s) == Load(db1.world.storage, s);
    }
  }

  /** One transaction, over the fork and over its own preloaded counterpart. */
  lemma ExecuteOverPreloaded(l: Lazy, r: Remote, u: Scope, cfg: Config, tx: Tx)
    requires OnlyFetched(l) && MarksOk(l.db) && MessageInScope(u, cfg, tx.m, tx.c) && Covered(u, tx.peeks)
    requires LeavesNothingBehind(l, r, u, cfg, [tx])
    ensures MarksOk(Preloaded(l, r, u))
    ensures var q, e := LazyExecute(l, r, cfg, tx.m, tx.c, tx.peeks), Execute(Preloaded(l, r, u), cfg, tx.m, tx.c);
            && OnlyFetched(q.l) && Equivalent(e.db, Preloaded(q.l, r, u)) && q.status == e.status
            && q.gasLeft == e.gasLeft && q.used == e.used && q.bonus == e.bonus
  {
    hide OnlyFetched, Preloaded, LazyExecute, Execute, MessageInScope, Covered, LazyUnsettled, NothingLeftBehind;
    PreloadedMarks(l, r, u);
    assert Mirrors(l, r, u, Preloaded(l, r, u));
    ExecuteOverForkAgrees(l, r, u, Preloaded(l, r, u), cfg, tx.m, tx.c, tx.peeks);
  }

  /** In particular from a new fork, against an empty database with the remote state loaded. */
  lemma TransactionsOverFreshFork(r: Remote, u: Scope, cfg: Config, txs: seq<Tx>)
    requires forall i :: 0 <= i < |txs| ==> MessageInScope(u, cfg, txs[i].m, txs[i].c) && Covered(u, txs[i].peeks)
    requires LeavesNothingBehind(FRESH, r, u, cfg, txs)
    ensures MarksOk(Preloaded(FRESH, r, u))
    ensures var (l', outcomes), (db', outcomes') := OverFork(FRESH, r, cfg, txs),
        OverPreloaded(Preloaded(FRESH, r, u), cfg, txs);
            SameReads(db'.world, Preloaded(l', r, u).world) && outcomes == outcomes'
  {
    TransactionsOverForkAgree(FRESH, r, u, Preloaded(FRESH, r, u), cfg, txs);
    EquivalentReads(OverPreloaded(Preloaded(FRESH, r, u), cfg, txs).0, Preloaded(OverFork(FRESH, r, cfg, txs).0, r, u));
  }

  lemma EquivalentReads(db: Db, db': Db)
    requires Equivalent(db, db')
    ensures SameReads(db.world, db'.world)
  {
  }
}
