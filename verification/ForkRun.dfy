/** Whole runs over the lazy fork database: every call, creation and transaction over it does
    what it does over the preloaded database. That slots are fetched before they are written,
    and accounts before they are self-destructed, is what SSTORE and SELFDESTRUCT do here; it
    is not assumed. */
module ForkRun {
  import opened Types
  import opened State
  import opened Journal
  import opened Evm
  import opened ForkDb
  import opened Settlement

  /** `l` is the unfetched remainder of `db` over the part `u` of the remote state: loading all
      that is still missing from `l` gives `db`. */
  ghost predicate Mirrors(l: Lazy, r: Remote, u: Scope, db: Db) {
    OnlyFetched(l) && MarksOk(l.db) && MarksOk(db) && Preloaded(l, r, u) == db
  }

  lemma MirrorsFacts(l: Lazy, r: Remote, u: Scope, db: Db)
    requires Mirrors(l, r, u, db)
    ensures MarksOk(l.db) && MarksOk(db)
    ensures l.db.journal == db.journal && l.db.snapshots == db.snapshots
    ensures l.db.world.created == db.world.created && l.db.refund == db.refund
  {
  }

  // ---------- one access ----------

  /** What code reads between the requests of its script. */
  datatype Touch = TouchAccount(addr: Address) | TouchSlot(slot: Slot)

  type Peeks = seq<nat> -> seq<Touch>

  function Touched(l: Lazy, r: Remote, ts: seq<Touch>): (l': Lazy)
    ensures MarksOk(l.db) ==> Grown(l.db, l'.db)
    decreases |ts|
  {
    if ts == [] then l
    else
      match ts[0]
      case TouchAccount(a) => Touched(WithAccount(l, r, a), r, ts[1..])
      case TouchSlot(s) => Touched(WithSlot(l, r, s), r, ts[1..])
  }

  predicate TouchesWithin(u: Scope, ts: seq<Touch>) {
    forall i :: 0 <= i < |ts| ==>
      match ts[i] case TouchAccount(a) => a in u.accounts case TouchSlot(s) => s in u.slots
  }

  /** The adapter's write: load the account, then delegate. */
  function Written(l: Lazy, r: Remote, op: Op): (l': Lazy)
    ensures MarksOk(l.db) ==> Grown(l.db, l'.db)
  {
    var l1 := Ensured(l, r, Change(op));
    l1.(db := Write(l1.db, op))
  }

  function Snapped(l: Lazy): (l': Lazy)
    ensures MarksOk(l.db) ==> Grown(l.db, l'.db) && l'.db == TakeSnapshot(l.db)
  {
    l.(db := TakeSnapshot(l.db))
  }

  lemma FetchMirrors(l: Lazy, r: Remote, u: Scope, db: Db, a: Address)
    requires Mirrors(l, r, u, db) && a in u.accounts
    ensures var l' := WithAccount(l, r, a);
            && Mirrors(l', r, u, db) && Acct(l'.db.world, a) == Acct(db.world, a)
            && l'.accounts == l.accounts + {a} && l'.slots == l.slots && Grown(l.db, l'.db)
  {
    FetchIsInvisible(l, r, u, a);
    ReadsAgree(WithAccount(l, r, a), r, u);
  }

  lemma FetchSlotMirrors(l: Lazy, r: Remote, u: Scope, db: Db, s: Slot)
    requires Mirrors(l, r, u, db) && s in u.slots
    ensures Mirrors(WithSlot(l, r, s), r, u, db) && s in WithSlot(l, r, s).slots
  {
    FetchSlotIsInvisible(l, r, u, s);
  }

  lemma {:induction false} TouchMirrors(l: Lazy, r: Remote, u: Scope, db: Db, ts: seq<Touch>)
    requires Mirrors(l, r, u, db) && TouchesWithin(u, ts)
    ensures Mirrors(Touched(l, r, ts), r, u, db)
    decreases |ts|
  {
    hide Mirrors;
    if ts != [] {
      match ts[0]
      case TouchAccount(a) =>
        FetchMirrors(l, r, u, db, a);
        TouchMirrors(WithAccount(l, r, a), r, u, db, ts[1..]);
      case TouchSlot(s) =>
        FetchSlotMirrors(l, r, u, db, s);
        TouchMirrors(WithSlot(l, r, s), r, u, db, ts[1..]);
    }
  }

  lemma WriteMirrors(l: Lazy, r: Remote, u: Scope, db: Db, op: Op)
    requires Mirrors(l, r, u, db) && AddrOf(op) in u.accounts
    requires op.SetStorage? ==> op.slot in l.slots
    requires op.Suicide? ==> op.addr in l.accounts
    ensures Mirrors(Written(l, r, op), r, u, Write(db, op))
    ensures l.accounts <= Written(l, r, op).accounts && Written(l, r, op).slots == l.slots
  {
    if !op.Suicide? {
      FetchMirrors(l, r, u, db, AddrOf(op));
    }
    WriteCommutes(Ensured(l, r, Change(op)), r, u, op);
  }

  lemma SnapMirrors(l: Lazy, r: Remote, u: Scope, db: Db)
    requires Mirrors(l, r, u, db)
    ensures Mirrors(Snapped(l), r, u, TakeSnapshot(db))
  {
    SnapCommutes(l, r, u);
  }

  lemma RevertMirrors(l: Lazy, r: Remote, u: Scope, db: Db, id: nat)
    requires Mirrors(l, r, u, db)
    ensures Mirrors(l.(db := Revert(l.db, id)), r, u, Revert(db, id))
  {
    RevertCommutes(l, r, u, id);
  }

  lemma RefundMirrors(l: Lazy, r: Remote, u: Scope, db: Db, gas: U64)
    requires Mirrors(l, r, u, db)
    ensures Mirrors(l.(db := Refunded(l.db, gas)), r, u, Refunded(db, gas))
  {
  }

  lemma LogMirrors(l: Lazy, r: Remote, u: Scope, db: Db, log: Log)
    requires Mirrors(l, r, u, db)
    ensures Mirrors(l.(db := Logged(l.db, log)), r, u, Logged(db, log))
  {
  }

  // ---------- runs ----------

  datatype LazyRan = LazyRan(l: Lazy, exit: Exit, gasLeft: U64, output: Code)

  function LazyTransfer(l: Lazy, r: Remote, from: Address, to: Address, v: Word): (l': Lazy)
    ensures MarksOk(l.db) ==> Grown(l.db, l'.db)
  {
    Written(Written(l, r, SubBalance(from, v)), r, AddBalance(to, v))
  }

  /** SELFDESTRUCT asks whether the beneficiary exists and what the contract holds first. */
  function LazyDestroyed(l: Lazy, r: Remote, contract: Address, ben: Address): (l': Lazy)
    ensures MarksOk(l.db) ==> Grown(l.db, l'.db)
  {
    var l1 := WithAccount(WithAccount(l, r, ben), r, contract);
    var bal := Acct(l1.db.world, contract).balance;
    var l2 := if bal == 0 then l1 else Written(Written(l1, r, AddBalance(ben, bal)), r, SubBalance(contract, bal));
    if contract in l2.db.world.created then Written(l2, r, Suicide(contract)) else l2
  }

  /** SSTORE reads the slot, current and committed, before it writes it. */
  function LazyStored(l: Lazy, r: Remote, s: Slot, v: Hash, refund: U64): (l': Lazy)
    ensures MarksOk(l.db) ==> Grown(l.db, l'.db)
  {
    var l1 := WithSlot(l, r, s);
    Written(l1.(db := Refunded(l1.db, refund)), r, SetStorage(s, v))
  }

  function LazyBumped(l: Lazy, r: Remote, from: Address): (l': Lazy)
    ensures MarksOk(l.db) ==> Grown(l.db, l'.db)
  {
    var l1 := WithAccount(l, r, from);
    Written(l1, r, SetNonce(from, Wrap64(Acct(l1.db.world, from).nonce + 1)))
  }

  function LazyOpened(l: Lazy, r: Remote, addr: Address): (l': Lazy)
    ensures MarksOk(l.db) ==> Grown(l.db, l'.db)
  {
    Written(Written(l, r, CreateAccount(addr)), r, SetNonce(addr, 1))
  }

  ghost function LazyUndone(entry: Lazy, q: LazyRan): (q': LazyRan)
    requires MarksOk(entry.db) && Grown(Snapped(entry).db, q.l.db)
    ensures Grown(entry.db, q'.l.db) && q' == q.(l := q'.l)
  {
    FrameUndone(entry.db, q.l.db);
    q.(l := q.l.(db := Revert(q.l.db, |entry.db.snapshots|)))
  }

  ghost function LazyUnlessHalted(entry: Lazy, q: LazyRan): (q': LazyRan)
    requires MarksOk(entry.db) && Grown(Snapped(entry).db, q.l.db)
    ensures Grown(entry.db, q'.l.db) && q' == q.(l := q'.l)
  {
    if q.exit.Halted? then q else LazyUndone(entry, q)
  }

  ghost function LazyScript(l0: Lazy, r: Remote, ctx: Ctx, s: Script, peeks: Peeks, path: seq<nat>): (q: LazyRan)
    requires MarksOk(l0.db)
    ensures Grown(l0.db, q.l.db)
    decreases s, 0
  {
    hide LazyDestroyed, LazyStored, Written;
    var l := Touched(l0, r, peeks(path));
    match s
    case End(exit, gasLeft, output) => LazyRan(l, exit, if exit.Failed? then 0 else gasLeft, output)
    case Destroy(ben, gasLeft) => LazyRan(LazyDestroyed(l, r, ctx.contract, ben), Halted, gasLeft, [])
    case SStore(key, value, refund, next) =>
      LazyScript(LazyStored(l, r, Slot(ctx.contract, key), value, refund), r, ctx, next, peeks, path + [0])
    case Emit(log, next) => LazyScript(l.(db := Logged(l.db, log)), r, ctx, next, peeks, path + [0])
    case Call(kind, addr, value, gas, child, next) =>
      var c := LazyCall(l, r, ctx, kind, addr, value, gas, child, peeks, path + [1]);
      LazyScript(c.l, r, ctx, next, peeks, path + [0])
    case Create(addr, hash, value, gas, child, next) =>
      var c := LazyCreate(l, r, ctx.contract, addr, hash, value, gas, child, peeks, path + [1]);
      LazyScript(c.l, r, ctx, next, peeks, path + [0])
  }

  ghost function LazyCall(l: Lazy, r: Remote, ctx: Ctx, kind: CallKind, addr: Address, value: U64, gas: U64,
      child: Script, peeks: Peeks, path: seq<nat>): (q: LazyRan)
    requires MarksOk(l.db)
    ensures Grown(l.db, q.l.db)
    decreases child, 2
  {
    var l1 := WithAccount(Snapped(l), r, addr);
    match kind
    case StaticCall =>
      var q := LazyScript(l1, r, Ctx(addr, ctx.contract), child, peeks, path);
      if q.exit.Failed? then LazyUndone(l, q) else q
    case PlainCall => LazyExecCall(l, r, ctx.contract, addr, value, gas, None, child, peeks, path)
    case _ =>
      var l2 := if kind.CallCode? && value > 0 then WithAccount(l1, r, ctx.contract) else l1;
      if kind.CallCode? && value > 0 && Acct(l2.db.world, ctx.contract).balance < value then
        LazyRan(l2, Failed, gas, [])
      else if Acct(l2.db.world, addr).code == [] then
        LazyRan(l2, Halted, gas, [])
      else
        var callee := if kind.CallCode? then Ctx(ctx.contract, ctx.contract) else ctx;
        LazyUnlessHalted(l, LazyScript(l2, r, callee, child, peeks, path))
  }

  ghost function LazyExecCall(l: Lazy, r: Remote, caller: Address, contract: Address, value: Word, gas: U64,
      preCost: Option<nat>, child: Script, peeks: Peeks, path: seq<nat>): (q: LazyRan)
    requires MarksOk(l.db)
    ensures Grown(l.db, q.l.db)
    decreases child, 1
  {
    hide LazyTransfer;
    if Precompiled(contract) then LazyRan(l, Halted, PrecompileLeft(preCost, gas), [])
    else
      var l1 := if value == 0 then Snapped(l) else WithAccount(Snapped(l), r, caller);
      if value != 0 && Acct(l1.db.world, caller).balance < value then
        LazyUndone(l, LazyRan(l1, Failed, 0, []))
      else
        var l2 := if value == 0 then l1 else LazyTransfer(l1, r, caller, contract, value);
        var l3 := WithAccount(l2, r, contract);
        if Acct(l3.db.world, contract).code == [] then LazyRan(l3, Halted, gas, [])
        else LazyUnlessHalted(l, LazyScript(l3, r, Ctx(contract, caller), child, peeks, path))
  }

  ghost function LazyCreate(l: Lazy, r: Remote, from: Address, addr: Address, codeHash: Hash, value: Word, gas: U64,
      child: Script, peeks: Peeks, path: seq<nat>): (q: LazyRan)
    requires MarksOk(l.db)
    ensures Grown(l.db, q.l.db)
    decreases child, 1
  {
    hide LazyTransfer, LazyOpened, LazyBumped;
    var l1 := LazyOpened(LazyBumped(Snapped(l), r, from), r, addr);
    var l2 := if value == 0 then l1 else WithAccount(l1, r, from);
    if value != 0 && Acct(l2.db.world, from).balance < value then
      LazyUndone(l, LazyRan(l2, Failed, 0, []))
    else
      var l3 := if value == 0 then l2 else LazyTransfer(l2, r, from, addr, value);
      var q := LazyScript(l3, r, Ctx(addr, from), child, peeks, path);
      if q.exit.Halted? then q.(l := Written(q.l, r, SetCode(addr, q.output, codeHash)))
      else LazyRan(LazyUndone(l, q).l, q.exit, 0, if q.exit.Reverted? then q.output else [])
  }

  // ---------- the two runs agree ----------

  /** The part of the remote state loaded beforehand covers what the script speaks of. */
  predicate InScope(u: Scope, ctx: Ctx, s: Script)
    decreases s
  {
    ctx.contract in u.accounts &&
    match s
    case End(_, _, _) => true
    case Destroy(ben, _) => ben in u.accounts
    case SStore(key, _, _, next) => Slot(ctx.contract, key) in u.slots && InScope(u, ctx, next)
    case Emit(_, next) => InScope(u, ctx, next)
    case Call(kind, addr, _, _, child, next) =>
      addr in u.accounts && InScope(u, CalleeCtx(ctx, kind, addr), child) && InScope(u, ctx, next)
    case Create(addr, _, _, _, child, next) =>
      InScope(u, Ctx(addr, ctx.contract), child) && InScope(u, ctx, next)
  }

  function CalleeCtx(ctx: Ctx, kind: CallKind, addr: Address): Ctx {
    match kind
    case CallCode => Ctx(ctx.contract, ctx.contract)
    case DelegateCall => ctx
    case _ => Ctx(addr, ctx.contract)
  }

  ghost predicate Covered(u: Scope, peeks: Peeks) {
    forall p :: TouchesWithin(u, peeks(p))
  }

  ghost predicate Same(q: LazyRan, ran: Ran, r: Remote, u: Scope) {
    Mirrors(q.l, r, u, ran.db) && q.exit == ran.exit && q.gasLeft == ran.gasLeft && q.output == ran.output
  }

  lemma TransferMirrors(l: Lazy, r: Remote, u: Scope, db: Db, from: Address, to: Address, v: Word)
    requires Mirrors(l, r, u, db) && from in u.accounts && to in u.accounts
    ensures Mirrors(LazyTransfer(l, r, from, to, v), r, u, Transfer(db, from, to, v))
  {
    hide Mirrors, Written;
    WriteMirrors(l, r, u, db, SubBalance(from, v));
    WriteMirrors(Written(l, r, SubBalance(from, v)), r, u, Write(db, SubBalance(from, v)), AddBalance(to, v));
  }

  lemma DestroyMirrors(l: Lazy, r: Remote, u: Scope, db: Db, contract: Address, ben: Address)
    requires Mirrors(l, r, u, db) && contract in u.accounts && ben in u.accounts
    ensures Mirrors(LazyDestroyed(l, r, contract, ben), r, u, Destroyed(db, contract, ben))
  {
    hide Mirrors, Written, Write;
    FetchMirrors(l, r, u, db, ben);
    FetchMirrors(WithAccount(l, r, ben), r, u, db, contract);
    var l1, db1 := WithAccount(WithAccount(l, r, ben), r, contract), db;
    var bal := Acct(db.world, contract).balance;
    if bal != 0 {
      WriteMirrors(l1, r, u, db1, AddBalance(ben, bal));
      l1, db1 := Written(l1, r, AddBalance(ben, bal)), Write(db1, AddBalance(ben, bal));
      WriteMirrors(l1, r, u, db1, SubBalance(contract, bal));
      l1, db1 := Written(l1, r, SubBalance(contract, bal)), Write(db1, SubBalance(contract, bal));
    }
    MirrorsFacts(l1, r, u, db1);
    if contract in db1.world.created {
      WriteMirrors(l1, r, u, db1, Suicide(contract));
    }
  }

  lemma StoreMirrors(l: Lazy, r: Remote, u: Scope, db: Db, s: Slot, v: Hash, refund: U64)
    requires Mirrors(l, r, u, db) && s.addr in u.accounts && s in u.slots
    ensures Mirrors(LazyStored(l, r, s, v, refund), r, u, Write(Refunded(db, refund), SetStorage(s, v)))
  {
    hide Mirrors, Written, Write;
    FetchSlotMirrors(l, r, u, db, s);
    var l1 := WithSlot(l, r, s);
    RefundMirrors(l1, r, u, db, refund);
    WriteMirrors(l1.(db := Refunded(l1.db, refund)), r, u, Refunded(db, refund), SetStorage(s, v));
  }

  lemma BumpMirrors(l: Lazy, r: Remote, u: Scope, db: Db, from: Address)
    requires Mirrors(l, r, u, db) && from in u.accounts
    ensures Mirrors(LazyBumped(l, r, from), r, u, Bumped(db, from))
  {
    hide Mirrors, Written, Write;
    FetchMirrors(l, r, u, db, from);
    WriteMirrors(WithAccount(l, r, from), r, u, db, SetNonce(from, Wrap64(Acct(db.world, from).nonce + 1)));
  }

  lemma OpenMirrors(l: Lazy, r: Remote, u: Scope, db: Db, addr: Address)
    requires Mirrors(l, r, u, db) && addr in u.accounts
    ensures Mirrors(LazyOpened(l, r, addr), r, u, Opened(db, addr))
  {
    hide Mirrors, Written, Write;
    WriteMirrors(l, r, u, db, CreateAccount(addr));
    WriteMirrors(Written(l, r, CreateAccount(addr)), r, u, Write(db, CreateAccount(addr)), SetNonce(addr, 1));
  }

  /** A frame that did not halt is undone on both sides alike. */
  lemma UndoMirrors(l: Lazy, db: Db, q: LazyRan, ran: Ran, r: Remote, u: Scope)
    requires Mirrors(l, r, u, db) && Same(q, ran, r, u)
    requires MarksOk(l.db) && MarksOk(db) && Grown(Snapped(l).db, q.l.db) && Grown(TakeSnapshot(db), ran.db)
    ensures Mirrors(LazyUndone(l, q).l, r, u, Revert(ran.db, |db.snapshots|))
  {
    MirrorsFacts(l, r, u, db);
    RevertMirrors(q.l, r, u, ran.db, |db.snapshots|);
  }

  lemma UnlessHaltedMirrors(l: Lazy, db: Db, q: LazyRan, ran: Ran, r: Remote, u: Scope)
    requires Mirrors(l, r, u, db) && Same(q, ran, r, u)
    requires MarksOk(l.db) && MarksOk(db) && Grown(Snapped(l).db, q.l.db) && Grown(TakeSnapshot(db), ran.db)
    ensures Same(LazyUnlessHalted(l, q), RevertUnlessHalted(db, ran), r, u)
  {
    hide Mirrors, LazyUndone, Revert;
    if !q.exit.Halted? {
      UndoMirrors(l, db, q, ran, r, u);
    }
  }

  lemma MirrorsMarks(l: Lazy, r: Remote, u: Scope, db: Db)
    requires Mirrors(l, r, u, db)
    ensures MarksOk(l.db) && MarksOk(db)
  {
  }

  /** For every script, whatever else code reads on the way: the run over the lazy database
      ends as the run over the preloaded one, and stays its unfetched remainder. */
  lemma {:induction false} ScriptOverForkAgrees(l0: Lazy, r: Remote, u: Scope, db: Db, ctx: Ctx, s: Script,
      peeks: Peeks, path: seq<nat>)
    requires Mirrors(l0, r, u, db) && InScope(u, ctx, s) && Covered(u, peeks)
    ensures MarksOk(l0.db) && MarksOk(db)
    ensures Same(LazyScript(l0, r, ctx, s, peeks, path), RunScript(db, ctx, s), r, u)
    decreases s, 0
  {
    hide Mirrors, Write, LazyStored, LazyDestroyed, Destroyed, LazyCall, HandleCall, LazyCreate, CreateContract;
    MirrorsMarks(l0, r, u, db);
    TouchMirrors(l0, r, u, db, peeks(path));
    var l := Touched(l0, r, peeks(path));
    MirrorsMarks(l, r, u, db);
    match s
    case End(_, _, _) =>
    case Destroy(ben, _) => DestroyMirrors(l, r, u, db, ctx.contract, ben);
    case SStore(key, value, refund, next) =>
      var k := Slot(ctx.contract, key);
      StoreMirrors(l, r, u, db, k, value, refund);
      ScriptOverForkAgrees(LazyStored(l, r, k, value, refund), r, u, Write(Refunded(db, refund), SetStorage(k, value)),
          ctx, next, peeks, path + [0]);
    case Emit(log, next) =>
      LogMirrors(l, r, u, db, log);
      ScriptOverForkAgrees(l.(db := Logged(l.db, log)), r, u, Logged(db, log), ctx, next, peeks, path + [0]);
    case Call(kind, addr, value, gas, child, next) =>
      CallOverForkAgrees(l, r, u, db, ctx, kind, addr, value, gas, child, peeks, path + [1]);
      var c := LazyCall(l, r, ctx, kind, addr, value, gas, child, peeks, path + [1]);
      ScriptOverForkAgrees(c.l, r, u, HandleCall(db, ctx, kind, addr, value, gas, child).db, ctx, next, peeks,
          path + [0]);
    case Create(addr, hash, value, gas, child, next) =>
      CreateOverForkAgrees(l, r, u, db, ctx.contract, addr, hash, value, gas, child, peeks, path + [1]);
      var c := LazyCreate(l, r, ctx.contract, addr, hash, value, gas, child, peeks, path + [1]);
      ScriptOverForkAgrees(c.l, r, u, CreateContract(db, ctx.contract, addr, hash, value, gas, child).db, ctx, next,
          peeks, path + [0]);
  }

  lemma {:induction false} CallOverForkAgrees(l: Lazy, r: Remote, u: Scope, db: Db, ctx: Ctx, kind: CallKind,
      addr: Address, value: U64, gas: U64, child: Script, peeks: Peeks, path: seq<nat>)
    requires Mirrors(l, r, u, db) && Covered(u, peeks) && InScope(u, CalleeCtx(ctx, kind, addr), child)
    requires ctx.contract in u.accounts && addr in u.accounts
    ensures MarksOk(l.db) && MarksOk(db)
    ensures Same(LazyCall(l, r, ctx, kind, addr, value, gas, child, peeks, path),
        HandleCall(db, ctx, kind, addr, value, gas, child), r, u)
    decreases child, 3
  {
    hide Mirrors, Write, LazyScript, RunScript, LazyExecCall, ExecCall, LazyUnlessHalted, Revert, WithAccount, Grown,
        MarksOk, InScope, Acct;
    MirrorsMarks(l, r, u, db);
    SnapMirrors(l, r, u, db);
    FetchMirrors(Snapped(l), r, u, TakeSnapshot(db), addr);
    var l1, db1 := WithAccount(Snapped(l), r, addr), TakeSnapshot(db);
    GrownSelf(db1);
    match kind
    case StaticCall => EnterAgrees(l, l1, r, u, db, db1, Ctx(addr, ctx.contract), child, peeks, path);
    case PlainCall => ExecCallOverForkAgrees(l, r, u, db, ctx.contract, addr, value, gas, None, child, peeks, path);
    case _ =>
      FetchMirrors(l1, r, u, db1, ctx.contract);
      KeepsReading(l1, r, ctx.contract, addr);
      var l2 := if kind.CallCode? && value > 0 then WithAccount(l1, r, ctx.contract) else l1;
      GrownTransitive(Snapped(l).db, l1.db, l2.db);
      var callee := if kind.CallCode? then Ctx(ctx.contract, ctx.contract) else ctx;
      EnterAgrees(l, l2, r, u, db, db1, callee, child, peeks, path);
  }

  lemma GrownSelf(db: Db)
    requires MarksOk(db)
    ensures Grown(db, db)
  {
  }

  /** Fetching one account does not change what another, already fetched, reads as. */
  lemma KeepsReading(l: Lazy, r: Remote, a: Address, b: Address)
    requires b in l.accounts
    ensures Acct(WithAccount(l, r, a).db.world, b) == Acct(l.db.world, b)
  {
  }

  lemma {:induction false} ExecCallOverForkAgrees(l: Lazy, r: Remote, u: Scope, db: Db, caller: Address,
      contract: Address, value: Word, gas: U64, preCost: Option<nat>, child: Script, peeks: Peeks, path: seq<nat>)
    requires Mirrors(l, r, u, db) && Covered(u, peeks) && InScope(u, Ctx(contract, caller), child)
    requires caller in u.accounts && contract in u.accounts
    ensures MarksOk(l.db) && MarksOk(db)
    ensures Same(LazyExecCall(l, r, caller, contract, value, gas, preCost, child, peeks, path),
        ExecCall(db, caller, contract, value, gas, preCost, child), r, u)
    decreases child, 2
  {
    hide Mirrors, Write, LazyTransfer, Transfer, LazyScript, RunScript, LazyUndone, LazyUnlessHalted, Revert;
    MirrorsMarks(l, r, u, db);
    if !Precompiled(contract) {
      SnapMirrors(l, r, u, db);
      FetchMirrors(Snapped(l), r, u, TakeSnapshot(db), caller);
      var l1, db1 := if value == 0 then Snapped(l) else WithAccount(Snapped(l), r, caller), TakeSnapshot(db);
      if value != 0 && Acct(db1.world, caller).balance < value {
        UndoMirrors(l, db, LazyRan(l1, Failed, 0, []), Ran(db1, Failed, 0, [], true, true), r, u);
      } else {
        TransferMirrors(l1, r, u, db1, caller, contract, value);
        var l2, db2 := if value == 0 then l1 else LazyTransfer(l1, r, caller, contract, value),
                       if value == 0 then db1 else Transfer(db1, caller, contract, value);
        FetchMirrors(l2, r, u, db2, contract);
        var l3 := WithAccount(l2, r, contract);
        if Acct(db2.world, contract).code != [] {
          EnterAgrees(l, l3, r, u, db, db2, Ctx(contract, caller), child, peeks, path);
        }
      }
    }
  }

  /** A frame entered from `l` and `db`, in states that grew from their snapshots. */
  lemma {:induction false} EnterAgrees(l: Lazy, l1: Lazy, r: Remote, u: Scope, db: Db, db1: Db, callee: Ctx,
      child: Script, peeks: Peeks, path: seq<nat>)
    requires Mirrors(l, r, u, db) && Mirrors(l1, r, u, db1) && InScope(u, callee, child) && Covered(u, peeks)
    requires MarksOk(l.db) && MarksOk(db) && Grown(Snapped(l).db, l1.db) && Grown(TakeSnapshot(db), db1)
    ensures var q, ran := LazyScript(l1, r, callee, child, peeks, path), RunScript(db1, callee, child);
            && Grown(Snapped(l).db, q.l.db) && Grown(TakeSnapshot(db), ran.db) && Same(q, ran, r, u)
            && Same(LazyUnlessHalted(l, q), RevertUnlessHalted(db, ran), r, u)
            && Mirrors(LazyUndone(l, q).l, r, u, Revert(ran.db, |db.snapshots|))
    decreases child, 1
  {
    hide Mirrors, LazyScript, RunScript, LazyUndone, LazyUnlessHalted, RevertUnlessHalted, Revert;
    ScriptOverForkAgrees(l1, r, u, db1, callee, child, peeks, path);
    var q, ran := LazyScript(l1, r, callee, child, peeks, path), RunScript(db1, callee, child);
    GrownTransitive(Snapped(l).db, l1.db, q.l.db);
    GrownTransitive(TakeSnapshot(db), db1, ran.db);
    UnlessHaltedMirrors(l, db, q, ran, r, u);
    UndoMirrors(l, db, q, ran, r, u);
  }

  lemma {:induction false} CreateOverForkAgrees(l: Lazy, r: Remote, u: Scope, db: Db, from: Address, addr: Address,
      codeHash: Hash, value: Word, gas: U64, child: Script, peeks: Peeks, path: seq<nat>)
    requires Mirrors(l, r, u, db) && Covered(u, peeks) && InScope(u, Ctx(addr, from), child) && from in u.accounts
    ensures MarksOk(l.db) && MarksOk(db)
    ensures Same(LazyCreate(l, r, from, addr, codeHash, value, gas, child, peeks, path),
        CreateContract(db, from, addr, codeHash, value, gas, child), r, u)
    decreases child, 2
  {
    hide Mirrors, Write, Written, LazyTransfer, Transfer, LazyScript, RunScript, LazyUndone, Revert, LazyBumped,
        Bumped, LazyOpened, Opened, Creatable, WithAccount, MarksOk, Acct;
    MirrorsMarks(l, r, u, db);
    SnapMirrors(l, r, u, db);
    BumpMirrors(Snapped(l), r, u, TakeSnapshot(db), from);
    OpenMirrors(LazyBumped(Snapped(l), r, from), r, u, Bumped(TakeSnapshot(db), from), addr);
    var l1, db1 := LazyOpened(LazyBumped(Snapped(l), r, from), r, addr), Opened(Bumped(TakeSnapshot(db), from), addr);
    FetchMirrors(l1, r, u, db1, from);
    var l2 := if value == 0 then l1 else WithAccount(l1, r, from);
    if value != 0 && Acct(db1.world, from).balance < value {
      UndoMirrors(l, db, LazyRan(l2, Failed, 0, []), Ran(db1, Failed, 0, [], true, true), r, u);
    } else {
      TransferMirrors(l2, r, u, db1, from, addr, value);
      var l3, db3 := if value == 0 then l2 else LazyTransfer(l2, r, from, addr, value),
                     if value == 0 then db1 else Transfer(db1, from, addr, value);
      EnterAgrees(l, l3, r, u, db, db3, Ctx(addr, from), child, peeks, path);
      var q, ran := LazyScript(l3, r, Ctx(addr, from), child, peeks, path), RunScript(db3, Ctx(addr, from), child);
      if q.exit.Halted? {
        WriteMirrors(q.l, r, u, ran.db, SetCode(addr, q.output, codeHash));
      }
    }
  }

  // ---------- transactions ----------

  datatype LazyReceipt = LazyReceipt(l: Lazy, status: Status, gasLeft: U64, used: U64, bonus: U64)

  function LazyBought(l: Lazy, r: Remote, m: Message): (l': Lazy)
    ensures MarksOk(l.db) ==> Grown(l.db, l'.db)
  {
    LazyBumped(Written(l, r, SubBalance(m.from, Upfront(m))), r, m.from)
  }

  ghost function LazyMessage(l: Lazy, r: Remote, m: Message, c: Callee, peeks: Peeks): (q: LazyRan)
    requires MarksOk(l.db) && (m.intrinsic.Some? ==> m.intrinsic.value <= m.gas)
    ensures Grown(l.db, q.l.db)
  {
    if m.to.Some? then LazyExecCall(l, r, m.from, m.to.value, m.value, GasToRun(m), c.preCost, c.script, peeks, [])
    else LazyCreate(l, r, m.from, c.newAddr, c.codeHash, m.value, GasToRun(m), c.script, peeks, [])
  }

  /** The unused gas and the refund go back to the sender. */
  function LazyReturned(l: Lazy, r: Remote, m: Message, gasLeft: U64, bonus: U64): Lazy {
    var l1 := Written(l, r, AddBalance(m.from, Wrap256(Fee(gasLeft, m.gasPrice))));
    if bonus > 0 then Written(l1, r, AddBalance(m.from, Wrap64(Fee(bonus, m.gasPrice)))) else l1
  }

  function LazyFinalised(l: Lazy): Lazy {
    l.(db := Finalised(l.db))
  }

  function LazyTipPaid(l: Lazy, r: Remote, cfg: Config, m: Message, used: U64): Lazy {
    var fee := Wrap256(Fee(used, Tip(cfg, m)));
    if m.gasPrice > cfg.baseFee && fee != 0 then Written(l, r, AddBalance(cfg.coinbase, fee)) else l
  }

  /** The lazy database as Finalise meets it. */
  ghost function LazyUnsettled(l: Lazy, r: Remote, m: Message, c: Callee, peeks: Peeks): Lazy
    requires MarksOk(l.db) && (m.intrinsic.Some? ==> m.intrinsic.value <= m.gas)
  {
    var q := LazyMessage(LazyBought(WithAccount(l, r, m.from), r, m), r, m, c, peeks);
    LazyReturned(q.l, r, m, q.gasLeft, GrantedRefund(q.l.db.refund, Wrap64(m.gas - q.gasLeft), q.exit))
  }

  lemma FetchKeepsMarks(l: Lazy, r: Remote, a: Address)
    requires MarksOk(l.db)
    ensures MarksOk(WithAccount(l, r, a).db)
  {
  }

  /** EVM.Execute over the fork database. */
  ghost function LazyExecute(l: Lazy, r: Remote, cfg: Config, m: Message, c: Callee, peeks: Peeks): (rec: LazyReceipt)
    requires MarksOk(l.db)
    ensures MarksOk(rec.l.db)
  {
    hide Written, LazyBumped, LazyReturned, Upfront, Finalised, Acct, Wrap256, Wrap64, Fee;
    FetchKeepsMarks(l, r, m.from);
    var l0 := WithAccount(l, r, m.from);
    if Acct(l0.db.world, m.from).balance < Upfront(m) then LazyReceipt(l0, InsufficientFunds, 0, m.gas, 0)
    else
      var l1 := LazyBought(l0, r, m);
      if m.intrinsic.Some? && m.gas < m.intrinsic.value then
        LazyReceipt(Written(l1, r, AddBalance(m.from, Upfront(m))), IntrinsicTooLow, 0, m.gas, 0)
      else
        var q := LazyMessage(l1, r, m, c, peeks);
        var used := Wrap64(m.gas - q.gasLeft);
        var bonus := GrantedRefund(q.l.db.refund, used, q.exit);
        var l2 := LazyFinalised(LazyUnsettled(l, r, m, c, peeks));
        FinalisedMarks(LazyUnsettled(l, r, m, c, peeks).db);
        LazyReceipt(LazyTipPaid(l2, r, cfg, m, used), Done(q.exit), q.gasLeft, used, bonus)
  }

  predicate MessageInScope(u: Scope, cfg: Config, m: Message, c: Callee) {
    m.from in u.accounts && cfg.coinbase in u.accounts
    && InScope(u, Ctx(if m.to.Some? then m.to.value else c.newAddr, m.from), c.script)
  }

  // ---------- Finalise ----------

  /** No account about to be deleted has an unfetched slot that is not zero on the remote chain. */
  predicate NothingLeftBehind(l: Lazy, r: Remote, u: Scope) {
    forall s :: s in u.slots && s !in l.slots && Doomed(l.db.world.accounts, s.addr) ==> r.slot(s) == 0
  }

  /** Alike but perhaps for storage. */
  predicate AlikeButStorage(db: Db, db': Db) {
    db' == db.(world := db.world.(storage := db'.world.storage))
  }

  lemma DoomedAlike(l: Lazy, r: Remote, u: Scope, a: Address)
    requires OnlyFetched(l)
    ensures Doomed(Preloaded(l, r, u).world.accounts, a) <==> Doomed(l.db.world.accounts, a)
  {
  }

  lemma FinaliseKeepsFetched(l: Lazy)
    requires OnlyFetched(l)
    ensures OnlyFetched(LazyFinalised(l))
  {
  }

  lemma FinalisedAccounts(l: Lazy, r: Remote, u: Scope)
    requires OnlyFetched(l)
    ensures Finalised(Preloaded(l, r, u)).world.accounts == Preloaded(LazyFinalised(l), r, u).world.accounts
  {
    var m, m' := Finalised(Preloaded(l, r, u)).world.accounts, Preloaded(LazyFinalised(l), r, u).world.accounts;
    forall a: Address ensures (a in m <==> a in m') && (a in m ==> m[a] == m'[a]) {
      DoomedAlike(l, r, u, a);
    }
  }

  /** A slot after Finalise, over both databases. */
  lemma FinalisedSlot(l: Lazy, r: Remote, u: Scope, s: Slot)
    requires OnlyFetched(l)
    ensures var w, w' := Finalised(Preloaded(l, r, u)).world, Preloaded(LazyFinalised(l), r, u).world;
            Load(w.storage, s) == Load(w'.storage, s)
            <==> (s in u.slots && s !in l.slots && Doomed(l.db.world.accounts, s.addr) ==> r.slot(s) == 0)
  {
    hide Doomed;
    DoomedAlike(l, r, u, s.addr);
  }

  /** Finalise deletes the same accounts over both databases. A deleted account's slots that
      were never fetched survive it: they will be fetched again. So storage reads alike
      afterwards exactly when those were all zero. */
  lemma FinaliseAgreesIff(l: Lazy, r: Remote, u: Scope)
    requires OnlyFetched(l)
    ensures var l' := LazyFinalised(l);
            && OnlyFetched(l')
            && AlikeButStorage(Finalised(Preloaded(l, r, u)), Preloaded(l', r, u))
            && (SameReads(Preloaded(l', r, u).world, Finalised(Preloaded(l, r, u)).world)
                <==> NothingLeftBehind(l, r, u))
  {
    hide Finalised, PreloadWorld, OnlyFetched, Doomed;
    FinaliseKeepsFetched(l);
    FinalisedAccounts(l, r, u);
    FinalisedRest(l, r, u);
    forall s: Slot
      ensures var w, w' := Finalised(Preloaded(l, r, u)).world, Preloaded(LazyFinalised(l), r, u).world;
              Load(w.storage, s) == Load(w'.storage, s)
              <==> (s in u.slots && s !in l.slots && Doomed(l.db.world.accounts, s.addr) ==> r.slot(s) == 0)
    {
      FinalisedSlot(l, r, u, s);
    }
  }

  lemma FinalisedRest(l: Lazy, r: Remote, u: Scope)
    ensures var db, db' := Finalised(Preloaded(l, r, u)), Preloaded(LazyFinalised(l), r, u);
            db' == db.(world := db.world.(accounts := db'.world.accounts, storage := db'.world.storage))
  {
  }

  const CREATE_7 := Change(CreateAccount(7))
  const DESTROY_7 := Change(Suicide(7))

  /** A slot of an account created and destroyed over the fork, never fetched: deleted with the
      account over the preloaded database, it comes back over the fork with the next read. */
  lemma DestroyedSlotComesBack(r: Remote)
    requires r.slot(Slot(7, 1)) == 5
    ensures var l := LazyStep(LazyStep(FRESH, r, CREATE_7).0, r, DESTROY_7).0;
            var db := EagerStep(EagerStep(Preloaded(FRESH, r, Scope({7}, {Slot(7, 1)})), CREATE_7).0, DESTROY_7).0;
            && LazyStep(LazyFinalised(l), r, ReadStorage(Slot(7, 1))).1 == HashIs(5)
            && EagerStep(Finalised(db), ReadStorage(Slot(7, 1))).1 == HashIs(0)
  {
    DestroyedOverFork(r);
    DestroyedOverPreloaded(r);
    hide LazyStep, EagerStep, Finalised;
  }

  lemma DestroyedOverFork(r: Remote)
    requires r.slot(Slot(7, 1)) == 5
    ensures var l := LazyStep(LazyStep(FRESH, r, CREATE_7).0, r, DESTROY_7).0;
            LazyStep(LazyFinalised(l), r, ReadStorage(Slot(7, 1))).1 == HashIs(5)
  {
    var l := LazyStep(LazyStep(FRESH, r, CREATE_7).0, r, DESTROY_7).0;
    assert l.slots == {};
  }

  lemma DestroyedOverPreloaded(r: Remote)
    ensures var db := EagerStep(EagerStep(Preloaded(FRESH, r, Scope({7}, {Slot(7, 1)})), CREATE_7).0, DESTROY_7).0;
            EagerStep(Finalised(db), ReadStorage(Slot(7, 1))).1 == HashIs(0)
  {
    hide Preloaded;
    var pre := Preloaded(FRESH, r, Scope({7}, {Slot(7, 1)}));
    var db := Write(Write(pre, CreateAccount(7)), Suicide(7));
    assert Doomed(db.world.accounts, 7);
  }

  // ---------- a transaction over the fork ----------

  lemma BuyingMirrors(l: Lazy, r: Remote, u: Scope, db: Db, m: Message)
    requires Mirrors(l, r, u, db) && m.from in u.accounts
    ensures Mirrors(LazyBought(l, r, m), r, u, Bought(db, m))
  {
    hide Mirrors, Written, Write, LazyBumped, Bumped, Upfront;
    WriteMirrors(l, r, u, db, SubBalance(m.from, Upfront(m)));
    BumpMirrors(Written(l, r, SubBalance(m.from, Upfront(m))), r, u, Write(db, SubBalance(m.from, Upfront(m))), m.from);
  }

  lemma MessageAgrees(l: Lazy, r: Remote, u: Scope, db: Db, cfg: Config, m: Message, c: Callee, peeks: Peeks)
    requires Mirrors(l, r, u, db) && MessageInScope(u, cfg, m, c) && Covered(u, peeks)
    requires m.intrinsic.Some? ==> m.intrinsic.value <= m.gas
    ensures MarksOk(l.db) && MarksOk(db) && Same(LazyMessage(l, r, m, c, peeks), RunMessage(db, m, c), r, u)
  {
    hide Mirrors, LazyExecCall, ExecCall, LazyCreate, CreateContract;
    MirrorsMarks(l, r, u, db);
    if m.to.Some? {
      ScopeOfContract(u, Ctx(m.to.value, m.from), c.script);
      ExecCallOverForkAgrees(l, r, u, db, m.from, m.to.value, m.value, GasToRun(m), c.preCost, c.script, peeks, []);
    } else {
      CreateOverForkAgrees(l, r, u, db, m.from, c.newAddr, c.codeHash, m.value, GasToRun(m), c.script, peeks, []);
    }
  }

  lemma ScopeOfContract(u: Scope, ctx: Ctx, s: Script)
    requires InScope(u, ctx, s)
    ensures ctx.contract in u.accounts
  {
  }

  lemma ReturningMirrors(l: Lazy, r: Remote, u: Scope, db: Db, m: Message, gasLeft: U64, bonus: U64)
    requires Mirrors(l, r, u, db) && m.from in u.accounts
    ensures Mirrors(LazyReturned(l, r, m, gasLeft, bonus), r, u, BonusPaid(GasReturned(db, m, gasLeft), m, bonus))
  {
    hide Mirrors, Written, Write, Fee, Wrap256, Wrap64;
    var back := AddBalance(m.from, Wrap256(Fee(gasLeft, m.gasPrice)));
    WriteMirrors(l, r, u, db, back);
    WriteMirrors(Written(l, r, back), r, u, Write(db, back), AddBalance(m.from, Wrap64(Fee(bonus, m.gasPrice))));
  }

  /** The tip goes to the same account over two databases that differ in storage. */
  lemma TippingKeepsAlike(l: Lazy, r: Remote, u: Scope, db: Db, cfg: Config, m: Message, used: U64)
    requires OnlyFetched(l) && MarksOk(l.db) && cfg.coinbase in u.accounts
    requires AlikeButStorage(db, Preloaded(l, r, u))
    ensures var l', db' := LazyTipPaid(l, r, cfg, m, used), TipPaid(db, cfg, m, used);
            && AlikeButStorage(db', Preloaded(l', r, u)) && OnlyFetched(l')
            && db'.world.storage == db.world.storage
            && Preloaded(l', r, u).world.storage == Preloaded(l, r, u).world.storage
  {
    hide Preloaded, OnlyFetched, Written, Write, Fee, Wrap256, Wrap64;
    var fee := Wrap256(Fee(used, Tip(cfg, m)));
    var pre := Preloaded(l, r, u);
    PreloadedMarks(l, r, u);
    assert Mirrors(l, r, u, pre);
    if m.gasPrice > cfg.baseFee && fee != 0 {
      WriteMirrors(l, r, u, pre, AddBalance(cfg.coinbase, fee));
      AddKeepsAlike(db, pre, cfg.coinbase, fee);
    }
  }

  lemma AddKeepsAlike(db: Db, db': Db, a: Address, v: Word)
    requires AlikeButStorage(db, db')
    ensures AlikeButStorage(Write(db, AddBalance(a, v)), Write(db', AddBalance(a, v)))
    ensures Write(db, AddBalance(a, v)).world.storage == db.world.storage
    ensures Write(db', AddBalance(a, v)).world.storage == db'.world.storage
  {
  }

  lemma PreloadedMarks(l: Lazy, r: Remote, u: Scope)
    requires MarksOk(l.db)
    ensures MarksOk(Preloaded(l, r, u))
  {
  }

  /** Over the fork database a transaction has the same outcome, gas, refund, accounts, logs
      and committed values as over the preloaded one. When it is turned away, or when the
      accounts it deletes leave nothing unfetched behind, storage reads the same too, and
      only then. */
  lemma ExecuteOverForkAgrees(l: Lazy, r: Remote, u: Scope, db: Db, cfg: Config, m: Message, c: Callee, peeks: Peeks)
    requires Mirrors(l, r, u, db) && MessageInScope(u, cfg, m, c) && Covered(u, peeks)
    ensures MarksOk(l.db) && MarksOk(db)
    ensures var q, e := LazyExecute(l, r, cfg, m, c, peeks), Execute(db, cfg, m, c);
            && q.status == e.status && q.gasLeft == e.gasLeft && q.used == e.used && q.bonus == e.bonus
            && OnlyFetched(q.l) && AlikeButStorage(e.db, Preloaded(q.l, r, u))
            && (if e.status.Done? then
                  (m.intrinsic.Some? ==> m.intrinsic.value <= m.gas)
                  && (SameReads(Preloaded(q.l, r, u).world, e.db.world)
                      <==> NothingLeftBehind(LazyUnsettled(l, r, m, c, peeks), r, u))
                else Preloaded(q.l, r, u) == e.db)
  {
    hide Mirrors, Written, Write, Upfront, LazyBought, Bought, LazyMessage, RunMessage, LazyReturned, GasReturned,
        BonusPaid,
      LazyTipPaid, TipPaid, Finalised, LazyFinalised, Preloaded, Covered, MessageInScope, OnlyFetched, WithAccount;
    MirrorsMarks(l, r, u, db);
    SenderInScope(u, cfg, m, c);
    FetchMirrors(l, r, u, db, m.from);
    var l0 := WithAccount(l, r, m.from);
    MirrorsMeans(l0, r, u, db);
    if Acct(db.world, m.from).balance >= Upfront(m) {
      BuyingMirrors(l0, r, u, db, m);
      var l1, db1 := LazyBought(l0, r, m), Bought(db, m);
      if m.intrinsic.Some? && m.gas < m.intrinsic.value {
        WriteMirrors(l1, r, u, db1, AddBalance(m.from, Upfront(m)));
        MirrorsMeans(Written(l1, r, AddBalance(m.from, Upfront(m))), r, u, Write(db1, AddBalance(m.from, Upfront(m))));
      } else {
        MessageAgrees(l1, r, u, db1, cfg, m, c, peeks);
        var q, ran := LazyMessage(l1, r, m, c, peeks), RunMessage(db1, m, c);
        MirrorsFacts(q.l, r, u, ran.db);
        var used := Wrap64(m.gas - ran.gasLeft);
        var bonus := GrantedRefund(ran.db.refund, used, ran.exit);
        ReturningMirrors(q.l, r, u, ran.db, m, ran.gasLeft, bonus);
        SettlingAgrees(LazyReturned(q.l, r, m, ran.gasLeft, bonus), r, u,
            BonusPaid(GasReturned(ran.db, m, ran.gasLeft), m, bonus), cfg, m, used);
      }
    }
  }

  lemma SenderInScope(u: Scope, cfg: Config, m: Message, c: Callee)
    requires MessageInScope(u, cfg, m, c)
    ensures m.from in u.accounts && cfg.coinbase in u.accounts
  {
  }

  lemma MirrorsMeans(l: Lazy, r: Remote, u: Scope, db: Db)
    requires Mirrors(l, r, u, db)
    ensures OnlyFetched(l) && Preloaded(l, r, u) == db
  {
  }

  /** Finalise and the tip. */
  lemma SettlingAgrees(l: Lazy, r: Remote, u: Scope, db: Db, cfg: Config, m: Message, used: U64)
    requires Mirrors(l, r, u, db) && cfg.coinbase in u.accounts
    ensures var l', db' := LazyTipPaid(LazyFinalised(l), r, cfg, m, used), TipPaid(Finalised(db), cfg, m, used);
            && OnlyFetched(l') && AlikeButStorage(db', Preloaded(l', r, u))
            && (SameReads(Preloaded(l', r, u).world, db'.world) <==> NothingLeftBehind(l, r, u))
  {
    hide LazyTipPaid, TipPaid, Preloaded, OnlyFetched, NothingLeftBehind, Finalised;
    MirrorsMeans(l, r, u, db);
    FinaliseAgreesIff(l, r, u);
    FinalisedMarks(l.db);
    TippingKeepsAlike(LazyFinalised(l), r, u, Finalised(db), cfg, m, used);
    var l1, l' := LazyFinalised(l), LazyTipPaid(LazyFinalised(l), r, cfg, m, used);
    var db' := TipPaid(Finalised(db), cfg, m, used);
    SameReadsIsStorage(Preloaded(l1, r, u), Finalised(db));
    SameReadsIsStorage(Preloaded(l', r, u), db');
  }

  lemma FinalisedMarks(db: Db)
    ensures MarksOk(Finalised(db))
  {
  }

  lemma SameReadsIsStorage(db: Db, db': Db)
    requires AlikeButStorage(db', db)
    ensures SameReads(db.world, db'.world)
            <==> forall s: Slot :: Load(db.world.storage, s) == Load(db'.world.storage, s)
  {
  }
}
