/** The total of all balances, and that calls only move it around. */
module Wei {
  import opened Types
  import opened State
  import opened Journal
  import opened Evm
  import opened Locality

  function Bal(w: World, a: Address): Word {
    Acct(w, a).balance
  }

  ghost function SumOver(s: set<Address>, w: World): nat
    decreases |s|
  {
    if s == {} then 0 else var a :| a in s; Bal(w, a) + SumOver(s - {a}, w)
  }

  ghost function Total(w: World): nat {
    SumOver(w.accounts.Keys, w)
  }

  lemma {:induction false} SumPick(s: set<Address>, w: World, a: Address)
    requires a in s
    ensures SumOver(s, w) == Bal(w, a) + SumOver(s - {a}, w)
    decreases |s|
  {
    var b :| b in s && SumOver(s, w) == Bal(w, b) + SumOver(s - {b}, w);
    if a != b {
      SumPick(s - {b}, w, a);
      SumPick(s - {a}, w, b);
      assert s - {b} - {a} == s - {a} - {b};
    }
  }

  lemma {:induction false} SumSame(s: set<Address>, w: World, v: World)
    requires forall a :: a in s ==> Bal(w, a) == Bal(v, a)
    ensures SumOver(s, w) == SumOver(s, v)
    decreases |s|
  {
    if s != {} {
      var a :| a in s;
      SumPick(s, w, a);
      SumPick(s, v, a);
      SumSame(s - {a}, w, v);
    }
  }

  lemma {:induction false} TotalOver(s: set<Address>, w: World)
    requires w.accounts.Keys <= s
    ensures SumOver(s, w) == Total(w)
    decreases |s|
  {
    if a :| a in s && a !in w.accounts {
      SumPick(s, w, a);
      TotalOver(s - {a}, w);
    } else {
      assert s == w.accounts.Keys;
    }
  }

  /** A change of one balance changes the total by the same amount. */
  lemma TotalChange(w: World, v: World, a: Address)
    requires forall b: Address :: b != a ==> Bal(w, b) == Bal(v, b)
    ensures Total(v) - Bal(v, a) == Total(w) - Bal(w, a) && Total(w) >= Bal(w, a)
  {
    var s := w.accounts.Keys + v.accounts.Keys + {a};
    TotalOver(s, w);
    TotalOver(s, v);
    SumPick(s, w, a);
    SumPick(s, v, a);
    SumSame(s - {a}, w, v);
  }

  lemma SameReadsSameTotal(w: World, v: World)
    requires SameReads(w, v)
    ensures Total(w) == Total(v)
  {
    forall b: Address ensures Bal(w, b) == Bal(v, b) {
      assert Acct(w, b) == Acct(v, b);
    }
    TotalChange(w, v, 0);
  }

  lemma BalancesFit(w: World, a: Address, b: Address)
    ensures Bal(w, a) <= Total(w)
    ensures a != b ==> Bal(w, a) + Bal(w, b) <= Total(w)
  {
    var s := w.accounts.Keys + {a, b};
    TotalOver(s, w);
    SumPick(s, w, a);
    if a != b {
      SumPick(s - {a}, w, b);
    }
  }

  lemma AddChanges(w: World, a: Address, v: Word)
    requires Bal(w, a) + v < TWO_256
    ensures Total(Apply(w, AddBalance(a, v))) == Total(w) + v
  {
    TotalChange(w, Apply(w, AddBalance(a, v)), a);
  }

  lemma SubChanges(w: World, a: Address, v: Word)
    requires v <= Bal(w, a)
    ensures Total(Apply(w, SubBalance(a, v))) == Total(w) - v
  {
    TotalChange(w, Apply(w, SubBalance(a, v)), a);
  }

  predicate MovesNoWei(op: Op) {
    op.SetNonce? || op.SetCode? || op.CreateAccount? || op.SetStorage? || op.Suicide?
  }

  lemma MovingNoWei(w: World, op: Op)
    requires MovesNoWei(op)
    ensures Total(Apply(w, op)) == Total(w)
  {
    TotalChange(w, Apply(w, op), 0);
  }

  /** A funded transfer conserves wei, also to oneself. */
  lemma TransferConserves(db: Db, from: Address, to: Address, v: Word)
    requires v <= Bal(db.world, from) && Total(db.world) < TWO_256
    ensures Total(Transfer(db, from, to, v).world) == Total(db.world)
  {
    var w1 := Apply(db.world, SubBalance(from, v));
    SubChanges(db.world, from, v);
    BalancesFit(w1, to, to);
    AddChanges(w1, to, v);
  }

  /** SELFDESTRUCT conserves wei, also when the contract names itself as beneficiary and the
      intermediate doubled balance wraps. */
  lemma DestroyConserves(db: Db, contract: Address, ben: Address)
    requires Total(db.world) < TWO_256
    ensures Total(Destroyed(db, contract, ben).world) == Total(db.world)
  {
    var bal := Bal(db.world, contract);
    var w1 := Apply(db.world, AddBalance(ben, bal));
    var w2 := if bal == 0 then db.world else Apply(w1, SubBalance(contract, bal));
    if bal != 0 {
      if ben == contract {
        assert Bal(w2, contract) == bal;
        TotalChange(db.world, w2, contract);
      } else {
        BalancesFit(db.world, ben, contract);
        AddChanges(db.world, ben, bal);
        SubChanges(w1, contract, bal);
      }
    }
    MovingNoWei(w2, Suicide(contract));
  }

  lemma OpenConserves(db: Db, from: Address, addr: Address)
    ensures Total(Opened(Bumped(db, from), addr).world) == Total(db.world)
    ensures Recorded(db.world) ==> Recorded(Opened(Bumped(db, from), addr).world)
  {
    var db1 := Bumped(db, from);
    MovingNoWei(db.world, SetNonce(from, Wrap64(Acct(db.world, from).nonce + 1)));
    MovingNoWei(db1.world, CreateAccount(addr));
    MovingNoWei(Write(db1, CreateAccount(addr)).world, SetNonce(addr, 1));
  }

  // ---------- whole runs ----------

  /** A database that still agrees with the reference it agreed with before holds as much wei. */
  lemma RestoredConserves(db: Db, back: Db, cur: Ref)
    requires Agrees(db.world, cur) && Agrees(back.world, cur)
    ensures Total(back.world) == Total(db.world)
  {
    SameReferenceSameReads(db.world, back.world, cur);
    SameReadsSameTotal(back.world, db.world);
  }

  lemma RefOfStands(db: Db)
    requires MarksOk(db) && Recorded(db.world)
    ensures Stands(db, RefOf(db.world))
  {
  }

  lemma AlikeMeans(r: Ran, q: RefRan)
    requires Alike(r, q)
    ensures MarksOk(r.db) && Recorded(r.db.world) && Agrees(r.db.world, q.ref) && r.exit == q.exit
  {
  }

  /** Every run of every script, with every nesting and failure, conserves wei, as long as no
      creation that is undone met an account with something to lose. */
  lemma {:induction false} ScriptConserves(db: Db, ctx: Ctx, s: Script)
    requires MarksOk(db) && Recorded(db.world) && RunScript(db, ctx, s).lossless && Total(db.world) < TWO_256
    ensures Total(RunScript(db, ctx, s).db.world) == Total(db.world)
    decreases s, 0
  {
    hide Total, Write, HandleCall, CreateContract, Destroyed, Recorded;
    match s
    case End(_, _, _) =>
    case Destroy(ben, _) => DestroyConserves(db, ctx.contract, ben);
    case SStore(key, value, refund, next) =>
      StoreConserves(Refunded(db, refund), Slot(ctx.contract, key), value);
      ScriptConserves(Write(Refunded(db, refund), SetStorage(Slot(ctx.contract, key), value)), ctx, next);
    case Emit(l, next) => ScriptConserves(Logged(db, l), ctx, next);
    case Call(kind, addr, value, gas, child, next) =>
      CallConserves(db, ctx, kind, addr, value, gas, child);
      ScriptConserves(HandleCall(db, ctx, kind, addr, value, gas, child).db, ctx, next);
    case Create(addr, hash, value, gas, child, next) =>
      CreateConserves(db, ctx.contract, addr, hash, value, gas, child);
      ScriptConserves(CreateContract(db, ctx.contract, addr, hash, value, gas, child).db, ctx, next);
  }

  lemma StoreConserves(db: Db, s: Slot, v: Hash)
    ensures Total(Write(db, SetStorage(s, v)).world) == Total(db.world)
    ensures Recorded(db.world) ==> Recorded(Write(db, SetStorage(s, v)).world)
  {
    MovingNoWei(db.world, SetStorage(s, v));
  }

  lemma {:induction false} CallConserves(db: Db, ctx: Ctx, kind: CallKind, addr: Address, value: U64, gas: U64,
      child: Script)
    requires MarksOk(db) && Recorded(db.world) && HandleCall(db, ctx, kind, addr, value, gas, child).lossless
    requires Total(db.world) < TWO_256
    ensures var r := HandleCall(db, ctx, kind, addr, value, gas, child);
            Recorded(r.db.world) && Total(r.db.world) == Total(db.world)
    decreases child, 3
  {
    hide Total, Agrees, RefOf, RunScript, RefScript, ExecCall, RefExecCall, Revert, Stands, Alike, Recorded, RefCall;
    var cur, r := RefOf(db.world), HandleCall(db, ctx, kind, addr, value, gas, child);
    var q := RefCall(AsCoded, cur, ctx, kind, addr, value, gas, child);
    RefOfStands(db);
    LosslessCall(AsCoded, db, cur, ctx, kind, addr, value, gas, child);
    AlikeMeans(r, q);
    if r.exit.Failed? || (r.exit.Reverted? && !kind.StaticCall?) {
      RefCallRestores(cur, ctx, kind, addr, value, gas, child);
      StandsAgrees(db, cur);
      RestoredConserves(db, r.db, cur);
    } else {
      match kind
      case PlainCall => ExecCallConserves(db, ctx.contract, addr, value, gas, None, child);
      case StaticCall => ScriptConserves(TakeSnapshot(db), Ctx(addr, ctx.contract), child);
      case CallCode =>
        if Acct(db.world, addr).code != [] {
          ScriptConserves(TakeSnapshot(db), Ctx(ctx.contract, ctx.contract), child);
        }
      case DelegateCall =>
        if Acct(db.world, addr).code != [] {
          ScriptConserves(TakeSnapshot(db), ctx, child);
        }
    }
  }

  lemma {:induction false} ExecCallConserves(db: Db, caller: Address, contract: Address, value: Word, gas: U64,
      preCost: Option<nat>, child: Script)
    requires MarksOk(db) && Recorded(db.world) && ExecCall(db, caller, contract, value, gas, preCost, child).lossless
    requires Total(db.world) < TWO_256
    ensures var r := ExecCall(db, caller, contract, value, gas, preCost, child);
            Recorded(r.db.world) && Total(r.db.world) == Total(db.world)
    decreases child, 2
  {
    hide Total, Agrees, RefOf, RunScript, RefScript, Revert, Stands, Alike, Recorded, RefExecCall, Transfer;
    var cur, r := RefOf(db.world), ExecCall(db, caller, contract, value, gas, preCost, child);
    var q := RefExecCall(AsCoded, cur, caller, contract, value, gas, preCost, child);
    RefOfStands(db);
    LosslessExecCall(AsCoded, db, cur, caller, contract, value, gas, preCost, child);
    AlikeMeans(r, q);
    if !r.exit.Halted? {
      RefExecCallRestores(cur, caller, contract, value, gas, preCost, child);
      StandsAgrees(db, cur);
      RestoredConserves(db, r.db, cur);
    } else if !Precompiled(contract) {
      var db1 := TakeSnapshot(db);
      if value != 0 {
        TransferConserves(db1, caller, contract, value);
        TransferRecorded(db1, caller, contract, value);
        db1 := Transfer(db1, caller, contract, value);
      }
      if Acct(db1.world, contract).code != [] {
        ScriptConserves(db1, Ctx(contract, caller), child);
      }
    }
  }

  lemma TransferRecorded(db: Db, from: Address, to: Address, v: Word)
    requires Recorded(db.world)
    ensures Recorded(Transfer(db, from, to, v).world)
  {
  }

  lemma {:induction false} CreateConserves(db: Db, from: Address, addr: Address, codeHash: Hash, value: Word, gas: U64,
      child: Script)
    requires MarksOk(db) && Recorded(db.world) && CreateContract(db, from, addr, codeHash, value, gas, child).lossless
    requires Total(db.world) < TWO_256
    ensures var r := CreateContract(db, from, addr, codeHash, value, gas, child);
            Recorded(r.db.world) && Total(r.db.world) == Total(db.world)
    decreases child, 2
  {
    hide Total, Agrees, RefOf, RunScript, RefScript, Revert, Stands, Alike, Recorded, RefCreate, Write, Transfer,
        Opened, Bumped, Creatable;
    var cur, r := RefOf(db.world), CreateContract(db, from, addr, codeHash, value, gas, child);
    var q := RefCreate(AsCoded, cur, from, addr, codeHash, value, gas, child);
    RefOfStands(db);
    LosslessCreate(AsCoded, db, cur, from, addr, codeHash, value, gas, child);
    AlikeMeans(r, q);
    if !r.exit.Halted? {
      RefCreateRestores(cur, from, addr, codeHash, value, gas, child);
      StandsAgrees(db, cur);
      RestoredConserves(db, r.db, cur);
    } else {
      var db1 := Opened(Bumped(TakeSnapshot(db), from), addr);
      OpenConserves(TakeSnapshot(db), from, addr);
      if value != 0 {
        TransferConserves(db1, from, addr, value);
        TransferRecorded(db1, from, addr, value);
        db1 := Transfer(db1, from, addr, value);
      }
      ScriptConserves(db1, Ctx(addr, from), child);
      SetCodeConserves(RunScript(db1, Ctx(addr, from), child).db, addr, r.output, codeHash);
    }
  }

  lemma SetCodeConserves(db: Db, addr: Address, code: Code, codeHash: Hash)
    ensures Total(Write(db, SetCode(addr, code, codeHash)).world) == Total(db.world)
  {
    MovingNoWei(db.world, SetCode(addr, code, codeHash));
  }
}
