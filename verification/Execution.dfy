/** evm/evm.go in its own form: methods that change the state database step by step.
    Each is proved to do what the functions of module `Evm` say. */
module Execution {
  import opened Types
  import opened State
  import opened Journal
  import opened Evm
  import opened Locality
  import opened Settlement

  class EVM {
    const db: StateDB

    constructor (db: StateDB)
      ensures this.db == db
    {
      this.db := db;
    }

    method Transfer(from: Address, to: Address, v: Word)
      modifies db
      ensures db.View() == Evm.Transfer(old(db.View()), from, to, v)
    {
      db.SubBalance(from, v);
      db.AddBalance(to, v);
    }

    /** The value transfer at the start of a call or creation. */
    method Fund(from: Address, to: Address, v: Word) returns (ok: bool)
      modifies db
      ensures ok == (v == 0 || Acct(old(db.View()).world, from).balance >= v)
      ensures db.View() == if ok && v != 0 then Evm.Transfer(old(db.View()), from, to, v) else old(db.View())
    {
      hide Evm.Transfer;
      if v != 0 {
        var bal := db.GetBalance(from);
        if bal < v {
          return false;
        }
        Transfer(from, to, v);
      }
      ok := true;
    }

    /** The SELFDESTRUCT case of the interpreter. */
    method SelfDestruct(contract: Address, ben: Address)
      modifies db
      ensures db.View() == Destroyed(old(db.View()), contract, ben)
    {
      var bal := db.GetBalance(contract);
      if bal != 0 {
        db.AddBalance(ben, bal);
        db.SubBalance(contract, bal);
      }
      if contract in db.createdInTx {
        db.Suicide(contract);
      }
    }

    /** What the interpreter asks of the state, in order. */
    method Run(ctx: Ctx, s: Script) returns (exit: Exit, gasLeft: U64, output: Code)
      requires MarksOk(db.View())
      modifies db
      ensures var r := RunScript(old(db.View()), ctx, s);
              db.View() == r.db && exit == r.exit && gasLeft == r.gasLeft && output == r.output
      decreases s, 0
    {
      hide Revert, Write, Destroyed, HandleCall, CreateContract, Wrap64, MarksOk;
      match s
      case End(e, g, out) =>
        exit, gasLeft, output := e, if e.Failed? then 0 else g, out;
      case Destroy(ben, g) =>
        SelfDestruct(ctx.contract, ben);
        exit, gasLeft, output := Halted, g, [];
      case SStore(key, value, refund, next) =>
        RefundedMarks(db.View(), refund);
        db.AddRefund(refund);
        db.SetStorage(Slot(ctx.contract, key), value);
        exit, gasLeft, output := Run(ctx, next);
      case Emit(l, next) =>
        LoggedMarks(db.View(), l);
        db.AddLog(l);
        exit, gasLeft, output := Run(ctx, next);
      case Call(kind, addr, value, gas, child, next) =>
        var _, _, _ := Call(ctx, kind, addr, value, gas, child);
        exit, gasLeft, output := Run(ctx, next);
      case Create(addr, hash, value, gas, child, next) =>
        var _, _, _ := Create(ctx.contract, addr, hash, value, gas, child);
        exit, gasLeft, output := Run(ctx, next);
    }

    method Call(ctx: Ctx, kind: CallKind, addr: Address, value: U64, gas: U64, child: Script)
        returns (exit: Exit, gasLeft: U64, output: Code)
      requires MarksOk(db.View())
      modifies db
      ensures var r := HandleCall(old(db.View()), ctx, kind, addr, value, gas, child);
              db.View() == r.db && exit == r.exit && gasLeft == r.gasLeft && output == r.output
      decreases child, 3
    {
      hide Revert, Write, RunScript;
      if kind.StaticCall? {
        var snap := db.Snapshot();
        exit, gasLeft, output := Run(Ctx(addr, ctx.contract), child);
        if exit.Failed? {
          db.RevertToSnapshot(snap);
        }
      } else if kind.CallCode? || kind.DelegateCall? {
        ghost var entry := db.View();
        var snap := db.Snapshot();
        var code := db.GetCode(addr);
        if kind.CallCode? && value > 0 {
          var bal := db.GetBalance(ctx.contract);
          if bal < value {
            return Failed, gas, [];
          }
        }
        if |code| == 0 {
          return Halted, gas, [];
        }
        var callee := if kind.CallCode? then Ctx(ctx.contract, ctx.contract) else ctx;
        exit, gasLeft, output := RunOrRevert(entry, snap, callee, child);
      } else {
        exit, gasLeft, output := ExecCall(ctx.contract, addr, value, gas, None, child);
      }
    }

    /** Run a frame in a state that came of `entry` and snapshot `snap` of it; revert on failure. */
    method RunOrRevert(ghost entry: Db, snap: nat, ctx: Ctx, child: Script)
        returns (exit: Exit, gasLeft: U64, output: Code)
      requires MarksOk(entry) && Grown(TakeSnapshot(entry), db.View()) && snap == |entry.snapshots|
      modifies db
      ensures var r := RunScript(old(db.View()), ctx, child);
              && Grown(TakeSnapshot(entry), r.db)
              && db.View() == RevertUnlessHalted(entry, r).db
              && exit == r.exit && gasLeft == r.gasLeft && output == r.output
      decreases child, 1
    {
      hide Revert, RunScript;
      GrownTransitive(TakeSnapshot(entry), db.View(), RunScript(db.View(), ctx, child).db);
      exit, gasLeft, output := Run(ctx, child);
      if !exit.Halted? {
        db.RevertToSnapshot(snap);
      }
    }

    method ExecCall(caller: Address, contract: Address, value: Word, gas: U64, preCost: Option<nat>, child: Script)
        returns (exit: Exit, gasLeft: U64, output: Code)
      requires MarksOk(db.View())
      modifies db
      ensures var r := Evm.ExecCall(old(db.View()), caller, contract, value, gas, preCost, child);
              db.View() == r.db && exit == r.exit && gasLeft == r.gasLeft && output == r.output
      decreases child, 2
    {
      hide Revert, Write, RunScript, Evm.Transfer, PrecompileLeft;
      if Precompiled(contract) {
        return Halted, PrecompileLeft(preCost, gas), [];
      }
      ghost var entry := db.View();
      var snap := db.Snapshot();
      var funded := Fund(caller, contract, value);
      if !funded {
        db.RevertToSnapshot(snap);
        return Failed, 0, [];
      }
      var code := db.GetCode(contract);
      if |code| == 0 {
        return Halted, gas, [];
      }
      exit, gasLeft, output := RunOrRevert(entry, snap, Ctx(contract, caller), child);
    }

    method OpenAccount(from: Address, addr: Address)
      modifies db
      ensures db.View() == Opened(Bumped(old(db.View()), from), addr)
    {
      hide Write, Acct, Wrap64;
      var nonce := db.GetNonce(from);
      db.SetNonce(from, Wrap64(nonce as int + 1));
      db.CreateAccount(addr);
      db.SetNonce(addr, 1);
    }

    method Create(from: Address, addr: Address, codeHash: Hash, value: Word, gas: U64, child: Script)
        returns (exit: Exit, gasLeft: U64, output: Code)
      requires MarksOk(db.View())
      modifies db
      ensures var r := CreateContract(old(db.View()), from, addr, codeHash, value, gas, child);
              db.View() == r.db && exit == r.exit && gasLeft == r.gasLeft && output == r.output
      decreases child, 1
    {
      hide Revert, Write, RunScript, Evm.Transfer, Creatable, Opened, Bumped;
      var snap := db.Snapshot();
      OpenAccount(from, addr);
      var funded := Fund(from, addr, value);
      if !funded {
        db.RevertToSnapshot(snap);
        return Failed, 0, [];
      }
      exit, gasLeft, output := Run(Ctx(addr, from), child);
      if !exit.Halted? {
        db.RevertToSnapshot(snap);
        return exit, 0, if exit.Reverted? then output else [];
      }
      db.SetCode(addr, output, codeHash);
    }

    method Execute(cfg: Config, m: Message, c: Callee) returns (status: Status, gasLeft: U64, used: U64, bonus: U64)
      requires MarksOk(db.View())
      modifies db
      ensures Receipt(db.View(), status, gasLeft, used, bonus) == Settlement.Execute(old(db.View()), cfg, m, c)
    {
      hide Settlement.RunMessage, Apply, EntryFor, Fee, Wrap256, Finalised;
      var upfront := Upfront(m);
      var senderBal := db.GetBalance(m.from);
      if senderBal < upfront {
        return InsufficientFunds, 0, m.gas, 0;
      }
      BuyGas(m);
      if m.intrinsic.Some? && m.gas < m.intrinsic.value {
        db.AddBalance(m.from, upfront);
        return IntrinsicTooLow, 0, m.gas, 0;
      }
      var exit;
      exit, gasLeft := Dispatch(m, c);
      db.AddBalance(m.from, Wrap256(Fee(gasLeft, m.gasPrice)));
      used := Wrap64(m.gas as int - gasLeft as int);
      bonus := 0;
      if !exit.Failed? {
        bonus := db.refund;
        if bonus > used / 5 {
          bonus := used / 5;
        }
        if bonus > 0 {
          db.AddBalance(m.from, Wrap64(Fee(bonus, m.gasPrice)));
        }
      }
      db.Finalise();
      if m.gasPrice > cfg.baseFee {
        var fee := Wrap256(Fee(used, m.gasPrice - cfg.baseFee));
        if fee != 0 {
          db.AddBalance(cfg.coinbase, fee);
        }
      }
      status := Done(exit);
    }

    method BuyGas(m: Message)
      modifies db
      ensures db.View() == Bought(old(db.View()), m)
    {
      hide Write, Acct, Wrap64, Upfront;
      db.SubBalance(m.from, Upfront(m));
      var nonce := db.GetNonce(m.from);
      db.SetNonce(m.from, Wrap64(nonce as int + 1));
    }

    method Dispatch(m: Message, c: Callee) returns (exit: Exit, gasLeft: U64)
      requires MarksOk(db.View()) && (m.intrinsic.Some? ==> m.intrinsic.value <= m.gas)
      modifies db
      ensures var r := Settlement.RunMessage(old(db.View()), m, c);
              db.View() == r.db && exit == r.exit && gasLeft == r.gasLeft
    {
      var output;
      if m.to.None? {
        exit, gasLeft, output := Create(m.from, c.newAddr, c.codeHash, m.value, GasToRun(m), c.script);
      } else {
        exit, gasLeft, output := ExecCall(m.from, m.to.value, m.value, GasToRun(m), c.preCost, c.script);
      }
    }
  }
}
