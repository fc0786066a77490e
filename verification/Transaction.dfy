/** A transaction whose message is run by the interpreter: the parts put together. */
module Transaction {
  import opened Types
  import opened State
  import opened Journal
  import opened Evm
  import opened Locality
  import opened Wei
  import opened Settlement
  import Machine
  import Interpreter

  /** The behaviour of `code`, run with the gas the message has after intrinsic gas. */
  function BehaviourOf(code: Code, gas: U64, depth: nat, env: Interpreter.Env): Script {
    Interpreter.RunFrame(Machine.Start(code, gas, false, depth), env, []).script
  }

  /** The conservation law for real code: no assumption about gas is left, since neither the
      interpreter nor a precompile reports more than it was given. */
  lemma CodeConservesWei(db: Db, cfg: Config, m: Message, code: Code, depth: nat, env: Interpreter.Env,
      newAddr: Address, codeHash: Hash, preCost: Option<nat>)
    requires MarksOk(db) && Recorded(db.world)
    requires m.intrinsic.Some? ==> m.intrinsic.value <= m.gas
    requires Upfront(m) <= Bal(db.world, m.from) && Total(db.world) + TWO_64 <= TWO_256
    requires RunMessage(Bought(db, m), m, Callee(BehaviourOf(code, GasToRun(m), depth, env), newAddr, codeHash,
        preCost)).lossless
    ensures var c := Callee(BehaviourOf(code, GasToRun(m), depth, env), newAddr, codeHash, preCost);
            var e := Execute(db, cfg, m, c);
            && e.bonus <= e.used / 5 && e.used == m.gas - e.gasLeft && e.gasLeft <= GasToRun(m)
            && Total(e.db.world) == Total(db.world) - Burned(cfg, m, e.used)
                                    + Wrap64(Fee(e.bonus, m.gasPrice)) - RemovedBy(Unsettled(db, m, c))
  {
    hide Interpreter.RunFrame, RunMessage, Recorded, Total, Bought;
    var c := Callee(BehaviourOf(code, GasToRun(m), depth, env), newAddr, codeHash, preCost);
    assert Interpreter.Bounded(Machine.Start(code, GasToRun(m), false, depth),
                               Interpreter.RunFrame(Machine.Start(code, GasToRun(m), false, depth), env, []));
    assert Runnable(db, m, c);
    MessageConserves(db, m, c);
    ExecuteConservesWei(db, cfg, m, c);
  }

  /** For real code too, the journal and the copying reference end with the same reads. */
  lemma CodeRefinesCopies(mode: Rollback, db: Db, ctx: Ctx, code: Code, gas: U64, depth: nat, env: Interpreter.Env)
    requires MarksOk(db) && Recorded(db.world)
    requires RunScript(db, ctx, BehaviourOf(code, gas, depth, env)).lossless
    requires mode.Always? ==> NoStaticRevert(BehaviourOf(code, gas, depth, env))
    ensures var s := BehaviourOf(code, gas, depth, env);
            Agrees(RunScript(db, ctx, s).db.world, RefScript(mode, RefOf(db.world), ctx, s).ref)
  {
    hide BehaviourOf, RunScript, RefScript;
    var s := BehaviourOf(code, gas, depth, env);
    RefOfStands(db);
    RunRefinesCopies(mode, db, RefOf(db.world), ctx, s);
    AlikeMeans(RunScript(db, ctx, s), RefScript(mode, RefOf(db.world), ctx, s));
  }
}
