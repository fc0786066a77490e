/** How far the protection of a static frame reaches: not beyond itself and the STATICCALLs
    below it, and even its own CALL may move wei. */
module Protection {
  import opened Types
  import opened Jumpdests
  import opened Evm
  import opened Machine
  import opened Interpreter
  import Memory
  import State
  import Journal

  // ---------- what a static frame does itself ----------

  /** The frame itself does nothing but place calls and end, whatever its callees do. */
  predicate OwnQuiet(s: Script) {
    match s
    case End(_, _, _) => true
    case Call(_, _, _, _, _, next) => OwnQuiet(next)
    case _ => false
  }

  /** A static frame never stores, logs, creates or destroys, whatever calls it places. */
  lemma {:induction false} StaticFrameIsOwnQuiet(f: Frame, env: Env, path: seq<nat>)
    requires OnBoundary(f) && f.isStatic
    ensures OwnQuiet(RunFrame(f, env, path).script)
    decreases f.gas, Spare(f), |f.code| - f.pc
  {
    hide Boundary, Budget, Step, Advanced, WellVisited, ResumeCall;
    if f.pc < |f.code| {
      var a := env(path);
      match Step(f, a)
      case Next(g, _) =>
        StepProgress(f, g);
        KeepsStatic(f, g);
        StaticFrameIsOwnQuiet(g, env, path + [0]);
      case Calling(g, kind, addr, value, childGas, stipend) =>
        var without := CallWithoutCode(f, kind, childGas, a.target);
        var left, ok;
        if without.Some? {
          left, ok := without.value.gasLeft, without.value.ok;
        } else {
          var child := RunFrame(Callee(f, kind, childGas, a.target), env, path + [1]);
          if child.crashed { return; }
          left, ok := child.gasLeft, child.exit.Halted?;
        }
        CallReturns(f, a, left, ok);
        var g' := ResumeCall(g, childGas, stipend, left, ok);
        StepProgress(f, g');
        KeepsStatic(f, g');
        StaticFrameIsOwnQuiet(g', env, path + [0]);
      case _ =>
    }
  }

  /** The callee of such a call, started from any frame on any code, is as quiet as a static
      frame. */
  ghost predicate KeepsProtection(kind: CallKind) {
    forall f: Frame, gas: U64, t: Target, env: Env, path: seq<nat> ::
      t.Runs? ==> OwnQuiet(RunFrame(Callee(f, kind, gas, t), env, path).script)
  }

  /** Protection is handed on by STATICCALL and by no other call. */
  lemma KeepsProtectionIff(kind: CallKind)
    ensures KeepsProtection(kind) <==> kind.StaticCall?
  {
    hide RunFrame;
    if kind.StaticCall? {
      forall f: Frame, gas: U64, t: Target, env: Env, path: seq<nat> | t.Runs?
        ensures OwnQuiet(RunFrame(Callee(f, kind, gas, t), env, path).script)
      {
        StaticFrameIsOwnQuiet(Callee(f, kind, gas, t), env, path);
      }
    } else {
      var callee := Callee(STATIC_CALLER, kind, 50000, Runs(STORING, 0));
      StoringRuns(callee.depth, []);
      assert callee == Start(STORING, 50000, false, callee.depth);
    }
  }

  /** The callee's depth is its caller's plus one, whatever frame the pool hands out. */
  ghost predicate CountsDepth(kind: CallKind) {
    forall f: Frame, gas: U64, t: Target :: t.Runs? ==> Callee(f, kind, gas, t).depth == f.depth + 1
  }

  /** The depth limit is counted along every kind of call but the plain one. */
  lemma CountsDepthIff(kind: CallKind)
    ensures CountsDepth(kind) <==> !kind.PlainCall?
  {
    if kind.PlainCall? {
      assert Callee(Start([], 0, false, 1000), kind, 0, Runs([], 0)).depth == 0;
    }
  }

  // ---------- a tree of STATICCALLs ----------

  /** Every call in the script, at any depth, is a STATICCALL. */
  predicate OnlyStaticCalls(s: Script) {
    match s
    case End(_, _, _) => true
    case Destroy(_, _) => true
    case SStore(_, _, _, next) => OnlyStaticCalls(next)
    case Emit(_, next) => OnlyStaticCalls(next)
    case Call(kind, _, _, _, child, next) => kind.StaticCall? && OnlyStaticCalls(child) && OnlyStaticCalls(next)
    case Create(_, _, _, _, child, next) => OnlyStaticCalls(child) && OnlyStaticCalls(next)
  }

  /** The script, at any depth, does nothing but place calls and end. */
  predicate WritesNothing(s: Script) {
    match s
    case End(_, _, _) => true
    case Call(_, _, _, _, child, next) => WritesNothing(child) && WritesNothing(next)
    case _ => false
  }

  /** A static frame below which all calls are STATICCALLs writes nothing, at any depth. */
  lemma {:induction false} StaticTreeWritesNothing(f: Frame, env: Env, path: seq<nat>)
    requires OnBoundary(f) && f.isStatic && OnlyStaticCalls(RunFrame(f, env, path).script)
    ensures WritesNothing(RunFrame(f, env, path).script)
    decreases f.gas, Spare(f), |f.code| - f.pc
  {
    hide Boundary, Budget, Step, Advanced, WellVisited, ResumeCall;
    if f.pc < |f.code| {
      var a := env(path);
      match Step(f, a)
      case Next(g, _) =>
        StepProgress(f, g);
        KeepsStatic(f, g);
        StaticTreeWritesNothing(g, env, path + [0]);
      case Calling(g, kind, addr, value, childGas, stipend) =>
        var without := CallWithoutCode(f, kind, childGas, a.target);
        var left, ok;
        if without.Some? {
          left, ok := without.value.gasLeft, without.value.ok;
        } else {
          var callee := Callee(f, kind, childGas, a.target);
          var child := RunFrame(callee, env, path + [1]);
          if child.crashed { return; }
          left, ok := child.gasLeft, child.exit.Halted?;
          StaticTreeWritesNothing(callee, env, path + [1]);
        }
        CallReturns(f, a, left, ok);
        var g' := ResumeCall(g, childGas, stipend, left, ok);
        StepProgress(f, g');
        KeepsStatic(f, g');
        StaticTreeWritesNothing(g', env, path + [0]);
      case _ =>
    }
  }

  lemma KeepsStatic(f: Frame, g: Frame)
    requires f.pc < |f.code| && Advanced(f, g)
    ensures g.isStatic == f.isStatic
  {
  }
  /** Such a script leaves everything but the stack of marks as it was. */
  lemma {:induction false} WritingNothingChangesNothing(db: State.Db, ctx: Ctx, s: Script)
    requires State.MarksOk(db) && WritesNothing(s) && OnlyStaticCalls(s)
    ensures var db' := RunScript(db, ctx, s).db;
            db' == db.(snapshots := db'.snapshots)
    decreases s
  {
    if s.Call? {
      var db1 := State.TakeSnapshot(db);
      WritingNothingChangesNothing(db1, Ctx(s.addr, ctx.contract), s.child);
      var db2 := RunScript(db1, Ctx(s.addr, ctx.contract), s.child).db;
      assert db2.snapshots[|db.snapshots|] == db1.snapshots[|db.snapshots|] == |db.journal|;
      assert db2.journal[|db.journal|..] == [] && db2.journal[..|db.journal|] == db.journal;
      WritingNothingChangesNothing(HandleCall(db, ctx, s.kind, s.addr, s.value, s.gas, s.child).db, ctx, s.next);
    }
  }

  /** Balances, nonces, code, storage, journal, logs and refund are untouched by a static
      frame and everything below it, as long as all calls on the way are STATICCALLs. */
  lemma StaticTreeChangesNothing(db: State.Db, ctx: Ctx, f: Frame, env: Env, path: seq<nat>)
    requires State.MarksOk(db)
    requires OnBoundary(f) && f.isStatic && OnlyStaticCalls(RunFrame(f, env, path).script)
    ensures var db' := RunScript(db, ctx, RunFrame(f, env, path).script).db;
            db' == db.(snapshots := db'.snapshots)
  {
    hide RunFrame, RunScript;
    StaticTreeWritesNothing(f, env, path);
    WritingNothingChangesNothing(db, ctx, RunFrame(f, env, path).script);
  }

  // ---------- inputs ----------

  /** A static frame about to CALL address 30 with 50000 gas and no memory operands. */
  function Calls30(value: Word): Frame {
    Frame([0xf1], 0, 100000, [0, 0, 0, 0, value, 30, 50000], Memory.Mem(0, 0), true, 0)
  }

  const STATIC_CALLER := Calls30(0)

  /** Two words are pushed and one is stored under the other. */
  const STORING: Code := [0x30, 0x30, 0x55]

  /** Everything is warm and there, and the callee is `t`. */
  function Replies(t: Target): Answer {
    Answer(1, true, true, 0, 0, State.Log(0, [], []), [], true, 0, 0, 0, t, 0, 0)
  }

  const STORING_ENV: Env := _ => Replies(Runs(STORING, 0))

  const CODELESS_ENV: Env := _ => Replies(NoCode)

  /** A plain call of a warm, existing address without memory operands. */
  lemma BareCall(f: Frame, a: Answer)
    requires f.pc < |f.code| && f.code[f.pc] == 0xf1 && f.depth < MAX_CALL_DEPTH && |f.stack| >= 7 && f.gas >= 9100
    requires forall i :: 3 <= i < 7 ==> Low64(Arg(f, i)) == 0
    requires a.warm && a.isThere && a.hasRoom
    ensures var value := Low64(Arg(f, 2));
            var paid := f.gas - if value == 0 then 100 else 9100;
            Step(f, a) == Place(Drop(f, 7).(pc := f.pc + 1, gas := paid), PlainCall, ToAddr(Arg(f, 1)), value,
                Arg(f, 0))
  {
    BareCharge(f, a);
    assert PlainOp(f.code[f.pc]) == None;
    hide ChargedCall, Low64, ToAddr, Place, PlainOp;
    assert Step(f, a) == CallStep(f, a);
  }

  lemma BareCharge(f: Frame, a: Answer)
    requires f.pc < |f.code| && f.code[f.pc] == 0xf1 && |f.stack| >= 7 && f.gas >= 9100
    requires forall i :: 3 <= i < 7 ==> Low64(Arg(f, i)) == 0
    requires a.warm && a.isThere && a.hasRoom
    ensures var value := Low64(Arg(f, 2));
            var paid := f.gas - if value == 0 then 100 else 9100;
            ChargedCall(f, a) == Place(Drop(f, 7).(pc := f.pc + 1, gas := paid), PlainCall, ToAddr(Arg(f, 1)), value,
                Arg(f, 0))
  {
    hide Low64, ToAddr, Place, Arg;
    assert GrowBoth(f, 0, 0, 0, 0) == Some(f);
  }

  lemma StaticCallerCalls(value: U64, t: Target)
    requires value <= 5
    ensures var o := Step(Calls30(value), Replies(t));
            && o.Calling? && o.kind.PlainCall? && o.addr == 30 && o.value == value
            && o.childGas == 50000 + (if value > 0 then 2300 else 0)
  {
    var f := Calls30(value);
    assert forall i :: 3 <= i < 7 ==> Low64(Arg(f, i)) == 0;
    assert Arg(f, 0) == 50000 && ToAddr(Arg(f, 1)) == 30 && Low64(Arg(f, 2)) == value;
    hide Step;
    BareCall(f, Replies(t));
  }

  lemma PushStep(f: Frame, a: Answer)
    requires f.pc < |f.code| && f.code[f.pc] == 0x30 && f.gas >= 2 && |f.stack| < 1024
    ensures Step(f, a) == Next(f.(pc := f.pc + 1, gas := f.gas - 2, stack := f.stack + [a.word]), Quiet)
  {
  }

  lemma StoreStep(f: Frame, t: Target)
    requires f.pc < |f.code| && f.code[f.pc] == 0x55 && f.gas >= 20000 && f.stack == [1, 1] && !f.isStatic
    ensures Step(f, Replies(t)) == Next(f.(pc := f.pc + 1, gas := f.gas - 20000, stack := []), Stored(1, 1, 0))
  {
  }

  lemma StoringRuns(depth: nat, path: seq<nat>)
    ensures var r := RunFrame(Start(STORING, 50000, false, depth), STORING_ENV, path);
            r.script == SStore(1, 1, 0, End(Halted, 29996, [])) && !r.crashed
  {
    hide Step, Boundary;
    var env := STORING_ENV;
    var child := Start(STORING, 50000, false, depth);
    var f1 := child.(pc := 1, gas := 49998, stack := [1]);
    var f2 := child.(pc := 2, gas := 49996, stack := [1, 1]);
    var f3 := child.(pc := 3, gas := 29996);
    PushStep(child, Replies(Runs(STORING, 0)));
    PushStep(f1, Replies(Runs(STORING, 0)));
    StoreStep(f2, Runs(STORING, 0));
    StartOnBoundary(child);
    NextRuns(child, env, path, f1, Quiet);
    NextRuns(f1, env, path + [0], f2, Quiet);
    NextRuns(f2, env, path + [0] + [0], f3, Stored(1, 1, 0));
  }

  lemma StartOnBoundary(f: Frame)
    requires f.pc == 0
    ensures OnBoundary(f)
  {
  }

  /** The protection ends at a plain CALL: its callee is not static and its write goes through. */
  lemma PlainCallEscapesStatic()
    ensures OnBoundary(STATIC_CALLER) && STATIC_CALLER.isStatic
    ensures var s := RunFrame(STATIC_CALLER, STORING_ENV, []).script;
            s.Call? && s.kind.PlainCall? && s.child == SStore(1, 1, 0, End(Halted, 29996, []))
  {
    hide Step, Boundary, RunFrame;
    StartOnBoundary(STATIC_CALLER);
    StaticCallerCalls(0, Runs(STORING, 0));
    StoringRuns(0, [1]);
    assert [] + [1] == [1];
    assert Callee(STATIC_CALLER, PlainCall, 50000, Runs(STORING, 0)) == Start(STORING, 50000, false, 0);
    CallRuns(STATIC_CALLER, STORING_ENV, []);
  }

  /** Nor does a static frame check the value of its own CALL: 5 wei move from 21 to 30, where
      no code runs. */
  lemma StaticCallMovesWei(caller: Address)
    ensures OnBoundary(Calls30(5)) && Calls30(5).isStatic
    ensures var db := State.Write(State.NEW_DB, State.SetBalance(21, 5));
            var after := RunScript(db, Ctx(21, caller), RunFrame(Calls30(5), CODELESS_ENV, []).script).db;
            State.Acct(db.world, 30).balance == 0 && State.Acct(after.world, 30).balance == 5
  {
    StartOnBoundary(Calls30(5));
    PayingRuns();
    hide RunFrame;
    PayingMoves(Ctx(21, caller), RunFrame(Calls30(5), CODELESS_ENV, []).script);
  }

  lemma PayingMoves(ctx: Ctx, s: Script)
    requires ctx.contract == 21 && s.Call? && s.kind.PlainCall? && s.addr == 30 && s.value == 5 && s.next.End?
    ensures var db := State.Write(State.NEW_DB, State.SetBalance(21, 5));
            State.MarksOk(db) && State.Acct(db.world, 30).balance == 0
            && State.Acct(RunScript(db, ctx, s).db.world, 30).balance == 5
  {
    var db := State.Write(State.NEW_DB, State.SetBalance(21, 5));
    assert State.Acct(db.world, 21).balance == 5;
    var paid := Transfer(State.TakeSnapshot(db), 21, 30, 5);
    assert State.Acct(paid.world, 30) == State.BLANK.(balance := 5);
    assert ExecCall(db, 21, 30, 5, s.gas, None, s.child).db == paid;
  }

  lemma PayingRuns()
    ensures OnBoundary(Calls30(5))
    ensures var s := RunFrame(Calls30(5), CODELESS_ENV, []).script;
            s.Call? && s.kind.PlainCall? && s.addr == 30 && s.value == 5 && s.next.End?
  {
    hide Step, Boundary, ResumeCall;
    var f, a := Calls30(5), Replies(NoCode);
    StartOnBoundary(f);
    StaticCallerCalls(5, NoCode);
    CallReturns(f, a, Step(f, a).childGas, true);
    assert RunFrame(f, CODELESS_ENV, []) == RunCall(f, CODELESS_ENV, []);
  }

  lemma CallRuns(f: Frame, env: Env, path: seq<nat>)
    requires f.pc < |f.code| && OnBoundary(f) && !Refused(f) && Step(f, env(path)).Calling? && env(path).target.Runs?
    ensures var c := Step(f, env(path));
            var callee := Callee(f, c.kind, c.childGas, env(path).target);
            var s := RunFrame(f, env, path).script;
            && OnBoundary(callee)
            && (!RunFrame(callee, env, path + [1]).crashed ==>
                  s.Call? && s.kind == c.kind && s.child == RunFrame(callee, env, path + [1]).script)
  {
    hide Step, ResumeCall, Advanced, WellVisited, Budget;
    assert RunFrame(f, env, path) == RunCall(f, env, path);
  }

  lemma NextRuns(f: Frame, env: Env, path: seq<nat>, g: Frame, e: Effect)
    requires f.pc < |f.code| && OnBoundary(f) && Step(f, env(path)) == Next(g, e)
    ensures OnBoundary(g)
    ensures var r, rest := RunFrame(f, env, path), RunFrame(g, env, path + [0]);
            r.script == WithEffect(e, rest.script) && r.crashed == rest.crashed
  {
    hide Step, Boundary;
    StepProgress(f, g);
  }
}
