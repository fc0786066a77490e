/** Whole runs of the interpreter, with the nested runs its calls and creations start.

    `RunFrame` is a total function: that Dafny accepts its recursion is the proof that the
    machine halts on every code, gas and environment, however deep the calls nest. */
module Interpreter {
  import opened Types
  import opened Jumpdests
  import opened Evm
  import opened Machine
  import Memory
  import State

  /** One answer for every step of every frame: a step's successor is reached by 0, the frame
      it starts by 1. */
  type Env = seq<nat> -> Answer

  /** `visited` lists the program counters at the loop head of this frame; `nested` is the
      longest chain of CALL-family frames below it; `script` is what it did to the state. */
  datatype Report = Report(exit: Exit, gasLeft: U64, crashed: bool, visited: seq<nat>, nested: nat, script: Script)

  datatype Reply = Reply(gasLeft: U64, ok: bool)

  // ---------- the call handler ----------

  function Refused(f: Frame): bool {
    f.depth + 1 >= MAX_CALL_DEPTH
  }

  /** EVM.Call when no code runs. */
  function CallWithoutCode(f: Frame, kind: CallKind, gas: U64, t: Target): Option<Reply> {
    if Refused(f) then Some(Reply(gas, false))
    else match t
      case Runs(_, _) => None
      case Precompile(cost) => Some(Reply(if kind.PlainCall? then PrecompileLeft(cost, gas) else gas, true))
      case Poor =>
        Some(if kind.PlainCall? then Reply(0, false) else Reply(gas, !kind.CallCode?))
      case NoCode => Some(Reply(gas, true))
  }

  /** EVM.Create when no code runs. */
  function CreateWithoutCode(f: Frame, t: Target): Option<Reply> {
    if Refused(f) || t.Poor? then Some(Reply(0, false))
    else if t.Runs? then None
    else Some(Reply(f.gas, true))
  }

  /** The callee's frame: only STATICCALL is static, and only a plain call (or a creation)
      takes its depth from the pool. */
  function Callee(f: Frame, kind: CallKind, gas: U64, t: Target): (g: Frame)
    requires t.Runs?
    ensures OnBoundary(g)
  {
    Start(t.code, gas, kind.StaticCall?, if kind.PlainCall? then t.poolDepth else f.depth + 1)
  }

  function Created(f: Frame, t: Target): Frame
    requires t.Runs?
  {
    Start(t.code, f.gas, false, t.poolDepth)
  }

  // ---------- bounds ----------

  predicate OnBoundary(f: Frame) {
    f.pc >= |f.code| || Boundary(f.code, f.pc)
  }

  /** Instructions a frame can still execute: a full sweep of the code for every 8 gas, and
      the rest of the current sweep. */
  function Budget(f: Frame): nat {
    (f.gas / 8) * |f.code| + if f.pc < |f.code| then |f.code| - f.pc else 0
  }

  /** Every program counter is an instruction boundary, and an instruction cut off by the end
      of the code is the last one executed. */
  ghost predicate WellVisited(f: Frame, visited: seq<nat>) {
    && (visited == [] <==> f.pc >= |f.code|)
    && (visited != [] ==> visited[0] == f.pc)
    && (forall i :: 0 <= i < |visited| ==> visited[i] < |f.code| && Boundary(f.code, visited[i]))
    && (forall i :: 0 <= i < |visited| - 1 ==> visited[i] + InstrLen(f.code[visited[i]]) <= |f.code|)
  }

  ghost predicate Bounded(f: Frame, r: Report) {
    && r.gasLeft <= f.gas && ExitGas(r.script) <= f.gas
    && 100 * r.nested <= f.gas
    && |r.visited| <= Budget(f)
    && WellVisited(f, r.visited)
  }

  lemma SweepShorter(k: nat, k': nat, n: nat)
    requires k' < k
    ensures k' * n + n <= k * n
  {
    var d := k - k' - 1;
    assert k * n == (k' + 1 + d) * n == k' * n + n + d * n;
  }

  lemma SweepMonotone(k: nat, k': nat, n: nat)
    requires k' <= k
    ensures k' * n <= k * n
  {
    if k' < k {
      SweepShorter(k, k', n);
    }
  }

  /** One step: still on a boundary, and one instruction less to go. */
  lemma StepProgress(f: Frame, g: Frame)
    requires f.pc < |f.code| && OnBoundary(f) && Advanced(f, g)
    ensures OnBoundary(g) && Budget(g) + 1 <= Budget(f)
    ensures g.code == f.code
    ensures g.gas < f.gas || (g.gas == f.gas && Spare(g) <= Spare(f) && g.pc > f.pc)
  {
    if g.pc == f.pc + InstrLen(f.code[f.pc]) {
      BoundaryExtends(f.code, 0, f.pc);
      SweepMonotone(f.gas / 8, g.gas / 8, |f.code|);
    } else {
      SweepShorter(f.gas / 8, g.gas / 8, |f.code|);
    }
  }

  /** Coming back from a call, whatever the handler replies. */
  lemma CallReturns(f: Frame, a: Answer, gasLeft: U64, ok: bool)
    requires f.pc < |f.code| && Step(f, a).Calling?
    ensures var c := Step(f, a);
            && c.f.gas + (c.childGas - c.stipend) < TWO_64
            && Advanced(f, ResumeCall(c.f, c.childGas, c.stipend, gasLeft, ok))
            && ResumeCall(c.f, c.childGas, c.stipend, gasLeft, ok).gas + 100 <= f.gas
  {
    hide Step;
  }

  /** Coming back from a creation that was lent the frame's own gas. */
  lemma CreateReturns(f: Frame, a: Answer, gasLeft: U64, ok: bool)
    requires f.pc < |f.code| && Step(f, a).Creating? && gasLeft <= Step(f, a).f.gas
    ensures var c := Step(f, a);
            && c.f.gas + gasLeft <= 2 * (f.gas / 64) < TWO_64
            && Advanced(f, ResumeCreate(c.f, gasLeft, ok, a.newAddr))
  {
    hide Step;
  }

  // ---------- runs ----------

  function WithEffect(e: Effect, next: Script): Script {
    match e
    case Stored(k, v, refund) => SStore(k, v, refund, next)
    case Emitted(l) => Emit(l, next)
    case _ => next
  }

  function Final(f: Frame, exit: Exit, gasLeft: U64, e: Effect, output: Code): Report {
    Report(exit, gasLeft, false, [f.pc], 0, if e.Killed? then Destroy(e.ben, gasLeft) else End(exit, gasLeft, output))
  }

  function Crash(f: Frame, nested: nat): Report {
    Report(Failed, 0, true, [f.pc], nested, End(Failed, 0, []))
  }

  /** The report of a frame that did one instruction at f.pc and then ran as `r`. */
  function Prefixed(f: Frame, r: Report, nested: nat, script: Script): Report {
    r.(visited := [f.pc] + r.visited, nested := if nested > r.nested then nested else r.nested, script := script)
  }

  lemma PrefixedBounded(f: Frame, g: Frame, r: Report, nested: nat, script: Script)
    requires f.pc < |f.code| && OnBoundary(f) && Advanced(f, g) && Bounded(g, r)
    requires 100 * nested <= f.gas && ExitGas(script) == ExitGas(r.script)
    ensures Bounded(f, Prefixed(f, r, nested, script))
  {
    hide Boundary;
    StepProgress(f, g);
    var visited := [f.pc] + r.visited;
    forall i | 0 <= i < |visited|
      ensures visited[i] < |f.code| && Boundary(f.code, visited[i])
    {
      if i > 0 { assert visited[i] == r.visited[i - 1]; }
    }
    forall i | 0 <= i < |visited| - 1
      ensures visited[i] + InstrLen(f.code[visited[i]]) <= |f.code|
    {
      if i > 0 { assert visited[i] == r.visited[i - 1]; } else { assert visited[1] == g.pc; }
    }
  }

  function RunFrame(f: Frame, env: Env, path: seq<nat>): (r: Report)
    requires OnBoundary(f)
    ensures Bounded(f, r)
    decreases f.gas, Spare(f), |f.code| - f.pc
  {
    hide Step, Boundary, Advanced, WellVisited, Budget, Callee, ResumeCall, ResumeCreate;
    if f.pc >= |f.code| then
      EmptyRunBounded(f);
      Report(Halted, f.gas, false, [], 0, End(Halted, f.gas, []))
    else
      var a := env(path);
      SingleRunBounded(f, a);
      match Step(f, a)
      case Panic => Crash(f, 0)
      case Stopped(exit, left, e) => Final(f, exit, left, e, a.output)
      case Next(g, e) =>
        StepProgress(f, g);
        var r := RunFrame(g, env, path + [0]);
        PrefixedBounded(f, g, r, 0, WithEffect(e, r.script));
        Prefixed(f, r, 0, WithEffect(e, r.script))
      case Calling(g, kind, addr, value, childGas, stipend) => RunCall(f, env, path)
      case Creating(g, value) => RunCreate(f, env, path)
  }

  lemma EmptyRunBounded(f: Frame)
    requires f.pc >= |f.code|
    ensures Bounded(f, Report(Halted, f.gas, false, [], 0, End(Halted, f.gas, [])))
  {
  }

  lemma SingleRunBounded(f: Frame, a: Answer)
    requires f.pc < |f.code| && OnBoundary(f)
    ensures forall n: nat :: 100 * n <= f.gas ==> Bounded(f, Crash(f, n))
    ensures Step(f, a).Stopped? ==> Bounded(f, Final(f, Step(f, a).exit, Step(f, a).gasLeft, Step(f, a).effect,
        a.output))
  {
    hide Step;
  }

  /** A CALL-family instruction below the depth limit, and the frame after it. */
  function RunCall(f: Frame, env: Env, path: seq<nat>): (r: Report)
    requires f.pc < |f.code| && OnBoundary(f) && Step(f, env(path)).Calling?
    ensures Bounded(f, r)
    decreases f.gas, Spare(f), |f.code| - f.pc, 0
  {
    hide Step, Boundary, Advanced, WellVisited, Budget, ResumeCall;
    var a := env(path);
    var Calling(g, kind, addr, value, childGas, stipend) := Step(f, a);
    SingleRunBounded(f, a);
    match CallWithoutCode(f, kind, childGas, a.target)
    case Some(reply) =>
      CallReturns(f, a, reply.gasLeft, reply.ok);
      var g' := ResumeCall(g, childGas, stipend, reply.gasLeft, reply.ok);
      StepProgress(f, g');
      var r := RunFrame(g', env, path + [0]);
      var script := if Refused(f) then r.script
                    else Call(kind, addr, value, childGas, End(Halted, childGas, []), r.script);
      PrefixedBounded(f, g', r, 0, script);
      Prefixed(f, r, 0, script)
    case None =>
      var child := RunFrame(Callee(f, kind, childGas, a.target), env, path + [1]);
      if child.crashed then Crash(f, 1 + child.nested)
      else
        CallReturns(f, a, child.gasLeft, child.exit.Halted?);
        var g' := ResumeCall(g, childGas, stipend, child.gasLeft, child.exit.Halted?);
        StepProgress(f, g');
        var r := RunFrame(g', env, path + [0]);
        var script := Call(kind, addr, value, childGas, child.script, r.script);
        PrefixedBounded(f, g', r, 1 + child.nested, script);
        Prefixed(f, r, 1 + child.nested, script)
  }

  function RunCreate(f: Frame, env: Env, path: seq<nat>): (r: Report)
    requires f.pc < |f.code| && OnBoundary(f) && Step(f, env(path)).Creating?
    ensures Bounded(f, r)
    decreases f.gas, Spare(f), |f.code| - f.pc, 0
  {
    hide Step, Boundary, Advanced, WellVisited, Budget, ResumeCreate;
    var a := env(path);
    var Creating(g, value) := Step(f, a);
    SingleRunBounded(f, a);
    match CreateWithoutCode(g, a.target)
    case Some(reply) =>
      CreateReturns(f, a, reply.gasLeft, reply.ok);
      var g' := ResumeCreate(g, reply.gasLeft, reply.ok, a.newAddr);
      StepProgress(f, g');
      var r := RunFrame(g', env, path + [0]);
      var script := if Refused(f) then r.script
                    else Create(a.newAddr, a.codeHash, value, g.gas, End(Halted, g.gas, []), r.script);
      PrefixedBounded(f, g', r, 0, script);
      Prefixed(f, r, 0, script)
    case None =>
      var child := RunFrame(Created(g, a.target), env, path + [1]);
      if child.crashed then Crash(f, child.nested)
      else
        var left := if child.exit.Halted? then child.gasLeft else 0;
        CreateReturns(f, a, left, child.exit.Halted?);
        var g' := ResumeCreate(g, left, child.exit.Halted?, a.newAddr);
        StepProgress(f, g');
        var r := RunFrame(g', env, path + [0]);
        var script := Create(a.newAddr, a.codeHash, value, g.gas, child.script, r.script);
        PrefixedBounded(f, g', r, child.nested, script);
        Prefixed(f, r, child.nested, script)
  }

  // ---------- what a run promises ----------

  /** A frame started on any code halts within one sweep of the code for every 8 gas, plus one,
      leaves no more gas than it got, and nests at most one call for every 100 gas. */
  lemma EveryRunHalts(code: Code, gas: U64, isStatic: bool, depth: nat, env: Env)
    ensures var r := RunFrame(Start(code, gas, isStatic, depth), env, []);
            |r.visited| <= (gas / 8 + 1) * |code| && r.gasLeft <= gas && 100 * r.nested <= gas
  {
    var r := RunFrame(Start(code, gas, isStatic, depth), env, []);
    assert |r.visited| <= (gas / 8) * |code| + |code|;
    assert (gas / 8 + 1) * |code| == (gas / 8) * |code| + |code|;
  }

  /** A push whose data runs past the end of the code is the last instruction of its frame. */
  lemma TruncatedPushIsLast(code: Code, gas: U64, isStatic: bool, depth: nat, env: Env, i: nat)
    requires var visited := RunFrame(Start(code, gas, isStatic, depth), env, []).visited;
             i < |visited| && visited[i] + InstrLen(code[visited[i]]) > |code|
    ensures i == |RunFrame(Start(code, gas, isStatic, depth), env, []).visited| - 1
  {
    hide RunFrame;
    var f := Start(code, gas, isStatic, depth);
    assert WellVisited(f, RunFrame(f, env, []).visited);
  }

  /** ISZERO on an empty stack takes the whole run down, whatever the environment. */
  lemma UncheckedOperandCrashes(env: Env)
    ensures OnBoundary(Start([0x15], 3, false, 0)) && RunFrame(Start([0x15], 3, false, 0), env, []).crashed
  {
    assert Step(Start([0x15], 3, false, 0), env([])).Panic?;
  }

  ghost predicate PlacesNoCall(f: Frame, r: Report)
    requires Bounded(f, r)
  {
    forall i :: 0 <= i < |r.visited| ==> !IsCall(f.code[r.visited[i]])
  }

  /** A static frame that executes no CALL-family instruction asks nothing of the state,
      whatever its code and however it ends. */
  lemma {:induction false} StaticRunIsQuiet(f: Frame, env: Env, path: seq<nat>)
    requires OnBoundary(f) && f.isStatic && PlacesNoCall(f, RunFrame(f, env, path))
    ensures RunFrame(f, env, path).script.End?
    decreases f.gas, Spare(f), |f.code| - f.pc
  {
    hide Boundary, Budget, Step, RunCall, RunCreate;
    if f.pc < |f.code| {
      var o := Step(f, env(path));
      var r := RunFrame(f, env, path);
      VisitedHead(f, r);
      if o.Next? {
        StepProgress(f, o.f);
        var rest := RunFrame(o.f, env, path + [0]);
        assert r.visited == [f.pc] + rest.visited;
        forall i | 0 <= i < |rest.visited| ensures !IsCall(o.f.code[rest.visited[i]]) {
          assert r.visited[i + 1] == rest.visited[i];
        }
        StaticRunIsQuiet(o.f, env, path + [0]);
      }
    }
  }

  lemma VisitedHead(f: Frame, r: Report)
    requires Bounded(f, r) && f.pc < |f.code|
    ensures r.visited != [] && r.visited[0] == f.pc
  {
  }

  /** So such a frame leaves balances, nonces, code, storage, logs, refund and journal alone. */
  lemma StaticRunChangesNothing(db: State.Db, ctx: Ctx, f: Frame, env: Env, path: seq<nat>)
    requires State.MarksOk(db)
    requires OnBoundary(f) && f.isStatic && PlacesNoCall(f, RunFrame(f, env, path))
    ensures RunScript(db, ctx, RunFrame(f, env, path).script).db == db
  {
    StaticRunIsQuiet(f, env, path);
  }

  // ---------- the loop itself ----------

  ghost predicate Agree(whole: Report, rest: Report, done: seq<nat>) {
    && whole.exit == rest.exit && whole.gasLeft == rest.gasLeft && whole.crashed == rest.crashed
    && whole.visited == done + rest.visited
  }

  lemma AgreeTransitive(r: Report, r1: Report, r2: Report, done: seq<nat>, more: seq<nat>)
    requires Agree(r, r1, done) && Agree(r1, r2, more)
    ensures Agree(r, r2, done + more)
  {
  }

  lemma StepKeepsFrame(f: Frame, g: Frame)
    requires f.pc < |f.code| && Advanced(f, g)
    ensures SameFrame(f, g)
  {
  }

  lemma AgreeWithSelf(r: Report)
    ensures Agree(r, r, [])
  {
  }

  lemma Ends(whole: Report, rest: Report, done: seq<nat>)
    requires Agree(whole, rest, done)
    ensures whole.exit == rest.exit && whole.gasLeft == rest.gasLeft && whole.crashed == rest.crashed
    ensures whole.visited == done + rest.visited
  {
  }

  lemma NextAgrees(f: Frame, env: Env, p: seq<nat>)
    requires f.pc < |f.code| && OnBoundary(f) && Step(f, env(p)).Next?
    ensures var g := Step(f, env(p)).f;
            OnBoundary(g) && Advanced(f, g) && Agree(RunFrame(f, env, p), RunFrame(g, env, p + [0]), [f.pc])
  {
    hide Step, Boundary, Advanced, WellVisited, Budget;
    StepProgress(f, Step(f, env(p)).f);
  }

  /** What PlaceCall and PlaceCreate report. */
  ghost predicate CallReply(f: Frame, a: Answer, env: Env, p: seq<nat>, kind: CallKind, childGas: U64, left: U64,
      ok: bool, crash: bool) {
    match CallWithoutCode(f, kind, childGas, a.target)
    case Some(reply) => left == reply.gasLeft && ok == reply.ok && !crash
    case None =>
      var child := RunFrame(Callee(f, kind, childGas, a.target), env, p + [1]);
      left == child.gasLeft && ok == child.exit.Halted? && crash == child.crashed
  }

  ghost predicate CreateReply(g: Frame, a: Answer, env: Env, p: seq<nat>, left: U64, ok: bool, crash: bool) {
    match CreateWithoutCode(g, a.target)
    case Some(reply) => left == reply.gasLeft && ok == reply.ok && !crash
    case None =>
      var child := RunFrame(Created(g, a.target), env, p + [1]);
      left == (if child.exit.Halted? then child.gasLeft else 0) && ok == child.exit.Halted? && crash == child.crashed
  }

  lemma CallUnfolds(f: Frame, env: Env, p: seq<nat>, left: U64, ok: bool, crash: bool)
    requires f.pc < |f.code| && OnBoundary(f) && Step(f, env(p)).Calling?
    requires var c := Step(f, env(p)); CallReply(f, env(p), env, p, c.kind, c.childGas, left, ok, crash)
    ensures var c, r := Step(f, env(p)), RunFrame(f, env, p);
            if crash then r.exit == Failed && r.gasLeft == 0 && r.crashed && r.visited == [f.pc]
            else
              && c.f.gas + (c.childGas - c.stipend) < TWO_64
              && var g := ResumeCall(c.f, c.childGas, c.stipend, left, ok);
              && Advanced(f, g) && OnBoundary(g) && Agree(r, RunFrame(g, env, p + [0]), [f.pc])
  {
    hide Step, Boundary, Advanced, WellVisited, Budget, Callee, ResumeCall, CallWithoutCode;
    var c := Step(f, env(p));
    CallReturns(f, env(p), left, ok);
    StepProgress(f, ResumeCall(c.f, c.childGas, c.stipend, left, ok));
    assert RunFrame(f, env, p) == RunCall(f, env, p);
  }

  lemma CreateUnfolds(f: Frame, env: Env, p: seq<nat>, left: U64, ok: bool, crash: bool)
    requires f.pc < |f.code| && OnBoundary(f) && Step(f, env(p)).Creating?
    requires CreateReply(Step(f, env(p)).f, env(p), env, p, left, ok, crash) && left <= Step(f, env(p)).f.gas
    ensures var c, r := Step(f, env(p)), RunFrame(f, env, p);
            if crash then r.exit == Failed && r.gasLeft == 0 && r.crashed && r.visited == [f.pc]
            else
              && c.f.gas + left < TWO_64
              && var g := ResumeCreate(c.f, left, ok, env(p).newAddr);
              && Advanced(f, g) && OnBoundary(g) && Agree(r, RunFrame(g, env, p + [0]), [f.pc])
  {
    hide Step, Boundary, Advanced, WellVisited, Budget, Created, ResumeCreate, CreateWithoutCode;
    CreateReturns(f, env(p), left, ok);
    StepProgress(f, ResumeCreate(Step(f, env(p)).f, left, ok, env(p).newAddr));
    assert RunFrame(f, env, p) == RunCreate(f, env, p);
  }

  lemma PastTheEnd(f: Frame, env: Env, p: seq<nat>)
    requires f.pc >= |f.code|
    ensures var r := RunFrame(f, env, p);
            r.exit == Halted && r.gasLeft == f.gas && !r.crashed && r.visited == []
  {
  }

  /** interpreter/frame.go: Frame, with Interpreter.Run as its method. */
  class LiveFrame {
    const code: Code
    const isStatic: bool
    const depth: nat
    var pc: nat
    var gas: U64
    var stack: seq<Word>
    var mem: Memory.Mem

    function View(): Frame
      reads this
    {
      Frame(code, pc, gas, stack, mem, isStatic, depth)
    }

    constructor (f: Frame)
      ensures View() == f
    {
      code, isStatic, depth := f.code, f.isStatic, f.depth;
      pc, gas, stack, mem := f.pc, f.gas, f.stack, f.mem;
    }

    method Adopt(f: Frame)
      requires SameFrame(View(), f)
      modifies this
      ensures View() == f
    {
      pc, gas, stack, mem := f.pc, f.gas, f.stack, f.mem;
    }

    /** Run and, through the handler, the runs of the frames it starts. */
    method Run(env: Env, path: seq<nat>) returns (exit: Exit, gasLeft: U64, crashed: bool, ghost visited: seq<nat>)
      requires OnBoundary(View())
      modifies this
      ensures var r := RunFrame(old(View()), env, path);
              exit == r.exit && gasLeft == r.gasLeft && crashed == r.crashed && visited == r.visited
      decreases gas, Spare(View()), |code| - pc, 2
    {
      hide Boundary, Advanced, Spare, RunFrame, Agree;
      var p := path;
      ghost var whole := RunFrame(View(), env, path);
      visited := [];
      AgreeWithSelf(whole);
      while pc < |code|
        invariant OnBoundary(View())
        invariant Agree(whole, RunFrame(View(), env, p), visited)
        invariant gas < old(gas) || (gas == old(gas) && Spare(View()) <= old(Spare(View())) && pc >= old(pc))
        decreases gas, Spare(View()), |code| - pc
      {
        ghost var f := View();
        ghost var rest := RunFrame(f, env, p);
        var running;
        running, exit, gasLeft, crashed := Execute(env, p);
        if !running {
          Ends(whole, rest, visited);
          return exit, gasLeft, crashed, visited + [f.pc];
        }
        StepProgress(f, View());
        AgreeTransitive(whole, rest, RunFrame(View(), env, p + [0]), visited, [f.pc]);
        visited := visited + [f.pc];
        p := p + [0];
      }
      PastTheEnd(View(), env, p);
      Ends(whole, RunFrame(View(), env, p), visited);
      exit, gasLeft, crashed := Halted, gas, false;
    }

    /** The body of the loop: one instruction, with the frame it may start. */
    method Execute(env: Env, p: seq<nat>) returns (running: bool, exit: Exit, gasLeft: U64, crashed: bool)
      requires pc < |code| && OnBoundary(View())
      modifies this
      ensures var rest := RunFrame(old(View()), env, p);
              if running then
                Advanced(old(View()), View()) && OnBoundary(View())
                    && Agree(rest, RunFrame(View(), env, p + [0]), [old(pc)])
              else
                exit == rest.exit && gasLeft == rest.gasLeft && crashed == rest.crashed && rest.visited == [old(pc)]
      decreases gas, Spare(View()), |code| - pc, 1
    {
      hide Step, Boundary, Advanced, WellVisited, Budget, ResumeCall, ResumeCreate, Spare, RunCall, RunCreate, Agree,
          CallReply, CreateReply;
      var f := View();
      var a := env(p);
      var g := f;
      match Step(f, a) {
        case Panic => return false, Failed, 0, true;
        case Stopped(e, left, _) => return false, e, left, false;
        case Next(g', _) =>
          NextAgrees(f, env, p);
          g := g';
        case Calling(g', kind, _, _, childGas, stipend) =>
          var left, ok, crash := PlaceCall(f, a, env, p, kind, childGas);
          CallUnfolds(f, env, p, left, ok, crash);
          if crash {
            return false, Failed, 0, true;
          }
          g := ResumeCall(g', childGas, stipend, left, ok);
        case Creating(g', _) =>
          var left, ok, crash := PlaceCreate(f, g', a, env, p);
          CreateUnfolds(f, env, p, left, ok, crash);
          if crash {
            return false, Failed, 0, true;
          }
          g := ResumeCreate(g', left, ok, a.newAddr);
      }
      StepKeepsFrame(f, g);
      Adopt(g);
      return true, Halted, 0, false;
    }

    /** The handler's part of a call. */
    static method PlaceCall(f: Frame, a: Answer, env: Env, p: seq<nat>, kind: CallKind, childGas: U64)
      returns (left: U64, ok: bool, crash: bool)
      requires f.pc < |f.code| && Step(f, a).Calling? && Step(f, a).kind == kind && Step(f, a).childGas == childGas
      ensures CallReply(f, a, env, p, kind, childGas, left, ok, crash)
      decreases f.gas, Spare(f), |f.code| - f.pc, 0
    {
      hide Step, RunFrame;
      match CallWithoutCode(f, kind, childGas, a.target)
      case Some(reply) => left, ok, crash := reply.gasLeft, reply.ok, false;
      case None =>
        var callee := new LiveFrame(Callee(f, kind, childGas, a.target));
        var exit;
        ghost var visited;
        exit, left, crash, visited := callee.Run(env, p + [1]);
        ok := exit.Halted?;
    }

    /** The handler's part of a creation, lent the gas of `g`. */
    static method PlaceCreate(f: Frame, g: Frame, a: Answer, env: Env, p: seq<nat>)
      returns (left: U64, ok: bool, crash: bool)
      requires f.pc < |f.code| && Step(f, a).Creating? && Step(f, a).f == g
      ensures CreateReply(g, a, env, p, left, ok, crash)
      ensures left <= g.gas
      decreases f.gas, Spare(f), |f.code| - f.pc, 0
    {
      hide Step, RunFrame;
      match CreateWithoutCode(g, a.target)
      case Some(reply) => left, ok, crash := reply.gasLeft, reply.ok, false;
      case None =>
        var created := new LiveFrame(Created(g, a.target));
        var exit;
        ghost var visited;
        exit, left, crash, visited := created.Run(env, p + [1]);
        ok := exit.Halted?;
        left := if ok then left else 0;
    }
  }
}
