/** Which calls of a run reach the call tracer (evm/evm.go): a CALL, CALLCODE or DELEGATECALL that
    runs code is announced, a STATICCALL and a creation are not, though the calls below them are.
    So a transaction yields a forest, and the tracer keeps all of it only when it is one tree. */
module TracedRun {
  import opened Types
  import opened State
  import opened Evm
  import opened Settlement
  import opened Tracer

  // ---------- what the code announces ----------

  function KindCode(kind: CallKind): nat {
    match kind case PlainCall => 0 case CallCode => 1 case DelegateCall => 2 case StaticCall => 3
  }

  /** The call data is not part of this model. */
  function Announced(kind: CallKind, ctx: Ctx, gas: U64, value: Word): Info {
    Info(KindCode(kind), ctx.caller, ctx.contract, [], gas, value)
  }

  function Concluded(r: Ran, gas: U64): Tracer.Done {
    Tracer.Done.Done(r.output, Wrap64(gas - r.gasLeft),
        match r.exit case Halted => 0 case Reverted => 1 case Failed => 2)
  }

  /** Whether a CALL gets as far as running code, and the state it runs it in. */
  ghost function PlainEntry(db: Db, caller: Address, contract: Address, value: Word): Option<Db> {
    if Precompiled(contract) || (value != 0 && Acct(db.world, caller).balance < value) then None
    else
      var db1 := if value == 0 then TakeSnapshot(db) else Transfer(TakeSnapshot(db), caller, contract, value);
      if Acct(db1.world, contract).code == [] then None else Some(db1)
  }

  predicate Borrows(db: Db, ctx: Ctx, kind: CallKind, addr: Address, value: U64) {
    Acct(db.world, addr).code != [] && !(kind.CallCode? && value > 0 && Acct(db.world, ctx.contract).balance < value)
  }

  ghost function ScriptEvents(db: Db, ctx: Ctx, s: Script): seq<Event>
    requires MarksOk(db)
    decreases s, 0
  {
    match s
    case End(_, _, _) => []
    case Destroy(_, _) => []
    case SStore(key, value, refund, next) =>
      ScriptEvents(Write(Refunded(db, refund), SetStorage(Slot(ctx.contract, key), value)), ctx, next)
    case Emit(l, next) => ScriptEvents(Logged(db, l), ctx, next)
    case Call(kind, addr, value, gas, child, next) =>
      CallEvents(db, ctx, kind, addr, value, gas, child)
      + ScriptEvents(HandleCall(db, ctx, kind, addr, value, gas, child).db, ctx, next)
    case Create(addr, hash, value, gas, child, next) =>
      CreateEvents(db, ctx.contract, addr, value, child)
      + ScriptEvents(CreateContract(db, ctx.contract, addr, hash, value, gas, child).db, ctx, next)
  }

  ghost function FrameEvents(kind: CallKind, db: Db, callee: Ctx, gas: U64, value: Word, child: Script): seq<Event>
    requires MarksOk(db)
    decreases child, 1
  {
    [Enter(Announced(kind, callee, gas, value))]
    + ScriptEvents(db, callee, child)
    + [Tracer.Exit(Concluded(RunScript(db, callee, child), gas))]
  }

  ghost function CallEvents(db: Db, ctx: Ctx, kind: CallKind, addr: Address, value: U64, gas: U64,
      child: Script): seq<Event>
    requires MarksOk(db)
    decreases child, 3
  {
    match kind
    case StaticCall => ScriptEvents(TakeSnapshot(db), Ctx(addr, ctx.contract), child)
    case PlainCall => ExecEvents(db, ctx.contract, addr, value, gas, child)
    case _ =>
      var callee := if kind.CallCode? then Ctx(ctx.contract, ctx.contract) else ctx;
      if Borrows(db, ctx, kind, addr, value) then FrameEvents(kind, TakeSnapshot(db), callee, gas, value, child) else []
  }

  ghost function ExecEvents(db: Db, caller: Address, contract: Address, value: Word, gas: U64,
      child: Script): seq<Event>
    requires MarksOk(db)
    decreases child, 2
  {
    match PlainEntry(db, caller, contract, value)
    case None => []
    case Some(db1) => FrameEvents(PlainCall, db1, Ctx(contract, caller), gas, value, child)
  }

  /** The state in which the init code of a creation runs, if the sender can pay. */
  ghost function CreateEntry(db: Db, from: Address, addr: Address, value: Word): Option<Db> {
    var db1 := Opened(Bumped(TakeSnapshot(db), from), addr);
    if value != 0 && Acct(db1.world, from).balance < value then None
    else Some(if value == 0 then db1 else Transfer(db1, from, addr, value))
  }

  lemma EntriesHaveMarks(db: Db, from: Address, addr: Address, value: Word)
    requires MarksOk(db)
    ensures PlainEntry(db, from, addr, value).Some? ==> MarksOk(PlainEntry(db, from, addr, value).value)
    ensures CreateEntry(db, from, addr, value).Some? ==> MarksOk(CreateEntry(db, from, addr, value).value)
  {
    hide Transfer, Opened, Bumped, Acct;
  }

  ghost function CreateEvents(db: Db, from: Address, addr: Address, value: Word, child: Script): seq<Event>
    requires MarksOk(db)
    decreases child, 1
  {
    EntriesHaveMarks(db, from, addr, value);
    match CreateEntry(db, from, addr, value)
    case None => []
    case Some(db1) => ScriptEvents(db1, Ctx(addr, from), child)
  }

  // ---------- the calls as trees ----------

  ghost function ScriptTrees(db: Db, ctx: Ctx, s: Script): seq<Tree>
    requires MarksOk(db)
    decreases s, 0
  {
    match s
    case End(_, _, _) => []
    case Destroy(_, _) => []
    case SStore(key, value, refund, next) =>
      ScriptTrees(Write(Refunded(db, refund), SetStorage(Slot(ctx.contract, key), value)), ctx, next)
    case Emit(l, next) => ScriptTrees(Logged(db, l), ctx, next)
    case Call(kind, addr, value, gas, child, next) =>
      CallTrees(db, ctx, kind, addr, value, gas, child)
      + ScriptTrees(HandleCall(db, ctx, kind, addr, value, gas, child).db, ctx, next)
    case Create(addr, hash, value, gas, child, next) =>
      CreateTrees(db, ctx.contract, addr, value, child)
      + ScriptTrees(CreateContract(db, ctx.contract, addr, hash, value, gas, child).db, ctx, next)
  }

  ghost function FrameTree(kind: CallKind, db: Db, callee: Ctx, gas: U64, value: Word, child: Script): Tree
    requires MarksOk(db)
    decreases child, 1
  {
    Tree(Announced(kind, callee, gas, value), Concluded(RunScript(db, callee, child), gas),
        ScriptTrees(db, callee, child))
  }

  /** A call that is announced is one tree over the calls of its callee; a STATICCALL leaves its
      callee's trees side by side. */
  ghost function CallTrees(db: Db, ctx: Ctx, kind: CallKind, addr: Address, value: U64, gas: U64,
      child: Script): seq<Tree>
    requires MarksOk(db)
    decreases child, 3
  {
    match kind
    case StaticCall => ScriptTrees(TakeSnapshot(db), Ctx(addr, ctx.contract), child)
    case PlainCall => ExecTrees(db, ctx.contract, addr, value, gas, child)
    case _ =>
      var callee := if kind.CallCode? then Ctx(ctx.contract, ctx.contract) else ctx;
      if Borrows(db, ctx, kind, addr, value) then [FrameTree(kind, TakeSnapshot(db), callee, gas, value, child)] else []
  }

  ghost function ExecTrees(db: Db, caller: Address, contract: Address, value: Word, gas: U64, child: Script): seq<Tree>
    requires MarksOk(db)
    decreases child, 2
  {
    match PlainEntry(db, caller, contract, value)
    case None => []
    case Some(db1) => [FrameTree(PlainCall, db1, Ctx(contract, caller), gas, value, child)]
  }

  ghost function CreateTrees(db: Db, from: Address, addr: Address, value: Word, child: Script): seq<Tree>
    requires MarksOk(db)
    decreases child, 1
  {
    EntriesHaveMarks(db, from, addr, value);
    match CreateEntry(db, from, addr, value)
    case None => []
    case Some(db1) => ScriptTrees(db1, Ctx(addr, from), child)
  }

  // ---------- the events are those of the trees ----------

  lemma {:induction false} FlattenSeqConcat(ts: seq<Tree>, us: seq<Tree>)
    ensures FlattenSeq(ts + us) == FlattenSeq(ts) + FlattenSeq(us)
    decreases |us|
  {
    if us == [] {
      assert ts + us == ts;
    } else {
      hide Flatten;
      var front, last, all := us[..|us| - 1], us[|us| - 1], ts + us;
      assert all[..|all| - 1] == ts + front && all[|all| - 1] == last;
      FlattenSeqConcat(ts, front);
      assert FlattenSeq(all) == FlattenSeq(ts + front) + Flatten(last);
      assert FlattenSeq(us) == FlattenSeq(front) + Flatten(last);
    }
  }

  lemma FlattenOne(t: Tree)
    ensures FlattenSeq([t]) == Flatten(t) == [Enter(t.info)] + FlattenSeq(t.children) + [Tracer.Exit(t.done)]
  {
    FlattenAllIsSeq(t, t.children);
    assert [t][..0] == [];
  }

  /** What a run announces is the flattening of its trees. */
  lemma {:induction false} ScriptEventsAreTrees(db: Db, ctx: Ctx, s: Script)
    requires MarksOk(db)
    ensures ScriptEvents(db, ctx, s) == FlattenSeq(ScriptTrees(db, ctx, s))
    decreases s, 0
  {
    hide Write, HandleCall, CreateContract, CallEvents, CreateEvents, CallTrees, CreateTrees;
    match s
    case End(_, _, _) =>
    case Destroy(_, _) =>
    case SStore(key, value, refund, next) =>
      ScriptEventsAreTrees(Write(Refunded(db, refund), SetStorage(Slot(ctx.contract, key), value)), ctx, next);
    case Emit(l, next) => ScriptEventsAreTrees(Logged(db, l), ctx, next);
    case Call(kind, addr, value, gas, child, next) =>
      var db1 := HandleCall(db, ctx, kind, addr, value, gas, child).db;
      CallEventsAreTrees(db, ctx, kind, addr, value, gas, child);
      ScriptEventsAreTrees(db1, ctx, next);
      FlattenSeqConcat(CallTrees(db, ctx, kind, addr, value, gas, child), ScriptTrees(db1, ctx, next));
    case Create(addr, hash, value, gas, child, next) =>
      var db1 := CreateContract(db, ctx.contract, addr, hash, value, gas, child).db;
      CreateEventsAreTrees(db, ctx.contract, addr, value, child);
      ScriptEventsAreTrees(db1, ctx, next);
      FlattenSeqConcat(CreateTrees(db, ctx.contract, addr, value, child), ScriptTrees(db1, ctx, next));
  }

  lemma {:induction false} FrameEventsAreTree(kind: CallKind, db: Db, callee: Ctx, gas: U64, value: Word, child: Script)
    requires MarksOk(db)
    ensures FrameEvents(kind, db, callee, gas, value, child)
        == FlattenSeq([FrameTree(kind, db, callee, gas, value, child)])
    decreases child, 1
  {
    hide RunScript;
    ScriptEventsAreTrees(db, callee, child);
    FlattenOne(FrameTree(kind, db, callee, gas, value, child));
  }

  lemma {:induction false} CallEventsAreTrees(db: Db, ctx: Ctx, kind: CallKind, addr: Address, value: U64, gas: U64,
      child: Script)
    requires MarksOk(db)
    ensures CallEvents(db, ctx, kind, addr, value, gas, child)
        == FlattenSeq(CallTrees(db, ctx, kind, addr, value, gas, child))
    decreases child, 3
  {
    hide FrameEvents, FrameTree;
    match kind
    case StaticCall => ScriptEventsAreTrees(TakeSnapshot(db), Ctx(addr, ctx.contract), child);
    case PlainCall => ExecEventsAreTrees(db, ctx.contract, addr, value, gas, child);
    case CallCode => FrameEventsAreTree(kind, TakeSnapshot(db), Ctx(ctx.contract, ctx.contract), gas, value, child);
    case DelegateCall => FrameEventsAreTree(kind, TakeSnapshot(db), ctx, gas, value, child);
  }

  lemma {:induction false} ExecEventsAreTrees(db: Db, caller: Address, contract: Address, value: Word, gas: U64,
      child: Script)
    requires MarksOk(db)
    ensures ExecEvents(db, caller, contract, value, gas, child)
        == FlattenSeq(ExecTrees(db, caller, contract, value, gas, child))
    decreases child, 2
  {
    hide FrameEvents, FrameTree, PlainEntry;
    EntriesHaveMarks(db, caller, contract, value);
    if PlainEntry(db, caller, contract, value).Some? {
      FrameEventsAreTree(PlainCall, PlainEntry(db, caller, contract, value).value, Ctx(contract, caller), gas, value,
          child);
    }
  }

  lemma {:induction false} CreateEventsAreTrees(db: Db, from: Address, addr: Address, value: Word, child: Script)
    requires MarksOk(db)
    ensures CreateEvents(db, from, addr, value, child) == FlattenSeq(CreateTrees(db, from, addr, value, child))
    decreases child, 1
  {
    hide CreateEntry;
    EntriesHaveMarks(db, from, addr, value);
    if CreateEntry(db, from, addr, value).Some? {
      ScriptEventsAreTrees(CreateEntry(db, from, addr, value).value, Ctx(addr, from), child);
    }
  }

  // ---------- what the tracer keeps of a forest ----------

  lemma {:induction false} DepthConcat(es: seq<Event>, fs: seq<Event>)
    ensures Depth(es + fs) == Depth(es) + Depth(fs)
    decreases |fs|
  {
    if fs == [] {
      assert es + fs == es;
    } else {
      assert (es + fs)[..|es + fs| - 1] == es + fs[..|fs| - 1];
      DepthConcat(es, fs[..|fs| - 1]);
    }
  }

  lemma DepthOne(e: Event)
    ensures Depth([e]) == if e.Enter? then 1 else -1
  {
    assert [e][..0] == [];
  }

  /** The events of a tree are balanced with one outermost call. */
  lemma {:induction false} TreeIsOneCall(t: Tree)
    ensures OneCall(Flatten(t))
    decreases t, 1, 0
  {
    FlattenOne(t);
    FlattenAllIsSeq(t, t.children);
    TreesAreBalanced(t, t.children);
    var open, inner, close := [Enter(t.info)], FlattenSeq(t.children), [Tracer.Exit(t.done)];
    var es := open + inner + close;
    DepthOne(open[0]);
    DepthOne(close[0]);
    DepthConcat(open, inner);
    DepthConcat(open + inner, close);
    forall i | 0 < i < |es| ensures Depth(es[..i]) > 0 {
      assert es[..i] == open + inner[..i - 1];
      DepthConcat(open, inner[..i - 1]);
    }
  }

  lemma {:induction false} TreesAreBalanced(t: Tree, ts: seq<Tree>)
    requires forall i :: 0 <= i < |ts| ==> ts[i] in t.children
    ensures Depth(FlattenSeq(ts)) == 0
    ensures forall i :: 0 <= i <= |FlattenSeq(ts)| ==> Depth(FlattenSeq(ts)[..i]) >= 0
    decreases t, 0, |ts|
  {
    if ts != [] {
      var front, last := ts[..|ts| - 1], ts[|ts| - 1];
      assert last in t.children;
      TreesAreBalanced(t, front);
      TreeIsOneCall(last);
      var es, fs := FlattenSeq(front), Flatten(last);
      DepthConcat(es, fs);
      forall i | 0 <= i <= |es + fs| ensures Depth((es + fs)[..i]) >= 0 {
        if i <= |es| {
          assert (es + fs)[..i] == es[..i];
        } else {
          assert (es + fs)[..i] == es + fs[..i - |es|];
          assert fs[..|fs|] == fs;
          DepthConcat(es, fs[..i - |es|]);
        }
      }
    }
  }

  /** After a forest the tracer holds its last tree, and no call is open. */
  lemma {:induction false} ForestKeepsLast(ts: seq<Tree>)
    ensures Traced(EMPTY, FlattenSeq(ts)) == if ts == [] then EMPTY else Zip(Some(ts[|ts| - 1]), [])
    decreases |ts|
  {
    if ts != [] {
      var front, last := ts[..|ts| - 1], ts[|ts| - 1];
      ForestKeepsLast(front);
      TracedConcat(EMPTY, FlattenSeq(front), Flatten(last));
      EventsOfTree(Traced(EMPTY, FlattenSeq(front)), last);
    }
  }

  lemma ForestIsEmptyIff(ts: seq<Tree>)
    ensures FlattenSeq(ts) == [] <==> ts == []
  {
  }

  /** A forest is balanced with one outermost call exactly when it is one tree. */
  lemma ForestIsOneCallIff(ts: seq<Tree>)
    ensures OneCall(FlattenSeq(ts)) <==> |ts| == 1
  {
    if |ts| == 1 {
      assert ts == [ts[0]];
      FlattenOne(ts[0]);
      TreeIsOneCall(ts[0]);
    } else if OneCall(FlattenSeq(ts)) {
      ForestIsEmptyIff(ts);
      TreeOfEvents(FlattenSeq(ts));
      ForestKeepsLast(ts);
      ForestIsEmptyIff(ts[..|ts| - 1]);
    }
  }

  // ---------- transactions ----------

  ghost function MessageEvents(db: Db, m: Message, c: Callee): seq<Event>
    requires MarksOk(db) && (m.intrinsic.Some? ==> m.intrinsic.value <= m.gas)
  {
    if m.to.Some? then ExecEvents(db, m.from, m.to.value, m.value, GasToRun(m), c.script)
    else CreateEvents(db, m.from, c.newAddr, m.value, c.script)
  }

  ghost function MessageTrees(db: Db, m: Message, c: Callee): seq<Tree>
    requires MarksOk(db) && (m.intrinsic.Some? ==> m.intrinsic.value <= m.gas)
  {
    if m.to.Some? then ExecTrees(db, m.from, m.to.value, m.value, GasToRun(m), c.script)
    else CreateTrees(db, m.from, c.newAddr, m.value, c.script)
  }

  /** The trace of a message: the tracer ends with the last tree of its forest and nothing open,
      and the events are one balanced call exactly when the forest is one tree. A message to an
      account has one tree when code runs and none otherwise; a creation has those of its init
      code. */
  lemma MessageIsTraced(db: Db, m: Message, c: Callee)
    requires MarksOk(db) && (m.intrinsic.Some? ==> m.intrinsic.value <= m.gas)
    ensures var es, ts := MessageEvents(db, m, c), MessageTrees(db, m, c);
            && es == FlattenSeq(ts)
            && Traced(EMPTY, es) == (if ts == [] then EMPTY else Zip(Some(ts[|ts| - 1]), []))
            && (OneCall(es) <==> |ts| == 1)
            && (m.to.Some? ==> |ts| == if PlainEntry(db, m.from, m.to.value, m.value).Some? then 1 else 0)
  {
    hide FlattenSeq, OneCall, PlainEntry, CreateEvents, CreateTrees;
    if m.to.Some? {
      ExecEventsAreTrees(db, m.from, m.to.value, m.value, GasToRun(m), c.script);
    } else {
      CreateEventsAreTrees(db, m.from, c.newAddr, m.value, c.script);
    }
    ForestKeepsLast(MessageTrees(db, m, c));
    ForestIsOneCallIff(MessageTrees(db, m, c));
  }

  /** Init code that calls a contract twice. */
  const CALLS_TWICE := Evm.Call(PlainCall, 30, 0, 0, End(Halted, 0, []),
                                Evm.Call(PlainCall, 30, 0, 0, End(Halted, 0, []), End(Halted, 0, [])))

  /** A creation by 21 whose init code does so announces two outermost calls; the tracer forgets
      the first. */
  lemma CreationForgetsCalls(m: Message)
    requires m == Message(21, None, 0, 0, 0, None)
    ensures var c := Callee(CALLS_TWICE, 40, 0, None);
            MarksOk(ONE_CONTRACT) && |MessageTrees(ONE_CONTRACT, m, c)| == 2
  {
    var db1 := Opened(Bumped(TakeSnapshot(ONE_CONTRACT), 21), 40);
    assert Acct(db1.world, 30).code == [0];
    CallsTwiceTrees(db1);
    hide ScriptTrees, CALLS_TWICE;
    assert CreateEntry(ONE_CONTRACT, 21, 40, 0) == Some(db1);
  }

  lemma CallsTwiceTrees(db: Db)
    requires MarksOk(db) && Acct(db.world, 30).code == [0]
    ensures |ScriptTrees(db, Ctx(40, 21), CALLS_TWICE)| == 2
  {
    var stop := End(Halted, 0, []);
    var after := HandleCall(db, Ctx(40, 21), PlainCall, 30, 0, 0, stop).db;
    HaltingCall(db);
    HaltingCall(after);
    hide HandleCall, CallTrees;
    var second := CALLS_TWICE.next;
    var last := HandleCall(after, Ctx(40, 21), PlainCall, 30, 0, 0, stop).db;
    assert ScriptTrees(last, Ctx(40, 21), stop) == [];
    assert |ScriptTrees(after, Ctx(40, 21), second)| == 1;
  }

  lemma HaltingCall(db: Db)
    requires MarksOk(db) && Acct(db.world, 30).code == [0]
    ensures var stop := End(Halted, 0, []);
            && |CallTrees(db, Ctx(40, 21), PlainCall, 30, 0, 0, stop)| == 1
            && Acct(HandleCall(db, Ctx(40, 21), PlainCall, 30, 0, 0, stop).db.world, 30).code == [0]
  {
  }
}
