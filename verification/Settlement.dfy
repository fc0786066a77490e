/** EVM.Execute: buying gas, running the message, and settling the fee; with the exact
    conservation law for wei over a whole transaction. */
module Settlement {
  import opened Types
  import opened State
  import opened Journal
  import opened Evm
  import opened Locality
  import opened Wei

  datatype Config = Config(baseFee: U64, coinbase: Address)

  /** `intrinsic` is the intrinsic gas when ApplyIntrinsicGas is set; `to` is None for a creation. */
  datatype Message = Message(from: Address, to: Option<Address>, gas: U64, gasPrice: U64, value: Word,
      intrinsic: Option<U64>)

  /** What the transaction meets: the behaviour of the code it runs, the address and code
      hash of a creation, and the price of a precompile. */
  datatype Callee = Callee(script: Script, newAddr: Address, codeHash: Hash, preCost: Option<nat>)

  datatype Status = InsufficientFunds | IntrinsicTooLow | Done(exit: Exit)

  /** `bonus` is the refund r granted, in gas. */
  datatype Receipt = Receipt(db: Db, status: Status, gasLeft: U64, used: U64, bonus: U64)

  function Fee(gas: nat, price: nat): nat {
    gas * price
  }

  function Upfront(m: Message): Word {
    Wrap256(Fee(m.gas, m.gasPrice))
  }

  function GasToRun(m: Message): U64
    requires m.intrinsic.Some? ==> m.intrinsic.value <= m.gas
  {
    if m.intrinsic.Some? then m.gas - m.intrinsic.value else m.gas
  }

  function Bought(db: Db, m: Message): (r: Db)
    ensures MarksOk(db) ==> Grown(db, r)
  {
    Bumped(Write(db, SubBalance(m.from, Upfront(m))), m.from)
  }

  ghost function RunMessage(db: Db, m: Message, c: Callee): (r: Ran)
    requires MarksOk(db)
    requires m.intrinsic.Some? ==> m.intrinsic.value <= m.gas
    ensures Grown(db, r.db)
  {
    if m.to.Some? then ExecCall(db, m.from, m.to.value, m.value, GasToRun(m), c.preCost, c.script)
    else CreateContract(db, m.from, c.newAddr, c.codeHash, m.value, GasToRun(m), c.script)
  }

  /** EIP-3529: at most a fifth of the gas used, and only if the message halted or reverted. */
  function GrantedRefund(refund: U64, used: U64, exit: Exit): U64 {
    if exit.Failed? then 0 else if refund > used / 5 then used / 5 else refund
  }

  /** The gas refund and the storage refund, both credited to the sender. */
  function GasReturned(db: Db, m: Message, gasLeft: U64): Db {
    Write(db, AddBalance(m.from, Wrap256(Fee(gasLeft, m.gasPrice))))
  }

  function BonusPaid(db: Db, m: Message, bonus: U64): Db {
    if bonus > 0 then Write(db, AddBalance(m.from, Wrap64(Fee(bonus, m.gasPrice)))) else db
  }

  function Tip(cfg: Config, m: Message): U64 {
    if m.gasPrice > cfg.baseFee then m.gasPrice - cfg.baseFee else 0
  }

  function TipPaid(db: Db, cfg: Config, m: Message, used: U64): Db {
    var fee := Wrap256(Fee(used, Tip(cfg, m)));
    if m.gasPrice > cfg.baseFee && fee != 0 then Write(db, AddBalance(cfg.coinbase, fee)) else db
  }

  ghost function Execute(db: Db, cfg: Config, m: Message, c: Callee): (e: Receipt)
    requires MarksOk(db)
    ensures MarksOk(e.db)
  {
    if Acct(db.world, m.from).balance < Upfront(m) then
      Receipt(db, InsufficientFunds, 0, m.gas, 0)
    else
      var db1 := Bought(db, m);
      if m.intrinsic.Some? && m.gas < m.intrinsic.value then
        Receipt(Write(db1, AddBalance(m.from, Upfront(m))), IntrinsicTooLow, 0, m.gas, 0)
      else
        var r := RunMessage(db1, m, c);
        var used := Wrap64(m.gas - r.gasLeft);
        var bonus := GrantedRefund(r.db.refund, used, r.exit);
        var db2 := Finalised(BonusPaid(GasReturned(r.db, m, r.gasLeft), m, bonus));
        Receipt(TipPaid(db2, cfg, m, used), Done(r.exit), r.gasLeft, used, bonus)
  }

  /** The state Finalise meets, and the wei in accounts it deletes. */
  ghost function Unsettled(db: Db, m: Message, c: Callee): World
    requires MarksOk(db)
    requires m.intrinsic.Some? ==> m.intrinsic.value <= m.gas
  {
    var r := RunMessage(Bought(db, m), m, c);
    var bonus := GrantedRefund(r.db.refund, Wrap64(m.gas - r.gasLeft), r.exit);
    BonusPaid(GasReturned(r.db, m, r.gasLeft), m, bonus).world
  }

  function DoomedOf(w: World): set<Address> {
    set a | a in w.accounts && Doomed(w.accounts, a)
  }

  ghost function RemovedBy(w: World): nat {
    SumOver(DoomedOf(w), w)
  }

  // ---------- the pieces ----------

  lemma {:induction false} SumSplit(s: set<Address>, t: set<Address>, w: World)
    requires s !! t
    ensures SumOver(s + t, w) == SumOver(s, w) + SumOver(t, w)
    decreases |s|
  {
    if s == {} {
      assert s + t == t;
    } else {
      var a :| a in s;
      SumPick(s, w, a);
      SumPick(s + t, w, a);
      assert s + t - {a} == (s - {a}) + t;
      SumSplit(s - {a}, t, w);
    }
  }

  lemma FinaliseRemoves(db: Db)
    ensures Total(Finalised(db).world) + RemovedBy(db.world) == Total(db.world)
  {
    var w, v := db.world, Finalised(db).world;
    var doomed := DoomedOf(w);
    SumSplit(v.accounts.Keys, doomed, w);
    assert v.accounts.Keys + doomed == w.accounts.Keys;
    SumSame(v.accounts.Keys, w, v);
  }

  lemma BoughtPays(db: Db, m: Message)
    requires Upfront(m) <= Bal(db.world, m.from)
    ensures Total(Bought(db, m).world) == Total(db.world) - Upfront(m)
  {
    var db1 := Write(db, SubBalance(m.from, Upfront(m)));
    SubChanges(db.world, m.from, Upfront(m));
    MovingNoWei(db1.world, SetNonce(m.from, Wrap64(Acct(db1.world, m.from).nonce + 1)));
  }

  lemma BoughtRecorded(db: Db, m: Message)
    requires Recorded(db.world)
    ensures Recorded(Bought(db, m).world)
  {
  }

  /** Sorted marks, a record for every created account, creations that lose nothing when they
      are undone, and what the interpreter guarantees about gas (`Interpreter.EveryRunHalts`). */
  ghost predicate Runnable(db: Db, m: Message, c: Callee) {
    && MarksOk(db) && Recorded(db.world)
    && (m.intrinsic.Some? ==> m.intrinsic.value <= m.gas)
    && ExitGas(c.script) <= GasToRun(m)
    && RunMessage(Bought(db, m), m, c).lossless
  }

  lemma MessageConserves(db: Db, m: Message, c: Callee)
    requires Runnable(db, m, c)
    requires Upfront(m) <= Bal(db.world, m.from) && Total(db.world) < TWO_256
    ensures var r := RunMessage(Bought(db, m), m, c);
            Total(r.db.world) == Total(db.world) - Upfront(m) && r.gasLeft <= GasToRun(m)
  {
    hide Upfront, Bought, Total, Recorded;
    BoughtPays(db, m);
    BoughtRecorded(db, m);
    CallReportsGas(Bought(db, m), m, c);
    if m.to.Some? {
      ExecCallConserves(Bought(db, m), m.from, m.to.value, m.value, GasToRun(m), c.preCost, c.script);
    } else {
      CreateConserves(Bought(db, m), m.from, c.newAddr, c.codeHash, m.value, GasToRun(m), c.script);
    }
  }

  lemma CallReportsGas(db1: Db, m: Message, c: Callee)
    requires MarksOk(db1) && (m.intrinsic.Some? ==> m.intrinsic.value <= m.gas)
    requires ExitGas(c.script) <= GasToRun(m)
    ensures RunMessage(db1, m, c).gasLeft <= GasToRun(m)
  {
    hide RunScript, Write, Transfer, Opened, Bumped, Creatable;
    if m.to.Some? {
      var snap := TakeSnapshot(db1);
      var db2 := if m.value == 0 then snap else Transfer(snap, m.from, m.to.value, m.value);
      RunReportsExitGas(db2, Ctx(m.to.value, m.from), c.script);
    } else {
      var db2 := Opened(Bumped(TakeSnapshot(db1), m.from), c.newAddr);
      var db3 := if m.value == 0 then db2 else Transfer(db2, m.from, c.newAddr, m.value);
      RunReportsExitGas(db3, Ctx(c.newAddr, m.from), c.script);
    }
  }

  lemma Product(a: nat, b: nat, p: nat, q: nat)
    requires a <= b && p <= q
    ensures a * p <= b * q
  {
  }

  lemma FitsInWord(a: U64, p: U64)
    ensures Fee(a, p) < TWO_64 * TWO_64 && Wrap256(Fee(a, p)) == Fee(a, p)
  {
    Product(a, TWO_64 - 1, p, TWO_64 - 1);
  }

  /** gas·p splits into gas returned, base fee and tip. */
  lemma FeeSplit(gas: nat, left: nat, price: nat, base: nat)
    requires left <= gas
    ensures var used := gas - left;
            var tip := if price > base then price - base else 0;
            var kept := if price > base then base else price;
            Fee(gas, price) == Fee(left, price) + Fee(used, kept) + Fee(used, tip)
  {
  }

  // ---------- the law ----------

  function Burned(cfg: Config, m: Message, used: U64): nat {
    Fee(used, if m.gasPrice < cfg.baseFee then m.gasPrice else cfg.baseFee)
  }

  /** Over a whole transaction that runs: the wei after it is the wei before it, less the base
      fee burned on the gas used, plus the refund bonus, less what Finalise deletes. The bonus
      is a 64-bit product, so it is stated as the code computes it. */
  lemma ExecuteConservesWei(db: Db, cfg: Config, m: Message, c: Callee)
    requires Runnable(db, m, c)
    requires Upfront(m) <= Bal(db.world, m.from) && Total(db.world) + TWO_64 <= TWO_256
    ensures var e := Execute(db, cfg, m, c);
            && e.status.Done?
            && e.used == m.gas - e.gasLeft
            && e.bonus <= e.used / 5
            && Total(e.db.world) == Total(db.world) - Burned(cfg, m, e.used)
                                    + Wrap64(Fee(e.bonus, m.gasPrice)) - RemovedBy(Unsettled(db, m, c))
  {
    hide Fee, Total, Runnable, Bought, Finalised, RemovedBy, Apply, EntryFor, RunMessage, Wrap256;
    assert MarksOk(db) && (m.intrinsic.Some? ==> m.intrinsic.value <= m.gas) by {
      RunnableParts(db, m, c);
    }
    MessageConserves(db, m, c);
    var e, r := Execute(db, cfg, m, c), RunMessage(Bought(db, m), m, c);
    FitsInWord(m.gas, m.gasPrice);
    FitsInWord(r.gasLeft, m.gasPrice);
    FitsInWord(e.used, Tip(cfg, m));
    FeeSplit(m.gas, r.gasLeft, m.gasPrice, cfg.baseFee);
    GasReturnedPays(r.db, m, r.gasLeft);
    var db2 := GasReturned(r.db, m, r.gasLeft);
    BonusPays(db2, m, e.bonus);
    var db3 := BonusPaid(db2, m, e.bonus);
    FinaliseRemoves(db3);
    TipPays(Finalised(db3), cfg, m, e.used);
  }

  lemma RunnableParts(db: Db, m: Message, c: Callee)
    requires Runnable(db, m, c)
    ensures MarksOk(db) && (m.intrinsic.Some? ==> m.intrinsic.value <= m.gas)
  {
  }

  lemma GasReturnedPays(db: Db, m: Message, gasLeft: U64)
    requires Total(db.world) + Fee(gasLeft, m.gasPrice) < TWO_256
    ensures Total(GasReturned(db, m, gasLeft).world) == Total(db.world) + Fee(gasLeft, m.gasPrice)
  {
    FitsInWord(gasLeft, m.gasPrice);
    BalancesFit(db.world, m.from, m.from);
    AddChanges(db.world, m.from, Fee(gasLeft, m.gasPrice));
  }

  lemma BonusPays(db: Db, m: Message, bonus: U64)
    requires Total(db.world) + Wrap64(Fee(bonus, m.gasPrice)) < TWO_256
    ensures Total(BonusPaid(db, m, bonus).world) == Total(db.world) + Wrap64(Fee(bonus, m.gasPrice))
  {
    BalancesFit(db.world, m.from, m.from);
    AddChanges(db.world, m.from, Wrap64(Fee(bonus, m.gasPrice)));
  }

  lemma TipPays(db: Db, cfg: Config, m: Message, used: U64)
    requires Total(db.world) + Fee(used, Tip(cfg, m)) < TWO_256
    ensures Total(TipPaid(db, cfg, m, used).world) == Total(db.world) + Fee(used, Tip(cfg, m))
  {
    FitsInWord(used, Tip(cfg, m));
    BalancesFit(db.world, cfg.coinbase, cfg.coinbase);
    AddChanges(db.world, cfg.coinbase, Fee(used, Tip(cfg, m)));
  }

  /** After any transaction, also one that is turned away, the database is well formed again,
      so the law applies to the next one; after one that runs, nothing is left to revert. */
  lemma ExecuteKeepsWellFormed(db: Db, cfg: Config, m: Message, c: Callee)
    requires MarksOk(db) && WellFormed(db.world, db.journal)
    ensures var e := Execute(db, cfg, m, c);
            && MarksOk(e.db) && WellFormed(e.db.world, e.db.journal)
            && (if e.status.Done? then e.db.snapshots == [] && e.db.world.created == {}
                else e.db.snapshots == db.snapshots && e.db.world.created == db.world.created)
  {
    hide RunMessage, Upfront, BonusPaid, GasReturned;
  }

  lemma UpfrontReturned(db: Db, m: Message, a: Address)
    requires Upfront(m) <= Bal(db.world, m.from)
    ensures Bal(Write(Bought(db, m), AddBalance(m.from, Upfront(m))).world, a) == Bal(db.world, a)
  {
    hide Upfront;
    var w := Apply(db.world, SubBalance(m.from, Upfront(m)));
    assert Bal(w, m.from) == Bal(db.world, m.from) - Upfront(m);
    assert Bal(Bought(db, m).world, a) == Bal(w, a);
  }

  /** The two early exits leave every balance as it was. */
  lemma {:induction false} EarlyExitsKeepBalances(db: Db, cfg: Config, m: Message, c: Callee, a: Address)
    requires MarksOk(db) && !Execute(db, cfg, m, c).status.Done?
    ensures Bal(Execute(db, cfg, m, c).db.world, a) == Bal(db.world, a)
  {
    hide RunMessage, Upfront, Finalised, TipPaid, Bought, Write, Bal;
    if Acct(db.world, m.from).balance >= Upfront(m) {
      BalIsBalance(db.world, m.from);
      UpfrontReturned(db, m, a);
    }
  }

  lemma BalIsBalance(w: World, a: Address)
    ensures Bal(w, a) == Acct(w, a).balance
  {
  }
}
