/** The committed value of a storage slot (`GetCommittedStorage`) is write-once, through all
    writes, snapshots and reverts, and across transactions, since Finalise keeps it; and
    SSTORE's metering over the real state follows it. */
module Committed {
  import opened Types
  import opened State
  import opened Journal
  import Gas

  function CommittedValue(w: World, s: Slot): Hash {
    Load(w.orig, s)
  }

  /** The value remembered by the oldest undo record of slot `k`. */
  function OldestRecord(s: seq<Entry>, k: Slot): Option<Hash> {
    if s == [] then None
    else
      var front, last := OldestRecord(s[..|s| - 1], k), s[|s| - 1];
      if front.Some? then front
      else if last.JStorage? && last.slot == k then Some(last.oldVal)
      else None
  }

  /** What the slot held when the transaction began: the oldest record's value if the journal
      has one, else the current value. */
  function TxStart(db: Db, k: Slot): Hash {
    match OldestRecord(db.journal, k)
    case Some(v) => v
    case None => Load(db.world.storage, k)
  }

  /** A committed value, once there, is still there and the same. */
  predicate Remembers(db: Db, db': Db, k: Slot) {
    k in db.world.orig ==> k in db'.world.orig && db'.world.orig[k] == db.world.orig[k]
  }

  /** A slot that holds something, or that the journal has a record of, has a committed value. */
  ghost predicate WrittenIsCommitted(db: Db, k: Slot) {
    (k in db.world.storage || OldestRecord(db.journal, k).Some?) ==> k in db.world.orig
  }

  lemma {:induction false} RecordOfConcat(s: seq<Entry>, t: seq<Entry>, k: Slot)
    ensures OldestRecord(s + t, k) == if OldestRecord(s, k).Some? then OldestRecord(s, k) else OldestRecord(t, k)
    decreases |t|
  {
    if t == [] {
      assert s + t == s;
    } else {
      assert (s + t)[..|s + t| - 1] == s + t[..|t| - 1];
      RecordOfConcat(s, t[..|t| - 1], k);
    }
  }

  /** Undoing a stretch of the journal gives the slot the value its oldest record remembers. */
  lemma {:induction false} UndoneSlot(w: World, s: seq<Entry>, k: Slot)
    ensures UndoAll(w, s).orig == w.orig
    ensures Load(UndoAll(w, s).storage, k)
         == match OldestRecord(s, k) case Some(v) => v case None => Load(w.storage, k)
    decreases |s|
  {
    if s != [] {
      UndoneSlot(Undo(w, s[|s| - 1]), s[..|s| - 1], k);
    }
  }

  lemma WriteKeepsSlot(db: Db, op: Op, k: Slot)
    ensures var db' := Write(db, op);
            && TxStart(db', k) == TxStart(db, k) && Remembers(db, db', k)
            && (WrittenIsCommitted(db, k) ==> WrittenIsCommitted(db', k))
  {
    RecordOfConcat(db.journal, [EntryFor(db.world, op)], k);
    SingleRecord(EntryFor(db.world, op), k);
    hide OldestRecord;
  }

  lemma SingleRecord(e: Entry, k: Slot)
    ensures OldestRecord([], k) == None
    ensures OldestRecord([e], k) == if e.JStorage? && e.slot == k then Some(e.oldVal) else None
  {
    assert [e][..0] == [];
  }

  lemma RevertKeepsSlot(db: Db, id: nat, k: Slot)
    requires MarksOk(db)
    ensures var db' := Revert(db, id);
            && TxStart(db', k) == TxStart(db, k) && Remembers(db, db', k)
            && (WrittenIsCommitted(db, k) ==> WrittenIsCommitted(db', k))
  {
    if id < |db.snapshots| {
      var mark := db.snapshots[id];
      assert db.journal == db.journal[..mark] + db.journal[mark..];
      RecordOfConcat(db.journal[..mark], db.journal[mark..], k);
      UndoneSlot(db.world, db.journal[mark..], k);
      UndoneKeys(db.world, db.journal[mark..], k);
    }
  }

  lemma {:induction false} UndoneKeys(w: World, s: seq<Entry>, k: Slot)
    ensures k in UndoAll(w, s).storage ==> k in w.storage || OldestRecord(s, k).Some?
    decreases |s|
  {
    if s != [] {
      UndoneKeys(Undo(w, s[|s| - 1]), s[..|s| - 1], k);
    }
  }

  lemma FinaliseKeepsSlot(db: Db, k: Slot)
    ensures var db' := Finalised(db);
            && MarksOk(db') && TxStart(db', k) == (if Doomed(db.world.accounts, k.addr) then 0
                else Load(db.world.storage, k))
            && Remembers(db, db', k)
            && (WrittenIsCommitted(db, k) ==> WrittenIsCommitted(db', k))
  {
  }

  /** Over every sequence of writes, snapshots and reverts, and across transactions: once a
      slot has a committed value it keeps it, whatever accounts are created, called, rolled
      back or deleted; and no slot is ever written without getting one. */
  lemma {:induction false} CommittedIsWriteOnce(db: Db, cs: seq<Command>, k: Slot)
    requires MarksOk(db)
    ensures Remembers(db, RunDb(db, cs).0, k)
    ensures WrittenIsCommitted(db, k) ==> WrittenIsCommitted(RunDb(db, cs).0, k)
    ensures Settle !in cs ==> TxStart(RunDb(db, cs).0, k) == TxStart(db, k)
    decreases |cs|
  {
    hide Write, Revert, Finalised, Allowed, TxStart, WrittenIsCommitted;
    if cs != [] {
      match cs[0]
      case Do(op) =>
        WriteKeepsSlot(db, op, k);
        CommittedIsWriteOnce(Write(db, op), cs[1..], k);
      case Mark =>
        MarkKeepsSlot(db, k);
        CommittedIsWriteOnce(TakeSnapshot(db), cs[1..], k);
      case Back(id) =>
        RevertKeepsSlot(db, id, k);
        CommittedIsWriteOnce(Revert(db, id), cs[1..], k);
      case Settle =>
        FinaliseKeepsSlot(db, k);
        CommittedIsWriteOnce(Finalised(db), cs[1..], k);
    }
  }

  lemma MarkKeepsSlot(db: Db, k: Slot)
    ensures TxStart(TakeSnapshot(db), k) == TxStart(db, k)
    ensures WrittenIsCommitted(db, k) ==> WrittenIsCommitted(TakeSnapshot(db), k)
  {
  }

  /** The first write of a slot commits the value read just before it. */
  lemma FirstWriteCommits(db: Db, k: Slot, v: Hash)
    requires k !in db.world.orig
    ensures CommittedValue(Write(db, SetStorage(k, v)).world, k) == Load(db.world.storage, k)
  {
  }

  /** Reverting to a snapshot older than every surviving write of a slot in this transaction
      puts back what the slot held when the transaction began. That is the committed value
      exactly when the two were the same to start with. */
  lemma RevertedSlotReadsTxStart(db: Db, k: Slot, id: nat)
    requires MarksOk(db) && id < |db.snapshots| && OldestRecord(db.journal[..db.snapshots[id]], k) == None
    ensures var back := Revert(db, id).world;
            && Load(back.storage, k) == TxStart(db, k)
            && (Load(back.storage, k) == CommittedValue(back, k) <==> TxStart(db, k) == CommittedValue(db.world, k))
  {
    RevertKeepsSlot(db, id, k);
    UndoneSlot(db.world, db.journal[db.snapshots[id]..], k);
  }

  /** In the first transaction they are: from an empty database, until the first Finalise,
      such a revert makes current and committed value the same. */
  lemma RevertedSlotReadsCommitted(cs: seq<Command>, k: Slot, id: nat)
    requires Settle !in cs
    requires var db := RunDb(NEW_DB, cs).0;
             id < |db.snapshots| && OldestRecord(db.journal[..db.snapshots[id]], k) == None
    ensures var back := Revert(RunDb(NEW_DB, cs).0, id);
            Load(back.world.storage, k) == CommittedValue(back.world, k)
  {
    var db := RunDb(NEW_DB, cs).0;
    FirstTransaction(NEW_DB, cs, k);
    RevertedSlotReadsTxStart(db, k, id);
  }

  /** While only one transaction has run, the committed value is the one it started from. */
  lemma {:induction false} FirstTransaction(db: Db, cs: seq<Command>, k: Slot)
    requires MarksOk(db) && Settle !in cs && TxStart(db, k) == CommittedValue(db.world, k)
    requires WrittenIsCommitted(db, k)
    ensures var db' := RunDb(db, cs).0; TxStart(db', k) == CommittedValue(db'.world, k)
    decreases |cs|
  {
    hide Revert, Allowed, OldestRecord;
    if cs != [] {
      match cs[0]
      case Do(op) =>
        WriteKeepsSlot(db, op, k);
        FirstTransaction(Write(db, op), cs[1..], k);
      case Mark =>
        FirstTransaction(TakeSnapshot(db), cs[1..], k);
      case Back(id) =>
        RevertKeepsSlot(db, id, k);
        RevertKeepsOrig(db, id);
        FirstTransaction(Revert(db, id), cs[1..], k);
    }
  }

  lemma RevertKeepsOrig(db: Db, id: nat)
    requires MarksOk(db)
    ensures Revert(db, id).world.orig == db.world.orig
  {
    if id < |db.snapshots| {
      UndoneSlot(db.world, db.journal[db.snapshots[id]..], Slot(0, 0));
    }
  }

  /** Later transactions need not: after Finalise a slot starts from its committed value
      exactly when a deleted account's slot had committed zero, or any other slot held its
      committed value at the end of the transaction. */
  lemma FreshStartIff(db: Db, k: Slot)
    ensures var db' := Finalised(db);
            TxStart(db', k) == CommittedValue(db'.world, k)
            <==> CommittedValue(db.world, k) == if Doomed(db.world.accounts, k.addr) then 0
                else Load(db.world.storage, k)
  {
    FinaliseKeepsSlot(db, k);
  }

  /** And they do not: a slot set to 5 in the first transaction is back at 5 whenever the
      second writes and reverts it, but its committed value is still the 0 of the first. */
  lemma SecondTransactionIsStale(k: Slot, v: Hash)
    ensures var db := Finalised(Write(NEW_DB, SetStorage(k, 5)));
            var back := Revert(Write(TakeSnapshot(db), SetStorage(k, v)), |db.snapshots|).world;
            Load(back.storage, k) == 5 && CommittedValue(back, k) == 0
  {
    var db := Finalised(Write(NEW_DB, SetStorage(k, 5)));
    AfterFirstWrite(k);
    WriteTakenBack(db, k, v);
  }

  lemma AfterFirstWrite(k: Slot)
    ensures var db := Finalised(Write(NEW_DB, SetStorage(k, 5)));
            && db.journal == [] && db.snapshots == []
            && db.world.orig == map[k := 0] && Load(db.world.storage, k) == 5
  {
  }

  /** A first write of a transaction, taken back. */
  lemma WriteTakenBack(db: Db, k: Slot, v: Hash)
    requires MarksOk(db) && db.journal == [] && k in db.world.orig
    ensures var back := Revert(Write(TakeSnapshot(db), SetStorage(k, v)), |db.snapshots|).world;
            Load(back.storage, k) == Load(db.world.storage, k) && CommittedValue(back, k) == CommittedValue(db.world, k)
  {
    hide OldestRecord, Revert, Apply;
    var marked := TakeSnapshot(db);
    var db' := Write(marked, SetStorage(k, v));
    SingleRecord(JCreate(0), k);
    WriteKeepsSlot(marked, SetStorage(k, v), k);
    RevertedSlotReadsTxStart(db', k, |db.snapshots|);
    RevertKeepsOrig(db', |db.snapshots|);
  }

  // ---------- metering over the real state ----------

  /** Cost less refund of a run of SSTOREs to one warm slot, with the current and committed
      values read from the database before each write, as the interpreter does. */
  function MeteredWrites(db: Db, k: Slot, writes: seq<Hash>): int
    decreases |writes|
  {
    if writes == [] then 0
    else
      var (cost, refund) := Gas.SstoreCost(Load(db.world.storage, k), CommittedValue(db.world, k), writes[0]);
      cost - refund + MeteredWrites(Write(db, SetStorage(k, writes[0])), k, writes[1..])
  }

  /** The charges are those of the metering model with the slot's committed value, for a slot
      that has one or that holds zero. */
  lemma {:induction false} MeteringFollowsCommitted(db: Db, k: Slot, writes: seq<Hash>)
    requires WrittenIsCommitted(db, k)
    ensures MeteredWrites(db, k, writes)
         == Gas.NetCost(CommittedValue(db.world, k), Load(db.world.storage, k), true, writes)
    decreases |writes|
  {
    if writes != [] {
      WriteKeepsSlot(db, SetStorage(k, writes[0]), k);
      MeteringFollowsCommitted(Write(db, SetStorage(k, writes[0])), k, writes[1..]);
    }
  }

  /** In any state reached from an empty database, over any number of transactions, a run of
      writes to a slot whose committed value is zero costs 100 a write and 19900 for leaving
      it non-zero where it was zero. */
  lemma ZeroCommittedBill(cs: seq<Command>, k: Slot, writes: seq<Hash>)
    requires CommittedValue(RunDb(NEW_DB, cs).0.world, k) == 0
    ensures var db := RunDb(NEW_DB, cs).0;
            var current := Load(db.world.storage, k);
            MeteredWrites(db, k, writes)
              == 100 * |writes| + Gas.Premium(Gas.Final(current, writes)) - Gas.Premium(current)
  {
    var db := RunDb(NEW_DB, cs).0;
    CommittedIsWriteOnce(NEW_DB, cs, k);
    MeteringFollowsCommitted(db, k, writes);
    Gas.ZeroOriginalNetCost(Load(db.world.storage, k), true, writes);
  }

  /** The bill EIP-2200 asks for: the original value is the one the transaction began with. */
  ghost predicate BilledFromTxStart(db: Db, k: Slot) {
    forall writes: seq<Hash> ::
      MeteredWrites(db, k, writes) == Gas.NetCost(TxStart(db, k), Load(db.world.storage, k), true, writes)
  }

  /** At the start of a transaction the code meters a slot as EIP-2200 asks, for all writes to
      come, exactly when the committed value is the one the slot now holds. */
  lemma BilledFromTxStartIff(db: Db, k: Slot)
    requires db.journal == [] && WrittenIsCommitted(db, k)
    ensures BilledFromTxStart(db, k) <==> CommittedValue(db.world, k) == Load(db.world.storage, k)
  {
    var current := Load(db.world.storage, k);
    forall writes: seq<Hash>
      ensures MeteredWrites(db, k, writes) == Gas.NetCost(CommittedValue(db.world, k), current, true, writes)
    {
      MeteringFollowsCommitted(db, k, writes);
    }
    var w: Hash := if current == 1 then 2 else 1;
    assert [w][1..] == [];
    OneWrite(CommittedValue(db.world, k), current, w);
    OneWrite(current, current, w);
  }

  lemma OneWrite(original: Hash, current: Hash, w: Hash)
    requires w != current && w != 0
    ensures Gas.NetCost(original, current, true, [w]) >= 2900 <==> original == current
  {
    assert [w][1..] == [];
  }
}
