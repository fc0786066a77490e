/** Undo by journal refines "copy the whole state and put the copy back".

    The reference keeps total functions and a stack of saved copies; it has no journal,
    no records and no marks. */
module Journal {
  import opened Types
  import opened State

  // ---------- the reference ----------

  datatype Ref = Ref(acct: Address -> Account, slot: Slot -> Hash, created: Address -> bool)

  function With(r: Ref, a: Address, acc: Account): Ref {
    r.(acct := (x: Address) => if x == a then acc else r.acct(x))
  }

  function RefWrite(r: Ref, op: Op): Ref {
    match op
    case SetBalance(a, v) => With(r, a, r.acct(a).(balance := v))
    case AddBalance(a, v) => With(r, a, r.acct(a).(balance := (r.acct(a).balance + v) % TWO_256))
    case SubBalance(a, v) => With(r, a, r.acct(a).(balance := (r.acct(a).balance - v) % TWO_256))
    case SetNonce(a, n) => With(r, a, r.acct(a).(nonce := n))
    case SetCode(a, c, h) => With(r, a, r.acct(a).(code := c, codeHash := h))
    case CreateAccount(a) =>
      With(r, a, Account(r.acct(a).balance, 0, [], 0, false))
      .(created := (x: Address) => x == a || r.created(x))
    case SetStorage(s, v) => r.(slot := (x: Slot) => var y: Hash := if x == s then v else r.slot(x); y)
    case Suicide(a) => With(r, a, r.acct(a).(suicide := true))
  }

  /** Every read of `w` (balance, nonce, code, code hash, self-destruct mark, created mark,
      current storage) returns what the reference holds. */
  ghost predicate Agrees(w: World, r: Ref) {
    && (forall a: Address :: Acct(w, a) == r.acct(a))
    && (forall s: Slot :: Load(w.storage, s) == r.slot(s))
    && (forall a: Address :: a in w.created <==> r.created(a))
  }

  ghost predicate SameReads(w: World, v: World) {
    && (forall a: Address :: Acct(w, a) == Acct(v, a))
    && (forall s: Slot :: Load(w.storage, s) == Load(v.storage, s))
    && w.created == v.created
  }

  // ---------- well-formed journals ----------

  predicate Touches(e: Entry, a: Address) {
    !e.JStorage? && e.addr == a
  }

  /** Every account that is marked as created or that an entry speaks of has a record, and
      nothing in the journal is older than the creation of the account it speaks of. */
  ghost predicate WellFormed(w: World, s: seq<Entry>) {
    && w.created <= w.accounts.Keys
    && (forall i :: 0 <= i < |s| && !s[i].JStorage? ==> s[i].addr in w.accounts)
    && (forall i, j :: 0 <= i < j < |s| && s[j].JCreate? ==> !Touches(s[i], s[j].addr))
  }

  /** CreateAccount has nothing to lose: the address reads as blank, is not marked as
      created, and no undo record speaks of it. An address without a record qualifies
      (`RecordlessIsCreatable`), and so does the blank record an undone write leaves behind. */
  ghost predicate Creatable(db: Db, a: Address) {
    && Acct(db.world, a) == BLANK
    && a !in db.world.created
    && forall i :: 0 <= i < |db.journal| ==> !Touches(db.journal[i], a)
  }

  ghost predicate Allowed(db: Db, op: Op) {
    op.CreateAccount? ==> Creatable(db, op.addr)
  }

  /** The plain condition suffices: nothing is lost by creating an account where there is none. */
  lemma RecordlessIsCreatable(db: Db, a: Address)
    requires WellFormed(db.world, db.journal) && a !in db.world.accounts
    ensures Creatable(db, a)
  {
  }

  lemma UndoKeepsWellFormed(w: World, s: seq<Entry>)
    requires s != [] && WellFormed(w, s)
    ensures WellFormed(Undo(w, s[|s| - 1]), s[..|s| - 1])
  {
    var e := s[|s| - 1];
    forall i | 0 <= i < |s| - 1 && !s[i].JStorage?
      ensures s[i].addr in Undo(w, e).accounts
    {
      assert e.JCreate? ==> !Touches(s[i], e.addr);
    }
  }

  lemma WriteKeepsWellFormed(db: Db, op: Op)
    requires WellFormed(db.world, db.journal) && Allowed(db, op)
    ensures WellFormed(Write(db, op).world, Write(db, op).journal)
  {
  }

  /** Undoing a write gives back every read, up to blank records. */
  lemma UndoInverts(db: Db, op: Op)
    requires WellFormed(db.world, db.journal) && Allowed(db, op)
    ensures var w' := Undo(Apply(db.world, op), EntryFor(db.world, op));
            SameReads(w', db.world) && WellFormed(w', db.journal)
  {
  }

  lemma UndoRespectsReads(w: World, v: World, e: Entry)
    requires SameReads(w, v)
    requires !e.JStorage? ==> e.addr in w.accounts && e.addr in v.accounts
    ensures SameReads(Undo(w, e), Undo(v, e))
  {
    forall a: Address ensures Acct(Undo(w, e), a) == Acct(Undo(v, e), a) {
      assert Acct(w, a) == Acct(v, a);
    }
    forall s: Slot ensures Load(Undo(w, e).storage, s) == Load(Undo(v, e).storage, s) {
      assert Load(w.storage, s) == Load(v.storage, s);
    }
  }

  lemma {:induction false} UndoAllRespectsReads(w: World, v: World, s: seq<Entry>)
    requires SameReads(w, v) && WellFormed(w, s) && WellFormed(v, s)
    ensures SameReads(UndoAll(w, s), UndoAll(v, s))
    decreases |s|
  {
    if s != [] {
      var e := s[|s| - 1];
      UndoRespectsReads(w, v, e);
      UndoKeepsWellFormed(w, s);
      UndoKeepsWellFormed(v, s);
      UndoAllRespectsReads(Undo(w, e), Undo(v, e), s[..|s| - 1]);
    }
  }

  lemma {:induction false} UndoAllConcat(w: World, s: seq<Entry>, t: seq<Entry>)
    ensures UndoAll(w, s + t) == UndoAll(UndoAll(w, t), s)
    decreases |t|
  {
    if t == [] {
      assert s + t == s;
    } else {
      var n := |t| - 1;
      assert (s + t)[..|s + t| - 1] == s + t[..n];
      UndoAllConcat(Undo(w, t[n]), s, t[..n]);
    }
  }

  lemma {:induction false} UndoAllKeepsWellFormed(w: World, s: seq<Entry>, m: nat)
    requires m <= |s| && WellFormed(w, s)
    ensures WellFormed(UndoAll(w, s[m..]), s[..m])
    decreases |s| - m
  {
    if m == |s| {
      assert s[..m] == s;
    } else {
      var n := |s| - 1;
      UndoKeepsWellFormed(w, s);
      UndoAllKeepsWellFormed(Undo(w, s[n]), s[..n], m);
      assert s[..n][m..] == s[m..][..n - m] && s[..n][..m] == s[..m];
    }
  }

  // ---------- the simulation ----------

  /** The database is indistinguishable from a current reference state with a stack of
      saved copies: rolling the journal back to mark k always reads as copy k. */
  ghost predicate Simulates(db: Db, cur: Ref, saved: seq<Ref>) {
    && MarksOk(db)
    && |saved| == |db.snapshots|
    && WellFormed(db.world, db.journal)
    && Agrees(db.world, cur)
    && forall k :: 0 <= k < |saved| ==> Agrees(UndoAll(db.world, db.journal[db.snapshots[k]..]), saved[k])
  }

  /** Rolling back past a write reads like rolling back without it. */
  lemma RollbackForgetsWrite(db: Db, op: Op, tail: seq<Entry>)
    requires WellFormed(db.world, db.journal) && Allowed(db, op)
    requires exists m :: 0 <= m <= |db.journal| && tail == db.journal[m..]
    ensures SameReads(UndoAll(Apply(db.world, op), tail + [EntryFor(db.world, op)]), UndoAll(db.world, tail))
  {
    var e, w := EntryFor(db.world, op), Apply(db.world, op);
    UndoInverts(db, op);
    UndoAllConcat(w, tail, [e]);
    assert UndoAll(w, [e]) == UndoAll(Undo(w, e), []) == Undo(w, e);
    UndoAllRespectsReads(Undo(w, e), db.world, tail);
  }

  lemma WriteSimulates(db: Db, cur: Ref, saved: seq<Ref>, op: Op)
    requires Simulates(db, cur, saved) && Allowed(db, op)
    ensures Simulates(Write(db, op), RefWrite(cur, op), saved)
  {
    hide UndoAll, Apply, EntryFor, RefWrite, Allowed;
    var db' := Write(db, op);
    WriteKeepsWellFormed(db, op);
    ApplyAgrees(db.world, cur, op);
    forall k | 0 <= k < |saved|
      ensures Agrees(UndoAll(db'.world, db'.journal[db'.snapshots[k]..]), saved[k])
    {
      var tail := db.journal[db.snapshots[k]..];
      assert db'.journal[db'.snapshots[k]..] == tail + [EntryFor(db.world, op)];
      RollbackForgetsWrite(db, op, tail);
    }
  }

  lemma ApplyAgrees(w: World, r: Ref, op: Op)
    requires Agrees(w, r)
    ensures Agrees(Apply(w, op), RefWrite(r, op))
  {
  }

  lemma SnapshotSimulates(db: Db, cur: Ref, saved: seq<Ref>)
    requires Simulates(db, cur, saved)
    ensures Simulates(TakeSnapshot(db), cur, saved + [cur])
  {
    assert db.journal[|db.journal|..] == [];
  }

  /** Reverting to snapshot `id` puts back the copy taken when `id` was handed out. */
  lemma RevertSimulates(db: Db, cur: Ref, saved: seq<Ref>, id: nat)
    requires Simulates(db, cur, saved) && id < |saved|
    ensures Simulates(Revert(db, id), saved[id], saved[..id])
  {
    var mark := db.snapshots[id];
    var db' := Revert(db, id);
    UndoAllKeepsWellFormed(db.world, db.journal, mark);
    forall k | 0 <= k < id
      ensures Agrees(UndoAll(db'.world, db'.journal[db'.snapshots[k]..]), saved[k])
    {
      var m := db.snapshots[k];
      assert db.journal[m..] == db.journal[..mark][m..] + db.journal[mark..];
      UndoAllConcat(db.world, db.journal[..mark][m..], db.journal[mark..]);
    }
  }

  /** Two states that agree with one reference read alike. */
  lemma SameReferenceSameReads(w: World, v: World, cur: Ref)
    requires Agrees(w, cur) && Agrees(v, cur)
    ensures SameReads(v, w)
  {
    forall a: Address ensures Acct(v, a) == Acct(w, a) {
      assert Acct(v, a) == cur.acct(a) == Acct(w, a);
    }
    forall s: Slot ensures Load(v.storage, s) == Load(w.storage, s) {
      assert Load(v.storage, s) == cur.slot(s) == Load(w.storage, s);
    }
    assert v.created == w.created;
  }

  /** The reference state that reads like `w`. */
  function RefOf(w: World): Ref {
    Ref((a: Address) => Acct(w, a),
        (s: Slot) => var v: Hash := Load(w.storage, s); v,
        (a: Address) => a in w.created)
  }

  function CopiesOf(db: Db): seq<Ref>
    requires MarksOk(db)
  {
    seq(|db.snapshots|, k requires 0 <= k < |db.snapshots| => RefOf(UndoAll(db.world, db.journal[db.snapshots[k]..])))
  }

  /** Every well-formed database is simulated by the copies its own journal describes. */
  lemma WellFormedSimulates(db: Db)
    requires MarksOk(db) && WellFormed(db.world, db.journal)
    ensures Simulates(db, RefOf(db.world), CopiesOf(db))
  {
  }

  // ---------- every sequence of commands ----------

  /** `Settle` is Finalise, which ends a transaction. */
  datatype Command = Do(op: Op) | Mark | Back(id: nat) | Settle

  /** Self-destructed accounts vanish with their storage, and the saved copies are dropped. */
  function RefFinalised(r: Ref): Ref {
    Ref((a: Address) => if r.acct(a).suicide then BLANK else r.acct(a),
        (s: Slot) => var v: Hash := if r.acct(s.addr).suicide then 0 else r.slot(s); v,
        (a: Address) => false)
  }

  lemma FinaliseSimulates(db: Db, cur: Ref, saved: seq<Ref>)
    requires Simulates(db, cur, saved)
    ensures Simulates(Finalised(db), RefFinalised(cur), [])
  {
    var w, v := db.world, Finalised(db).world;
    forall a: Address ensures Acct(v, a) == RefFinalised(cur).acct(a) {
      assert Acct(w, a) == cur.acct(a);
    }
    forall s: Slot ensures Load(v.storage, s) == RefFinalised(cur).slot(s) {
      assert Acct(w, s.addr) == cur.acct(s.addr) && Load(w.storage, s) == cur.slot(s);
    }
  }

  /** The database's side. `clean` says that every CreateAccount had nothing to lose. */
  ghost function RunDb(db: Db, cs: seq<Command>): (r: (Db, bool))
    requires MarksOk(db)
    ensures MarksOk(r.0)
    decreases |cs|
  {
    if cs == [] then (db, true)
    else match cs[0]
      case Do(op) =>
        var r := RunDb(Write(db, op), cs[1..]);
        (r.0, r.1 && Allowed(db, op))
      case Mark => RunDb(TakeSnapshot(db), cs[1..])
      case Back(id) => RunDb(Revert(db, id), cs[1..])
      case Settle => RunDb(Finalised(db), cs[1..])
  }

  ghost function RunRef(cur: Ref, saved: seq<Ref>, cs: seq<Command>): (Ref, seq<Ref>)
    decreases |cs|
  {
    if cs == [] then (cur, saved)
    else match cs[0]
      case Do(op) => RunRef(RefWrite(cur, op), saved, cs[1..])
      case Mark => RunRef(cur, saved + [cur], cs[1..])
      case Back(id) =>
        if id < |saved| then RunRef(saved[id], saved[..id], cs[1..]) else RunRef(cur, saved, cs[1..])
      case Settle => RunRef(RefFinalised(cur), [], cs[1..])
  }

  /** Every sequence of writes, snapshots and reverts, with any ids in any order, over any
      number of transactions. */
  lemma {:induction false} JournalRefinesCopies(db: Db, cur: Ref, saved: seq<Ref>, cs: seq<Command>)
    requires Simulates(db, cur, saved) && RunDb(db, cs).1
    ensures Simulates(RunDb(db, cs).0, RunRef(cur, saved, cs).0, RunRef(cur, saved, cs).1)
    decreases |cs|
  {
    if cs != [] {
      match cs[0]
      case Do(op) =>
        WriteSimulates(db, cur, saved, op);
        JournalRefinesCopies(Write(db, op), RefWrite(cur, op), saved, cs[1..]);
      case Mark =>
        SnapshotSimulates(db, cur, saved);
        JournalRefinesCopies(TakeSnapshot(db), cur, saved + [cur], cs[1..]);
      case Back(id) =>
        if id < |saved| {
          RevertSimulates(db, cur, saved, id);
          JournalRefinesCopies(Revert(db, id), saved[id], saved[..id], cs[1..]);
        } else {
          JournalRefinesCopies(db, cur, saved, cs[1..]);
        }
      case Settle =>
        FinaliseSimulates(db, cur, saved);
        JournalRefinesCopies(Finalised(db), RefFinalised(cur), [], cs[1..]);
    }
  }

  // ---------- a creation taken back ----------

  /** What undoing a creation leaves: the address has no record and no mark. */
  function Without(w: World, a: Address): World {
    w.(accounts := w.accounts - {a}, created := w.created - {a})
  }

  predicate ReadsBlank(w: World, a: Address) {
    Acct(w, a) == BLANK && a !in w.created
  }

  /** Older undo records find no record to work on, or work on others. */
  lemma {:induction false} UndoAllWithout(w: World, s: seq<Entry>, a: Address)
    ensures UndoAll(Without(w, a), s) == Without(UndoAll(w, s), a)
    decreases |s|
  {
    if s != [] {
      var e := s[|s| - 1];
      UndoWithout(w, e, a);
      UndoAllWithout(Undo(w, e), s[..|s| - 1], a);
    }
  }

  lemma UndoWithout(w: World, e: Entry, a: Address)
    ensures Undo(Without(w, a), e) == Without(Undo(w, e), a)
  {
    var v, v' := Undo(Without(w, a), e), Without(Undo(w, e), a);
    assert v.accounts == v'.accounts;
    assert v.created == v'.created;
  }

  lemma WithoutReadsTheSameIff(w: World, a: Address)
    ensures SameReads(Without(w, a), w) <==> ReadsBlank(w, a)
  {
    assert Acct(Without(w, a), a) == BLANK && a !in Without(w, a).created;
    assert forall b: Address :: b != a ==> Acct(Without(w, a), b) == Acct(w, b);
  }

  /** Rolling back to mark k. */
  function BackTo(w: World, db: Db, k: nat): World
    requires MarksOk(db) && k < |db.snapshots|
  {
    UndoAll(w, db.journal[db.snapshots[k]..])
  }

  /** The database reads as before now, and after a revert to any older snapshot. */
  ghost predicate SameReadsForGood(w: World, db: Db)
    requires MarksOk(db)
  {
    && SameReads(w, db.world)
    && (forall k :: 0 <= k < |db.snapshots| ==> SameReads(BackTo(w, db, k), BackTo(db.world, db, k)))
  }

  lemma CreationTakenBack(db: Db, a: Address)
    requires MarksOk(db)
    ensures Revert(Write(TakeSnapshot(db), CreateAccount(a)), |db.snapshots|) == db.(world := Without(db.world, a))
  {
    var w := Apply(db.world, CreateAccount(a));
    var journal := Write(TakeSnapshot(db), CreateAccount(a)).journal;
    assert journal[|db.journal|..] == [JCreate(a)] && journal[..|db.journal|] == db.journal;
    assert UndoAll(w, [JCreate(a)]) == UndoAll(Undo(w, JCreate(a)), []);
    assert Undo(w, JCreate(a)).accounts == Without(db.world, a).accounts;
    assert Undo(w, JCreate(a)).created == Without(db.world, a).created;
  }

  /** One CreateAccount taken back does no harm, now or after any older revert, exactly when
      the address reads as blank and unmarked, now and in every state an open snapshot stands
      for. */
  lemma CreateIsUndoneIffBlank(db: Db, a: Address)
    requires MarksOk(db)
    ensures var back := Revert(Write(TakeSnapshot(db), CreateAccount(a)), |db.snapshots|);
            && back.journal == db.journal && back.snapshots == db.snapshots
            && (SameReadsForGood(back.world, db)
                <==> ReadsBlank(db.world, a)
                     && forall k :: 0 <= k < |db.snapshots| ==> ReadsBlank(BackTo(db.world, db, k), a))
  {
    CreationTakenBack(db, a);
    WithoutReadsTheSameIff(db.world, a);
    forall k | 0 <= k < |db.snapshots|
      ensures SameReads(BackTo(Without(db.world, a), db, k), BackTo(db.world, db, k))
              <==> ReadsBlank(BackTo(db.world, db, k), a)
    {
      UndoAllWithout(db.world, db.journal[db.snapshots[k]..], a);
      WithoutReadsTheSameIff(BackTo(db.world, db, k), a);
    }
  }

  /** An account emptied and then created again: the undone creation takes the record away that
      the undo of the emptying would have filled. */
  lemma UndoneCreateSpoilsOlderSnapshot()
    ensures var db := Write(TakeSnapshot(Write(NEW_DB, SetBalance(7, 5))), SetBalance(7, 0));
            var back := Revert(Write(TakeSnapshot(db), CreateAccount(7)), 1);
            && ReadsBlank(db.world, 7) && SameReads(back.world, db.world)
            && Acct(Revert(db, 0).world, 7).balance == 5 && Acct(Revert(back, 0).world, 7).balance == 0
  {
    var db := Write(TakeSnapshot(Write(NEW_DB, SetBalance(7, 5))), SetBalance(7, 0));
    CreationTakenBack(db, 7);
    WithoutReadsTheSameIff(db.world, 7);
    UndoAllWithout(db.world, db.journal[1..], 7);
    assert db.journal[1..] == [JBalance(7, 5)];
    assert UndoAll(db.world, [JBalance(7, 5)]) == UndoAll(Undo(db.world, JBalance(7, 5)), []);
  }

  /** One write taken back leaves the same accounts existing exactly when it was to storage,
      created an account that was not there, or changed one that was. */
  lemma ExistsIsUndoneIff(db: Db, op: Op)
    requires MarksOk(db)
    ensures var back := Revert(Write(TakeSnapshot(db), op), |db.snapshots|);
            back.world.accounts.Keys == db.world.accounts.Keys
            <==> op.SetStorage? || (op.CreateAccount? <==> op.addr !in db.world.accounts)
  {
    var e, w := EntryFor(db.world, op), Apply(db.world, op);
    var journal := Write(TakeSnapshot(db), op).journal;
    assert journal[|db.journal|..] == [e];
    assert UndoAll(w, [e]) == UndoAll(Undo(w, e), []) == Undo(w, e);
    UndoneKeys(db.world, op);
  }

  lemma UndoneKeys(w: World, op: Op)
    ensures var back := Undo(Apply(w, op), EntryFor(w, op));
            back.accounts.Keys == if op.SetStorage? then w.accounts.Keys
                                  else if op.CreateAccount? then w.accounts.Keys - {op.addr}
                                  else w.accounts.Keys + {op.addr}
  {
  }

  /** A balance set to zero where there was no account: the account exists after the revert. */
  lemma UndoneWriteLeavesRecord()
    ensures var back := Revert(Write(TakeSnapshot(NEW_DB), SetBalance(7, 0)), 0);
            7 !in NEW_DB.world.accounts && 7 in back.world.accounts
  {
    ExistsIsUndoneIff(NEW_DB, SetBalance(7, 0));
    var w := Apply(NEW_DB.world, SetBalance(7, 0));
    assert Write(TakeSnapshot(NEW_DB), SetBalance(7, 0)).journal[0..] == [JBalance(7, 0)];
    assert UndoAll(w, [JBalance(7, 0)]) == UndoAll(Undo(w, JBalance(7, 0)), []);
  }

  /** The journal does lose state when the address is not blank: a pre-funded address
      whose creation is undone is left with nothing. */
  lemma UndoneCreateLosesBalance()
    ensures var db := Write(NEW_DB, SetBalance(7, 5));
            var back := Revert(Write(TakeSnapshot(db), CreateAccount(7)), 0);
            Acct(db.world, 7).balance == 5 && Acct(back.world, 7).balance == 0
  {
    var db := Write(NEW_DB, SetBalance(7, 5));
    var w := Apply(db.world, CreateAccount(7));
    assert Write(TakeSnapshot(db), CreateAccount(7)).journal[1..] == [JCreate(7)];
    assert UndoAll(w, [JCreate(7)]) == UndoAll(Undo(w, JCreate(7)), []);
  }
}
