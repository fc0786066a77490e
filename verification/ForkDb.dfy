/** The lazy fork database (forkdb/forkdb.go with evm/forkdb_adapter.go) agrees with a state
    database into which the whole remote state was loaded beforehand. */
module ForkDb {
  import opened Types
  import opened State

  /** The remote chain at a fixed block; RPC is this function, or a failure. */
  datatype Remote = Remote(acct: Address -> Account, slot: Slot -> Hash)

  /** The inner database and what has been fetched into it. */
  datatype Lazy = Lazy(db: Db, accounts: set<Address>, slots: set<Slot>)

  datatype ForkOp =
    | ReadAccount(addr: Address)
    | ReadExists(addr: Address)
    | ReadSuicided(addr: Address)
    | ReadCreated(addr: Address)
    | ReadStorage(slot: Slot)
    | ReadCommitted(slot: Slot)
    | Change(op: Op)
    | Snap
    | RevertTo(id: nat)

  datatype Reading = Silent | AccountIs(acc: Account) | HashIs(value: Hash) | Truth(b: bool)

  // ---------- fetching ----------

  /** fetchAccount never brings a self-destruct mark. */
  function Fetched(r: Remote, a: Address): Account {
    r.acct(a).(suicide := false)
  }

  function InstallAccount(db: Db, a: Address, acc: Account): Db {
    db.(world := Put(db.world, a, acc))
  }

  function InstallSlot(db: Db, s: Slot, v: Hash): Db {
    db.(world := db.world.(storage := db.world.storage[s := v],
                           orig := if s in db.world.orig then db.world.orig else db.world.orig[s := v]))
  }

  function WithAccount(l: Lazy, r: Remote, a: Address): Lazy {
    if a in l.accounts then l
    else Lazy(InstallAccount(l.db, a, Fetched(r, a)), l.accounts + {a}, l.slots)
  }

  function WithSlot(l: Lazy, r: Remote, s: Slot): Lazy {
    if s in l.slots then l
    else Lazy(InstallSlot(l.db, s, r.slot(s)), l.accounts, l.slots + {s})
  }

  // ---------- operations ----------

  /** The account a write loads before it delegates; Suicide loads nothing. */
  function AddrOf(op: Op): Address {
    if op.SetStorage? then op.slot.addr else op.addr
  }

  /** One operation on a plain state database. */
  function EagerStep(db: Db, o: ForkOp): (Db, Reading)
    requires MarksOk(db)
  {
    match o
    case ReadAccount(a) => (db, AccountIs(Acct(db.world, a)))
    case ReadExists(a) => (db, Truth(a in db.world.accounts))
    case ReadSuicided(a) => (db, Truth(Acct(db.world, a).suicide))
    case ReadCreated(a) => (db, Truth(a in db.world.created))
    case ReadStorage(s) => (db, HashIs(Load(db.world.storage, s)))
    case ReadCommitted(s) => (db, HashIs(Load(db.world.orig, s)))
    case Change(op) => (Write(db, op), Silent)
    case Snap => (TakeSnapshot(db), Silent)
    case RevertTo(id) => (Revert(db, id), Silent)
  }

  /** What the adapter loads before it delegates. */
  function Ensured(l: Lazy, r: Remote, o: ForkOp): Lazy {
    match o
    case ReadAccount(a) => WithAccount(l, r, a)
    case ReadExists(a) => WithAccount(l, r, a)
    case ReadStorage(s) => WithSlot(l, r, s)
    case ReadCommitted(s) => WithSlot(l, r, s)
    case Change(op) => if op.Suicide? then l else WithAccount(l, r, AddrOf(op))
    case _ => l
  }

  /** An adapter method when the remote call goes through or fails; a failure is dropped and
      the inner database used as it is. What was fetched before needs no call. */
  function LazyAttempt(l: Lazy, r: Remote, o: ForkOp, rpcOk: bool): (Lazy, Reading)
    requires MarksOk(l.db)
  {
    var l' := if rpcOk then Ensured(l, r, o) else l;
    var (db, reading) := EagerStep(l'.db, o);
    (l'.(db := db), reading)
  }

  function LazyStep(l: Lazy, r: Remote, o: ForkOp): (Lazy, Reading)
    requires MarksOk(l.db)
  {
    LazyAttempt(l, r, o, true)
  }

  /** Slots are read before they are written (as SSTORE does) and accounts before they are
      self-destructed (as SELFDESTRUCT does). */
  predicate Disciplined(l: Lazy, o: ForkOp) {
    o.Change? ==> match o.op
      case SetStorage(s, _) => s in l.slots
      case Suicide(a) => a in l.accounts
      case _ => true
  }

  // ---------- the eager counterpart ----------

  /** Part of the remote state to load: any that covers the operations at hand. */
  datatype Scope = Scope(accounts: set<Address>, slots: set<Slot>)

  predicate Covers(u: Scope, o: ForkOp) {
    match o
    case ReadAccount(a) => a in u.accounts
    case ReadExists(a) => a in u.accounts
    case ReadStorage(s) => s in u.slots
    case ReadCommitted(s) => s in u.slots
    case Change(op) => AddrOf(op) in u.accounts
    case _ => true
  }

  /** `w` with the records `accts` and the slots `slots` underneath. */
  function Over(w: World, accts: map<Address, Account>, slots: map<Slot, Hash>): World {
    w.(accounts := accts + w.accounts, storage := slots + w.storage, orig := slots + w.orig)
  }

  function MissingAccounts(l: Lazy, r: Remote, u: Scope): map<Address, Account> {
    map a | a in u.accounts && a !in l.accounts :: Fetched(r, a)
  }

  function MissingSlots(l: Lazy, r: Remote, u: Scope): map<Slot, Hash> {
    map s | s in u.slots && s !in l.slots :: r.slot(s)
  }

  function PreloadWorld(w: World, l: Lazy, r: Remote, u: Scope): World {
    Over(w, MissingAccounts(l, r, u), MissingSlots(l, r, u))
  }

  /** The lazy database with everything in scope that it has not fetched loaded as well. */
  function Preloaded(l: Lazy, r: Remote, u: Scope): Db {
    l.db.(world := PreloadWorld(l.db.world, l, r, u))
  }

  predicate OnlyMentions(s: seq<Entry>, l: Lazy) {
    forall i :: 0 <= i < |s| ==>
      if s[i].JStorage? then s[i].slot in l.slots else s[i].addr in l.accounts
  }

  /** Nothing that was not fetched has a record, a slot or an undo entry. */
  ghost predicate OnlyFetched(l: Lazy) {
    && l.db.world.accounts.Keys <= l.accounts
    && l.db.world.storage.Keys <= l.slots && l.db.world.orig.Keys <= l.slots
    && OnlyMentions(l.db.journal, l)
  }

  // ---------- the proof ----------

  lemma FetchIsInvisible(l: Lazy, r: Remote, u: Scope, a: Address)
    requires OnlyFetched(l) && a in u.accounts
    ensures Preloaded(WithAccount(l, r, a), r, u) == Preloaded(l, r, u) && OnlyFetched(WithAccount(l, r, a))
  {
    var l' := WithAccount(l, r, a);
    assert PreloadWorld(l'.db.world, l', r, u).accounts == PreloadWorld(l.db.world, l, r, u).accounts;
  }

  lemma FetchSlotIsInvisible(l: Lazy, r: Remote, u: Scope, s: Slot)
    requires OnlyFetched(l) && s in u.slots
    ensures Preloaded(WithSlot(l, r, s), r, u) == Preloaded(l, r, u) && OnlyFetched(WithSlot(l, r, s))
  {
    if s !in l.slots {
      var l', v := WithSlot(l, r, s), r.slot(s);
      MovedUp(MissingSlots(l, r, u), l.db.world.storage, s);
      MovedUp(MissingSlots(l, r, u), l.db.world.orig, s);
      assert MissingSlots(l', r, u) == MissingSlots(l, r, u) - {s};
      assert MissingAccounts(l', r, u) == MissingAccounts(l, r, u);
    }
  }

  lemma MovedUp<K, V>(under: map<K, V>, m: map<K, V>, k: K)
    requires k in under && k !in m
    ensures under + m == (under - {k}) + m[k := under[k]]
  {
  }

  lemma SetOver<K, V>(under: map<K, V>, m: map<K, V>, k: K, v: V)
    ensures (under + m)[k := v] == under + m[k := v]
    ensures k !in under ==> (under + m) - {k} == under + (m - {k})
  {
  }

  lemma PutOver(w: World, accts: map<Address, Account>, slots: map<Slot, Hash>, a: Address, acc: Account)
    ensures Put(Over(w, accts, slots), a, acc) == Over(Put(w, a, acc), accts, slots)
  {
    SetOver(accts, w.accounts, a, acc);
  }

  /** A write above the preloaded data does not see it. */
  lemma ApplyOver(w: World, accts: map<Address, Account>, slots: map<Slot, Hash>, op: Op)
    requires if op.SetStorage? then op.slot !in slots else op.addr !in accts
    ensures Apply(Over(w, accts, slots), op) == Over(Apply(w, op), accts, slots)
    ensures EntryFor(Over(w, accts, slots), op) == EntryFor(w, op)
  {
    var v := Over(w, accts, slots);
    if op.SetStorage? {
      var k := op.slot;
      assert Load(v.storage, k) == Load(w.storage, k) && (k in v.orig <==> k in w.orig);
      SetOver(slots, w.storage, k, op.value);
      SetOver(slots, w.orig, k, Load(w.storage, k));
    } else {
      assert Acct(v, op.addr) == Acct(w, op.addr);
      PutOver(w, accts, slots, op.addr, Acct(Apply(w, op), op.addr));
    }
  }

  lemma UndoOver(w: World, accts: map<Address, Account>, slots: map<Slot, Hash>, e: Entry)
    requires if e.JStorage? then e.slot !in slots else e.addr !in accts
    ensures Undo(Over(w, accts, slots), e) == Over(Undo(w, e), accts, slots)
  {
    if e.JStorage? {
      SetOver(slots, w.storage, e.slot, e.oldVal);
    } else {
      SetOver(accts, w.accounts, e.addr, Acct(Undo(w, e), e.addr));
    }
  }

  /** A write to fetched data does the same with and without the rest. */
  lemma WriteCommutes(l: Lazy, r: Remote, u: Scope, op: Op)
    requires OnlyFetched(l)
    requires if op.SetStorage? then op.slot in l.slots else op.addr in l.accounts
    ensures var l' := l.(db := Write(l.db, op));
            Preloaded(l', r, u) == Write(Preloaded(l, r, u), op) && OnlyFetched(l')
  {
    WriteKeepsFetched(l, op);
    hide Apply, EntryFor, Over, OnlyFetched;
    ApplyOver(l.db.world, MissingAccounts(l, r, u), MissingSlots(l, r, u), op);
  }

  lemma WriteKeepsFetched(l: Lazy, op: Op)
    requires OnlyFetched(l)
    requires if op.SetStorage? then op.slot in l.slots else op.addr in l.accounts
    ensures OnlyFetched(l.(db := Write(l.db, op)))
  {
  }

  lemma UndoCommutes(w: World, l: Lazy, r: Remote, u: Scope, e: Entry)
    requires if e.JStorage? then e.slot in l.slots else e.addr in l.accounts
    ensures PreloadWorld(Undo(w, e), l, r, u) == Undo(PreloadWorld(w, l, r, u), e)
  {
    hide Undo, Over;
    UndoOver(w, MissingAccounts(l, r, u), MissingSlots(l, r, u), e);
  }

  lemma UndoKeepsFetched(w: World, l: Lazy, e: Entry)
    requires w.accounts.Keys <= l.accounts && w.storage.Keys <= l.slots && w.orig.Keys <= l.slots
    requires if e.JStorage? then e.slot in l.slots else e.addr in l.accounts
    ensures var v := Undo(w, e); v.accounts.Keys <= l.accounts && v.storage.Keys <= l.slots && v.orig.Keys <= l.slots
  {
  }

  lemma {:induction false} UndoAllCommutes(w: World, l: Lazy, r: Remote, u: Scope, s: seq<Entry>)
    requires w.accounts.Keys <= l.accounts && w.storage.Keys <= l.slots && w.orig.Keys <= l.slots
    requires OnlyMentions(s, l)
    ensures PreloadWorld(UndoAll(w, s), l, r, u) == UndoAll(PreloadWorld(w, l, r, u), s)
    ensures var v := UndoAll(w, s); v.accounts.Keys <= l.accounts && v.storage.Keys <= l.slots && v.orig.Keys <= l.slots
    decreases |s|
  {
    hide PreloadWorld, Undo;
    if s != [] {
      var e := s[|s| - 1];
      UndoCommutes(w, l, r, u, e);
      UndoKeepsFetched(w, l, e);
      UndoAllCommutes(Undo(w, e), l, r, u, s[..|s| - 1]);
    }
  }

  lemma RevertCommutes(l: Lazy, r: Remote, u: Scope, id: nat)
    requires OnlyFetched(l) && MarksOk(l.db)
    ensures var l' := l.(db := Revert(l.db, id));
            Preloaded(l', r, u) == Revert(Preloaded(l, r, u), id) && OnlyFetched(l')
  {
    hide UndoAll;
    if id < |l.db.snapshots| {
      var mark := l.db.snapshots[id];
      UndoAllCommutes(l.db.world, l, r, u, l.db.journal[mark..]);
    }
  }

  lemma ReadsAgree(l: Lazy, r: Remote, u: Scope)
    requires OnlyFetched(l)
    ensures forall a :: a in l.accounts ==> Acct(Preloaded(l, r, u).world, a) == Acct(l.db.world, a)
    ensures forall a :: a in l.accounts ==> (a in Preloaded(l, r, u).world.accounts <==> a in l.db.world.accounts)
    ensures forall a: Address :: Acct(Preloaded(l, r, u).world, a).suicide == Acct(l.db.world, a).suicide
    ensures forall s :: s in l.slots ==> Load(Preloaded(l, r, u).world.storage, s) == Load(l.db.world.storage, s)
    ensures forall s :: s in l.slots ==> Load(Preloaded(l, r, u).world.orig, s) == Load(l.db.world.orig, s)
  {
  }

  /** Each operation reads the same and leaves corresponding states. */
  lemma StepAgrees(l: Lazy, r: Remote, u: Scope, o: ForkOp)
    requires OnlyFetched(l) && MarksOk(l.db) && Covers(u, o) && Disciplined(l, o)
    ensures var (l', reading) := LazyStep(l, r, o);
            OnlyFetched(l') && MarksOk(l'.db) && EagerStep(Preloaded(l, r, u), o) == (Preloaded(l', r, u), reading)
  {
    hide PreloadWorld, OnlyFetched, Write, Revert;
    var l1 := Ensured(l, r, o);
    match o
    case ReadAccount(a) => FetchIsInvisible(l, r, u, a); ReadsAgree(l1, r, u);
    case ReadExists(a) => FetchIsInvisible(l, r, u, a); ReadsAgree(l1, r, u);
    case ReadSuicided(a) => ReadsAgree(l, r, u);
    case ReadCreated(a) => CreatedAgrees(l, r, u);
    case ReadStorage(s) => FetchSlotIsInvisible(l, r, u, s); ReadsAgree(l1, r, u);
    case ReadCommitted(s) => FetchSlotIsInvisible(l, r, u, s); ReadsAgree(l1, r, u);
    case Change(op) =>
      if !op.Suicide? {
        FetchIsInvisible(l, r, u, AddrOf(op));
      }
      WriteCommutes(l1, r, u, op);
    case Snap => SnapCommutes(l, r, u);
    case RevertTo(id) => RevertCommutes(l, r, u, id);
  }

  lemma CreatedAgrees(l: Lazy, r: Remote, u: Scope)
    ensures Preloaded(l, r, u).world.created == l.db.world.created
  {
  }

  lemma SnapCommutes(l: Lazy, r: Remote, u: Scope)
    requires OnlyFetched(l)
    ensures var l' := l.(db := TakeSnapshot(l.db));
            Preloaded(l', r, u) == TakeSnapshot(Preloaded(l, r, u)) && OnlyFetched(l')
  {
  }

  // ---------- every sequence of operations ----------

  ghost function RunLazy(l: Lazy, r: Remote, os: seq<ForkOp>): (Lazy, seq<Reading>)
    requires MarksOk(l.db)
    decreases |os|
  {
    if os == [] then (l, [])
    else
      var (l', reading) := LazyStep(l, r, os[0]);
      var (l'', rest) := RunLazy(l', r, os[1..]);
      (l'', [reading] + rest)
  }

  ghost function RunEager(db: Db, os: seq<ForkOp>): (Db, seq<Reading>)
    requires MarksOk(db)
    decreases |os|
  {
    if os == [] then (db, [])
    else
      var (db', reading) := EagerStep(db, os[0]);
      var (db'', rest) := RunEager(db', os[1..]);
      (db'', [reading] + rest)
  }

  ghost predicate AllDisciplined(l: Lazy, r: Remote, os: seq<ForkOp>)
    requires MarksOk(l.db)
    decreases |os|
  {
    os == [] || (Disciplined(l, os[0]) && AllDisciplined(LazyStep(l, r, os[0]).0, r, os[1..]))
  }

  /** Over every disciplined sequence of reads, writes, snapshots and reverts, the lazy
      database returns what the preloaded one returns, and stays its unfetched remainder. */
  lemma {:induction false} LazyAgreesWithEager(l: Lazy, r: Remote, u: Scope, os: seq<ForkOp>)
    requires OnlyFetched(l) && MarksOk(l.db) && AllDisciplined(l, r, os)
    requires forall i :: 0 <= i < |os| ==> Covers(u, os[i])
    ensures var (l', readings) := RunLazy(l, r, os);
            OnlyFetched(l') && RunEager(Preloaded(l, r, u), os) == (Preloaded(l', r, u), readings)
    decreases |os|
  {
    hide LazyStep, EagerStep, OnlyFetched, Covers, Disciplined;
    if os != [] {
      StepAgrees(l, r, u, os[0]);
      LazyAgreesWithEager(LazyStep(l, r, os[0]).0, r, u, os[1..]);
    }
  }

  const FRESH := Lazy(NEW_DB, {}, {})

  /** From a new fork database: the counterpart is an empty database plus the remote data. */
  lemma FreshForkAgrees(r: Remote, u: Scope, os: seq<ForkOp>)
    requires AllDisciplined(FRESH, r, os)
    requires forall i :: 0 <= i < |os| ==> Covers(u, os[i])
    ensures RunLazy(FRESH, r, os).1 == RunEager(Preloaded(FRESH, r, u), os).1
    ensures Preloaded(FRESH, r, u).world.accounts == map a | a in u.accounts :: Fetched(r, a)
    ensures Preloaded(FRESH, r, u).world.storage == map s | s in u.slots :: r.slot(s)
  {
    LazyAgreesWithEager(FRESH, r, u, os);
  }

  /** The discipline is needed. After a write to a slot, both ways of reading it agree exactly
      when it was fetched before, or when zero was written over a remote zero: a later fetch
      overwrites any other value, and the committed value of the write is not the remote one. */
  lemma WrittenSlotAgreesIffFetched(l: Lazy, r: Remote, u: Scope, k: Slot, v: Hash)
    requires OnlyFetched(l) && MarksOk(l.db) && k in u.slots && k.addr in u.accounts
    ensures var l1 := LazyStep(l, r, Change(SetStorage(k, v))).0;
            var db1 := EagerStep(Preloaded(l, r, u), Change(SetStorage(k, v))).0;
            && (LazyStep(l1, r, ReadStorage(k)).1 == EagerStep(db1, ReadStorage(k)).1
                <==> k in l.slots || v == r.slot(k))
            && (LazyStep(l1, r, ReadStorage(k)).1 == EagerStep(db1, ReadStorage(k)).1
                && LazyStep(l1, r, ReadCommitted(k)).1 == EagerStep(db1, ReadCommitted(k)).1
                <==> k in l.slots || v == r.slot(k) == 0)
  {
    hide PreloadWorld;
    if k in l.slots {
      var op := SetStorage(k, v);
      FetchIsInvisible(l, r, u, k.addr);
      WriteCommutes(WithAccount(l, r, k.addr), r, u, op);
      ReadsAgree(LazyStep(l, r, Change(op)).0, r, u);
    } else {
      UnfetchedWrite(l, r, u, k, v);
    }
  }

  /** What both databases hold after a write to a slot that was not fetched. */
  lemma UnfetchedWrite(l: Lazy, r: Remote, u: Scope, k: Slot, v: Hash)
    requires OnlyFetched(l) && MarksOk(l.db) && k in u.slots && k.addr in u.accounts && k !in l.slots
    ensures var l1 := LazyStep(l, r, Change(SetStorage(k, v))).0;
            var db1 := Write(Preloaded(l, r, u), SetStorage(k, v));
            && k !in l1.slots && k in l1.db.world.orig && l1.db.world.orig[k] == 0
            && Load(db1.world.storage, k) == v && Load(db1.world.orig, k) == r.slot(k)
  {
  }

  /** Writing the remote value does not help: the slot reads right, but its committed value is
      0 over the fork and 5 over the preloaded database. */
  lemma RemoteValueWrittenUnfetched(r: Remote, k: Slot)
    requires r.slot(k) == 5
    ensures var u := Scope({k.addr}, {k});
            var l1 := LazyStep(FRESH, r, Change(SetStorage(k, 5))).0;
            var db1 := EagerStep(Preloaded(FRESH, r, u), Change(SetStorage(k, 5))).0;
            && LazyStep(l1, r, ReadStorage(k)).1 == EagerStep(db1, ReadStorage(k)).1 == HashIs(5)
            && LazyStep(l1, r, ReadCommitted(k)).1 == HashIs(0)
            && EagerStep(db1, ReadCommitted(k)).1 == HashIs(5)
  {
    UnfetchedWrite(FRESH, r, Scope({k.addr}, {k}), k, 5);
  }

  /** Likewise for a self-destruct mark on an account that was never read. */
  lemma SuicideAgreesIffFetched(l: Lazy, r: Remote, u: Scope, a: Address)
    requires OnlyFetched(l) && MarksOk(l.db) && a in u.accounts
    ensures var l1 := LazyStep(l, r, Change(Suicide(a))).0;
            var db1 := EagerStep(Preloaded(l, r, u), Change(Suicide(a))).0;
            LazyStep(l1, r, ReadAccount(a)).1 == EagerStep(db1, ReadAccount(a)).1 <==> a in l.accounts
  {
    if a in l.accounts {
      WriteCommutes(l, r, u, Suicide(a));
      ReadsAgree(LazyStep(l, r, Change(Suicide(a))).0, r, u);
    }
  }

  // ---------- when the remote does not answer ----------

  /** A read whose fetch fails agrees exactly when nothing had to be fetched, or the missing
      data would have read as nothing. */
  lemma FailedReadAgreesIff(l: Lazy, r: Remote, u: Scope, o: ForkOp)
    requires OnlyFetched(l) && MarksOk(l.db) && Covers(u, o)
    requires o.ReadAccount? || o.ReadExists? || o.ReadStorage? || o.ReadCommitted?
    ensures LazyAttempt(l, r, o, false).1 == EagerStep(Preloaded(l, r, u), o).1
            <==> match o
                 case ReadAccount(a) => a in l.accounts || Fetched(r, a) == BLANK
                 case ReadExists(a) => a in l.accounts
                 case ReadStorage(s) => s in l.slots || r.slot(s) == 0
                 case ReadCommitted(s) => s in l.slots || r.slot(s) == 0
  {
    ReadsAgree(l, r, u);
  }

  /** A write to an account whose fetch fails is lost with the next fetch that succeeds; that
      shows exactly when it would have changed the remote account. */
  lemma FailedWriteIsLost(l: Lazy, r: Remote, u: Scope, op: Op)
    requires OnlyFetched(l) && MarksOk(l.db) && !op.SetStorage? && op.addr in u.accounts && op.addr !in l.accounts
    ensures var l1 := LazyAttempt(l, r, Change(op), false).0;
            var db1 := EagerStep(Preloaded(l, r, u), Change(op)).0;
            && LazyStep(l1, r, ReadAccount(op.addr)).1 == AccountIs(Fetched(r, op.addr))
            && (LazyStep(l1, r, ReadAccount(op.addr)).1 == EagerStep(db1, ReadAccount(op.addr)).1
                <==> Acct(Apply(Preloaded(l, r, u).world, op), op.addr) == Fetched(r, op.addr))
  {
  }

  // ---------- the code ----------

  /** evm/forkdb_adapter.go: forkDB over forkdb.ForkDB. */
  class ForkDB {
    const remote: Remote
    const s: StateDB
    var fetchedAccounts: set<Address>
    var fetchedSlots: set<Slot>

    function View(): Lazy
      reads this, s
    {
      Lazy(s.View(), fetchedAccounts, fetchedSlots)
    }

    constructor (remote: Remote)
      ensures View() == FRESH && this.remote == remote && fresh(s)
    {
      this.remote := remote;
      s := new StateDB();
      fetchedAccounts, fetchedSlots := {}, {};
    }

    /** ForkDB.EnsureAccount; `rpcOk` says whether the remote call goes through. */
    method EnsureAccount(addr: Address, rpcOk: bool) returns (ok: bool)
      modifies this, s
      ensures ok == (rpcOk || addr in old(fetchedAccounts))
      ensures View() == if ok then WithAccount(old(View()), remote, addr) else old(View())
    {
      if addr in fetchedAccounts {
        return true;
      }
      if !rpcOk {
        return false;
      }
      s.SetAccount(addr, Fetched(remote, addr));
      fetchedAccounts := fetchedAccounts + {addr};
      ok := true;
    }

    method EnsureSlot(slot: Slot, rpcOk: bool) returns (ok: bool)
      modifies this, s
      ensures ok == (rpcOk || slot in old(fetchedSlots))
      ensures View() == if ok then WithSlot(old(View()), remote, slot) else old(View())
    {
      if slot in fetchedSlots {
        return true;
      }
      if !rpcOk {
        return false;
      }
      s.SetStorageDirect(slot, remote.slot(slot));
      fetchedSlots := fetchedSlots + {slot};
      ok := true;
    }

    /** The adapter's read and write methods. */
    method Perform(o: ForkOp, rpcOk: bool) returns (reading: Reading)
      requires MarksOk(s.View())
      modifies this, s
      ensures (View(), reading) == LazyAttempt(old(View()), remote, o, rpcOk)
    {
      hide Write, Revert, MarksOk, Acct;
      reading := Silent;
      match o
      case ReadAccount(a) =>
        var _ := EnsureAccount(a, rpcOk);
        reading := AccountIs(Acct(s.View().world, a));
      case ReadExists(a) =>
        var _ := EnsureAccount(a, rpcOk);
        reading := Truth(a in s.accounts);
      case ReadSuicided(a) => reading := Truth(Acct(s.View().world, a).suicide);
      case ReadCreated(a) => reading := Truth(a in s.createdInTx);
      case ReadStorage(k) =>
        var _ := EnsureSlot(k, rpcOk);
        reading := HashIs(Load(s.storage, k));
      case ReadCommitted(k) =>
        var _ := EnsureSlot(k, rpcOk);
        reading := HashIs(Load(s.origStorage, k));
      case Change(op) => Delegate(op, rpcOk);
      case Snap => var _ := s.Snapshot();
      case RevertTo(id) => s.RevertToSnapshot(id);
    }

    method Delegate(op: Op, rpcOk: bool)
      modifies this, s
      ensures View() == var l := if rpcOk then Ensured(old(View()), remote, Change(op))
          else old(View()); l.(db := Write(l.db, op))
    {
      hide Write;
      if !op.Suicide? {
        var _ := EnsureAccount(AddrOf(op), rpcOk);
      }
      match op
      case SetBalance(a, v) => s.SetBalance(a, v);
      case AddBalance(a, v) => s.AddBalance(a, v);
      case SubBalance(a, v) => s.SubBalance(a, v);
      case SetNonce(a, n) => s.SetNonce(a, n);
      case SetCode(a, c, h) => s.SetCode(a, c, h);
      case CreateAccount(a) => s.CreateAccount(a);
      case SetStorage(k, v) => s.SetStorage(k, v);
      case Suicide(a) => s.Suicide(a);
    }
  }
}
