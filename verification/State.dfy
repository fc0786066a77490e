/** The in-memory state database of state/state.go: accounts and storage changed in
    place, an undo journal, and a stack of snapshot marks into the journal.

    The functions over `Db` are the specification; class `StateDB` is the code. */
module State {
  import opened Types

  datatype Account = Account(balance: Word, nonce: U64, code: Code, codeHash: Hash, suicide: bool)

  const BLANK := Account(0, 0, [], 0, false)

  /** The source nests a map per address; a slot here is keyed by address and key together. */
  datatype Slot = Slot(addr: Address, key: Hash)

  datatype Log = Log(addr: Address, topics: seq<Hash>, data: Code)

  datatype Entry =
    | JBalance(addr: Address, oldBal: Word)
    | JNonce(addr: Address, oldNonce: U64)
    | JCode(addr: Address, oldCode: Code, oldCodeHash: Hash)
    | JStorage(slot: Slot, oldVal: Hash)
    | JCreate(addr: Address)
    | JSuicide(addr: Address, oldSuicide: bool)

  /** What the journal can undo, plus the committed values, which it never touches. */
  datatype World = World(
    accounts: map<Address, Account>,
    storage: map<Slot, Hash>,
    orig: map<Slot, Hash>,
    created: set<Address>)

  datatype Db = Db(world: World, journal: seq<Entry>, snapshots: seq<nat>, logs: seq<Log>, refund: U64)

  const NEW_DB := Db(World(map[], map[], map[], {}), [], [], [], 0)

  /** The journalled writes of StateDB. */
  datatype Op =
    | SetBalance(addr: Address, amount: Word)
    | AddBalance(addr: Address, amount: Word)
    | SubBalance(addr: Address, amount: Word)
    | SetNonce(addr: Address, nonce: U64)
    | SetCode(addr: Address, code: Code, codeHash: Hash)
    | CreateAccount(addr: Address)
    | SetStorage(slot: Slot, value: Hash)
    | Suicide(addr: Address)

  // ---------- reads ----------

  /** What the account getters see: a missing record reads as the zero account. */
  function Acct(w: World, a: Address): Account {
    if a in w.accounts then w.accounts[a] else BLANK
  }

  function Load(m: map<Slot, Hash>, s: Slot): Hash {
    if s in m then m[s] else 0
  }

  /** A zero value is stored by deleting the key. */
  function Store(m: map<Slot, Hash>, s: Slot, v: Hash): map<Slot, Hash> {
    if v == 0 then m - {s} else m[s := v]
  }

  // ---------- writes ----------

  function Put(w: World, a: Address, acc: Account): World {
    w.(accounts := w.accounts[a := acc])
  }

  function Apply(w: World, op: Op): World {
    match op
    case SetBalance(a, v) => Put(w, a, Acct(w, a).(balance := v))
    case AddBalance(a, v) => Put(w, a, Acct(w, a).(balance := Wrap256(Acct(w, a).balance + v)))
    case SubBalance(a, v) => Put(w, a, Acct(w, a).(balance := Wrap256(Acct(w, a).balance - v)))
    case SetNonce(a, n) => Put(w, a, Acct(w, a).(nonce := n))
    case SetCode(a, c, h) => Put(w, a, Acct(w, a).(code := c, codeHash := h))
    case CreateAccount(a) => Put(w, a, BLANK.(balance := Acct(w, a).balance)).(created := w.created + {a})
    case SetStorage(s, v) =>
      w.(storage := Store(w.storage, s, v),
         orig := if s in w.orig then w.orig else w.orig[s := Load(w.storage, s)])
    case Suicide(a) => Put(w, a, Acct(w, a).(suicide := true))
  }

  function EntryFor(w: World, op: Op): Entry {
    match op
    case SetBalance(a, _) => JBalance(a, Acct(w, a).balance)
    case AddBalance(a, _) => JBalance(a, Acct(w, a).balance)
    case SubBalance(a, _) => JBalance(a, Acct(w, a).balance)
    case SetNonce(a, _) => JNonce(a, Acct(w, a).nonce)
    case SetCode(a, _, _) => JCode(a, Acct(w, a).code, Acct(w, a).codeHash)
    case CreateAccount(a) => JCreate(a)
    case SetStorage(s, _) => JStorage(s, Load(w.storage, s))
    case Suicide(a) => JSuicide(a, Acct(w, a).suicide)
  }

  function Write(db: Db, op: Op): (r: Db)
    ensures MarksOk(db) ==> MarksOk(r)
  {
    db.(world := Apply(db.world, op), journal := db.journal + [EntryFor(db.world, op)])
  }

  function TakeSnapshot(db: Db): Db {
    db.(snapshots := db.snapshots + [|db.journal|])
  }

  // ---------- undo ----------

  function Undo(w: World, e: Entry): World {
    match e
    case JStorage(s, prev) => w.(storage := Store(w.storage, s, prev))
    case JCreate(a) => w.(accounts := w.accounts - {a}, created := w.created - {a})
    case _ =>
      if e.addr !in w.accounts then w
      else
        var acc := w.accounts[e.addr];
        Put(w, e.addr,
            match e
            case JBalance(_, prev) => acc.(balance := prev)
            case JNonce(_, prev) => acc.(nonce := prev)
            case JCode(_, prev, oldHash) => acc.(code := prev, codeHash := oldHash)
            case JSuicide(_, prev) => acc.(suicide := prev)
            case _ => acc)
  }

  /** Undo the entries of `s` from the last to the first. */
  function UndoAll(w: World, s: seq<Entry>): World
    decreases |s|
  {
    if s == [] then w else UndoAll(Undo(w, s[|s| - 1]), s[..|s| - 1])
  }

  /** Snapshot marks are sorted and never point past the journal's end. */
  ghost predicate MarksOk(db: Db) {
    && (forall k :: 0 <= k < |db.snapshots| ==> db.snapshots[k] <= |db.journal|)
    && (forall j, k :: 0 <= j < k < |db.snapshots| ==> db.snapshots[j] <= db.snapshots[k])
  }

  /** RevertToSnapshot; an id that is no longer on the stack changes nothing. */
  function Revert(db: Db, id: nat): (r: Db)
    requires id < |db.snapshots| ==> db.snapshots[id] <= |db.journal|
    ensures MarksOk(db) ==> MarksOk(r)
  {
    if id >= |db.snapshots| then db
    else
      var mark := db.snapshots[id];
      db.(world := UndoAll(db.world, db.journal[mark..]),
          journal := db.journal[..mark],
          snapshots := db.snapshots[..id])
  }

  /** A self-destructed account disappears with its storage; committed values stay. */
  predicate Doomed(m: map<Address, Account>, a: Address) {
    a in m && m[a].suicide
  }

  function Finalised(db: Db): Db {
    var m := db.world.accounts;
    db.(world := World(map a | a in m && !Doomed(m, a) :: m[a],
                       map s | s in db.world.storage && !Doomed(m, s.addr) :: db.world.storage[s],
                       db.world.orig, {}),
        journal := [], snapshots := [])
  }

  /** state/state.go: StateDB. */
  class StateDB {
    var accounts: map<Address, Account>
    var storage: map<Slot, Hash>
    var origStorage: map<Slot, Hash>
    var createdInTx: set<Address>
    var journal: seq<Entry>
    var snapshots: seq<nat>
    var logs: seq<Log>
    var refund: U64

    function View(): Db
      reads this
    {
      Db(World(accounts, storage, origStorage, createdInTx), journal, snapshots, logs, refund)
    }

    constructor ()
      ensures View() == NEW_DB
    {
      accounts, storage, origStorage, createdInTx := map[], map[], map[], {};
      journal, snapshots, logs, refund := [], [], [], 0;
    }

    method GetBalance(addr: Address) returns (v: Word)
      ensures v == Acct(View().world, addr).balance
    {
      v := if addr in accounts then accounts[addr].balance else 0;
    }

    method GetNonce(addr: Address) returns (n: U64)
      ensures n == Acct(View().world, addr).nonce
    {
      n := if addr in accounts then accounts[addr].nonce else 0;
    }

    method GetCode(addr: Address) returns (code: Code)
      ensures code == Acct(View().world, addr).code
    {
      code := if addr in accounts then accounts[addr].code else [];
    }

    method GetOrCreate(addr: Address) returns (a: Account)
      modifies `accounts
      ensures accounts == old(accounts)[addr := a] && a == Acct(old(View()).world, addr)
    {
      if addr !in accounts {
        accounts := accounts[addr := BLANK];
      }
      a := accounts[addr];
    }

    method SetBalance(addr: Address, val: Word)
      modifies this
      ensures View() == Write(old(View()), Op.SetBalance(addr, val))
    {
      var a := GetOrCreate(addr);
      journal := journal + [JBalance(addr, a.balance)];
      accounts := accounts[addr := a.(balance := val)];
    }

    method AddBalance(addr: Address, amount: Word)
      modifies this
      ensures View() == Write(old(View()), Op.AddBalance(addr, amount))
    {
      var a := GetOrCreate(addr);
      journal := journal + [JBalance(addr, a.balance)];
      accounts := accounts[addr := a.(balance := Wrap256(a.balance + amount))];
    }

    method SubBalance(addr: Address, amount: Word)
      modifies this
      ensures View() == Write(old(View()), Op.SubBalance(addr, amount))
    {
      var a := GetOrCreate(addr);
      journal := journal + [JBalance(addr, a.balance)];
      accounts := accounts[addr := a.(balance := Wrap256(a.balance - amount))];
    }

    method SetNonce(addr: Address, nonce: U64)
      modifies this
      ensures View() == Write(old(View()), Op.SetNonce(addr, nonce))
    {
      var a := GetOrCreate(addr);
      journal := journal + [JNonce(addr, a.nonce)];
      accounts := accounts[addr := a.(nonce := nonce)];
    }

    method SetCode(addr: Address, code: Code, codeHash: Hash)
      modifies this
      ensures View() == Write(old(View()), Op.SetCode(addr, code, codeHash))
    {
      var a := GetOrCreate(addr);
      journal := journal + [JCode(addr, a.code, a.codeHash)];
      accounts := accounts[addr := a.(code := code, codeHash := codeHash)];
    }

    method CreateAccount(addr: Address)
      modifies this
      ensures View() == Write(old(View()), Op.CreateAccount(addr))
    {
      var newAcc := BLANK;
      if addr in accounts {
        newAcc := newAcc.(balance := accounts[addr].balance);
      }
      journal := journal + [JCreate(addr)];
      accounts := accounts[addr := newAcc];
      createdInTx := createdInTx + {addr};
    }

    method SetStorage(slot: Slot, value: Hash)
      modifies this
      ensures View() == Write(old(View()), Op.SetStorage(slot, value))
    {
      var prev := Load(storage, slot);
      if slot !in origStorage {
        origStorage := origStorage[slot := prev];
      }
      journal := journal + [JStorage(slot, prev)];
      if value == 0 {
        storage := storage - {slot};
      } else {
        storage := storage[slot := value];
      }
    }

    method Suicide(addr: Address)
      modifies this
      ensures View() == Write(old(View()), Op.Suicide(addr))
    {
      var a := GetOrCreate(addr);
      journal := journal + [JSuicide(addr, a.suicide)];
      accounts := accounts[addr := a.(suicide := true)];
    }

    /** Installs data without a journal entry; used by the fork database. */
    method SetStorageDirect(slot: Slot, value: Hash)
      modifies this
      ensures View() == old(View()).(world := old(View()).world.(
                storage := old(storage)[slot := value],
                orig := if slot in old(origStorage) then old(origStorage) else old(origStorage)[slot := value]))
    {
      if slot !in origStorage {
        origStorage := origStorage[slot := value];
      }
      storage := storage[slot := value];
    }

    method SetAccount(addr: Address, acc: Account)
      modifies this
      ensures View() == old(View()).(world := Put(old(View()).world, addr, acc))
    {
      accounts := accounts[addr := acc];
    }

    method Snapshot() returns (id: nat)
      modifies `snapshots
      ensures id == |old(snapshots)| && View() == TakeSnapshot(old(View()))
    {
      id := |snapshots|;
      snapshots := snapshots + [|journal|];
    }

    /** The switch in the body of RevertToSnapshot's loop. */
    method UndoEntry(e: Entry)
      modifies `accounts, `storage, `createdInTx
      ensures View() == old(View()).(world := Undo(old(View()).world, e))
    {
      match e {
        case JBalance(a, prev) =>
          if a in accounts { accounts := accounts[a := accounts[a].(balance := prev)]; }
        case JNonce(a, prev) =>
          if a in accounts { accounts := accounts[a := accounts[a].(nonce := prev)]; }
        case JCode(a, prev, oldHash) =>
          if a in accounts { accounts := accounts[a := accounts[a].(code := prev, codeHash := oldHash)]; }
        case JStorage(s, prev) =>
          if prev == 0 { storage := storage - {s}; } else { storage := storage[s := prev]; }
        case JCreate(a) =>
          accounts := accounts - {a};
          createdInTx := createdInTx - {a};
        case JSuicide(a, prev) =>
          if a in accounts { accounts := accounts[a := accounts[a].(suicide := prev)]; }
      }
    }

    method RevertToSnapshot(id: nat)
      requires MarksOk(View())
      modifies this
      ensures View() == Revert(old(View()), id) && MarksOk(View())
    {
      if id >= |snapshots| {
        return;
      }
      var journalLen := snapshots[id];
      ghost var w0 := View().world;
      var i := |journal| - 1;
      assert journal[journalLen..i + 1] == journal[journalLen..];
      while i >= journalLen
        invariant journalLen - 1 <= i < |journal|
        invariant View() == old(View()).(world := View().world)
        invariant UndoAll(View().world, journal[journalLen..i + 1]) == UndoAll(w0, journal[journalLen..])
      {
        ghost var pending := journal[journalLen..i + 1];
        assert pending == journal[journalLen..i] + [journal[i]];
        UndoEntry(journal[i]);
        i := i - 1;
      }
      journal := journal[..journalLen];
      snapshots := snapshots[..id];
    }

    method Forget(addr: Address)
      modifies `accounts, `storage
      ensures accounts == old(accounts) - {addr}
      ensures storage == map s | s in old(storage) && s.addr != addr :: old(storage)[s]
    {
      accounts := accounts - {addr};
      storage := map s | s in storage && s.addr != addr :: storage[s];
    }

    method Finalise()
      modifies this
      ensures View() == Finalised(old(View()))
    {
      var pending := accounts.Keys;
      ghost var m, st := accounts, storage;
      while pending != {}
        invariant pending <= m.Keys
        invariant accounts == map a | a in m && !(Doomed(m, a) && a !in pending) :: m[a]
        invariant storage == map s | s in st && !(Doomed(m, s.addr) && s.addr !in pending) :: st[s]
        invariant origStorage == old(origStorage) && logs == old(logs) && refund == old(refund)
        decreases |pending|
      {
        var addr :| addr in pending;
        if accounts[addr].suicide {
          Forget(addr);
        }
        pending := pending - {addr};
      }
      journal, snapshots, createdInTx := [], [], {};
    }

    method AddLog(l: Log)
      modifies `logs
      ensures View() == old(View()).(logs := old(logs) + [l])
    {
      logs := logs + [l];
    }

    method AddRefund(gas: U64)
      modifies `refund
      ensures View() == old(View()).(refund := Wrap64(old(refund) + gas))
    {
      refund := Wrap64(refund + gas);
    }
  }
}
