/** The double-checked lock of forkdb/forkdb.go: EnsureAccount with fetchAccount, and
    EnsureSlot with fetchSlot, as steps of any number of concurrent callers.

    A caller looks under the read lock, and if it misses looks again under the write lock, asks
    the remote while holding it, installs what comes back, marks it and unlocks. */
module FetchProtocol {
  import opened Types

  type Caller = nat

  datatype Key = AccountKey(addr: Address) | SlotKey(owner: Address, slot: Hash)

  type Data = seq<Byte>

  /** Where a caller is. The read lock is held from Checking to Looked, the write lock from
      Rechecking to Leaving (its unlock is deferred). */
  datatype Pc =
    | Idle
    | Entering(k: Key)
    | Checking(k: Key)
    | Looked(k: Key, hit: bool)
    | Waiting(k: Key)
    | Rechecking(k: Key)
    | Asking(k: Key)
    | Installing(k: Key, data: Data)
    | Marking(k: Key)
    | Leaving(k: Key, ok: bool)
    | Returned(k: Key, ok: bool)

  datatype Shared = Shared(
    callers: map<Caller, Pc>,
    readers: set<Caller>,
    writer: Option<Caller>,
    fetched: set<Key>,
    installs: multiset<Key>,
    inner: map<Key, Data>)

  predicate HoldsRead(p: Pc) {
    p.Checking? || p.Looked?
  }

  predicate HoldsWrite(p: Pc) {
    p.Rechecking? || p.Asking? || p.Installing? || p.Marking? || p.Leaving?
  }

  predicate Active(p: Pc) {
    !p.Idle? && !p.Returned?
  }

  function At(s: Shared, t: Caller, p: Pc): Shared {
    s.(callers := s.callers[t := p])
  }

  /** A caller's next step, or None while the lock keeps it out. `reply` is the remote's
      answer, should this be the step that gets one; None there is a failed call. */
  function Move(s: Shared, t: Caller, reply: Option<Data>): Option<Shared>
    requires t in s.callers
  {
    match s.callers[t]
    case Idle => None
    case Returned(_, _) => None
    case Entering(k) =>
      if s.writer.Some? then None else Some(At(s, t, Checking(k)).(readers := s.readers + {t}))
    case Checking(k) => Some(At(s, t, Looked(k, k in s.fetched)))
    case Looked(k, hit) =>
      Some(At(s, t, if hit then Returned(k, true) else Waiting(k)).(readers := s.readers - {t}))
    case Waiting(k) =>
      if s.writer.Some? || s.readers != {} then None
      else Some(At(s, t, Rechecking(k)).(writer := Some(t)))
    case Rechecking(k) => Some(At(s, t, if k in s.fetched then Leaving(k, true) else Asking(k)))
    case Asking(k) => Some(At(s, t, if reply.None? then Leaving(k, false) else Installing(k, reply.value)))
    case Installing(k, data) =>
      Some(At(s, t, Marking(k)).(installs := s.installs + multiset{k}, inner := s.inner[k := data]))
    case Marking(k) => Some(At(s, t, Leaving(k, true)).(fetched := s.fetched + {k}))
    case Leaving(k, ok) => Some(At(s, t, Returned(k, ok)).(writer := None))
  }

  /** Schedules: a caller that is not busy may call (again); a busy one may try to move. */
  datatype Action = Begin(t: Caller, k: Key) | Try(t: Caller, reply: Option<Data>)

  function Act(s: Shared, a: Action): Shared {
    match a
    case Begin(t, k) =>
      if t in s.callers && Active(s.callers[t]) then s else At(s, t, Entering(k))
    case Try(t, reply) =>
      if t !in s.callers || Move(s, t, reply).None? then s else Move(s, t, reply).value
  }

  function Run(s: Shared, actions: seq<Action>): Shared
    decreases |actions|
  {
    if actions == [] then s else Run(Act(s, actions[0]), actions[1..])
  }

  const INITIAL := Shared(map[], {}, None, {}, multiset{}, map[])

  // ---------- the invariant ----------

  /** The locks are held by exactly the callers whose position says so, and never both. */
  ghost predicate LocksOk(s: Shared) {
    && (forall t :: t in s.callers ==> (t in s.readers <==> HoldsRead(s.callers[t])))
    && s.readers <= s.callers.Keys
    && (forall t :: t in s.callers ==> (s.writer == Some(t) <==> HoldsWrite(s.callers[t])))
    && (s.writer.Some? ==> s.writer.value in s.callers && s.readers == {})
  }

  /** The one caller that has installed but not yet marked. */
  predicate MarkingNow(s: Shared, k: Key) {
    s.writer.Some? && s.writer.value in s.callers && s.callers[s.writer.value] == Marking(k)
  }

  predicate KeyOk(s: Shared, k: Key) {
    && s.installs[k] == (if k in s.fetched || MarkingNow(s, k) then 1 else 0)
    && (k in s.inner <==> k in s.fetched || MarkingNow(s, k))
    && !(k in s.fetched && MarkingNow(s, k))
  }

  ghost predicate InstallsOk(s: Shared) {
    forall k :: KeyOk(s, k)
  }

  /** What a caller's position promises. */
  ghost predicate PositionOk(s: Shared, p: Pc) {
    match p
    case Asking(k) => k !in s.fetched
    case Installing(k, _) => k !in s.fetched
    case Looked(k, true) => k in s.fetched
    case Leaving(k, true) => k in s.fetched
    case Returned(k, true) => k in s.fetched
    case _ => true
  }

  ghost predicate Inv(s: Shared) {
    LocksOk(s) && InstallsOk(s) && forall t :: t in s.callers ==> PositionOk(s, s.callers[t])
  }

  lemma MoveKeepsLocks(s: Shared, t: Caller, reply: Option<Data>)
    requires LocksOk(s) && t in s.callers && Move(s, t, reply).Some?
    ensures LocksOk(Move(s, t, reply).value)
  {
  }

  lemma MoveKeepsKey(s: Shared, t: Caller, reply: Option<Data>, k: Key)
    requires LocksOk(s) && KeyOk(s, k) && t in s.callers && PositionOk(s, s.callers[t]) && Move(s, t, reply).Some?
    ensures KeyOk(Move(s, t, reply).value, k)
  {
    assert s.writer == Some(t) <==> HoldsWrite(s.callers[t]);
    hide LocksOk;
  }

  lemma MoveKeepsInstalls(s: Shared, t: Caller, reply: Option<Data>)
    requires Inv(s) && t in s.callers && Move(s, t, reply).Some?
    ensures InstallsOk(Move(s, t, reply).value)
  {
    hide Move, KeyOk;
    forall k ensures KeyOk(Move(s, t, reply).value, k) {
      assert KeyOk(s, k);
      MoveKeepsKey(s, t, reply, k);
    }
  }

  lemma MoveKeepsPositions(s: Shared, t: Caller, reply: Option<Data>)
    requires Inv(s) && t in s.callers && Move(s, t, reply).Some?
    ensures var s' := Move(s, t, reply).value; forall u :: u in s'.callers ==> PositionOk(s', s'.callers[u])
  {
    var s' := Move(s, t, reply).value;
    forall u | u in s'.callers ensures PositionOk(s', s'.callers[u]) {
      assert PositionOk(s, s.callers[u]);
      if s.callers[t].Marking? && u != t {
        assert !HoldsWrite(s.callers[u]);
      }
    }
  }

  lemma ActKeepsInv(s: Shared, a: Action)
    requires Inv(s)
    ensures Inv(Act(s, a))
  {
    if a.Try? && a.t in s.callers && Move(s, a.t, a.reply).Some? {
      hide Move, InstallsOk;
      MoveKeepsLocks(s, a.t, a.reply);
      MoveKeepsInstalls(s, a.t, a.reply);
      MoveKeepsPositions(s, a.t, a.reply);
    } else if a.Begin? {
      forall k ensures KeyOk(Act(s, a), k) {
        assert KeyOk(s, k);
      }
    }
  }

  /** What never goes away: marks, and installed data, which no later step changes. */
  ghost predicate Lasting(s: Shared, s': Shared) {
    s.fetched <= s'.fetched && forall k :: k in s.inner ==> k in s'.inner && s'.inner[k] == s.inner[k]
  }

  lemma ActLasts(s: Shared, a: Action)
    requires Inv(s)
    ensures Lasting(s, Act(s, a))
  {
    if a.Try? && a.t in s.callers && s.callers[a.t].Installing? {
      assert KeyOk(s, s.callers[a.t].k);
      assert PositionOk(s, s.callers[a.t]);
      assert HoldsWrite(s.callers[a.t]) && s.writer == Some(a.t);
    }
  }

  /** Every interleaving, with any number of callers, failed remote calls and retries: the
      invariant holds throughout and nothing installed is ever installed again or changed. */
  lemma {:induction false} RunKeepsInv(s: Shared, actions: seq<Action>)
    requires Inv(s)
    ensures Inv(Run(s, actions)) && Lasting(s, Run(s, actions))
    decreases |actions|
  {
    hide Act, Inv;
    if actions != [] {
      ActKeepsInv(s, actions[0]);
      ActLasts(s, actions[0]);
      RunKeepsInv(Act(s, actions[0]), actions[1..]);
    }
  }

  /** From the start: each key is installed at most once, a caller that returned nil leaves
      its key installed and marked, and no two callers are ever in the locked section. */
  lemma InstalledAtMostOnce(actions: seq<Action>)
    ensures var s := Run(INITIAL, actions);
            && (forall k :: s.installs[k] <= 1)
            && (forall t :: t in s.callers && s.callers[t].Returned? && s.callers[t].ok ==>
                  s.installs[s.callers[t].k] == 1 && s.callers[t].k in s.fetched)
            && (forall t, u | t in s.callers && u in s.callers && t != u && HoldsWrite(s.callers[t]) ::
                  !HoldsWrite(s.callers[u]) && !HoldsRead(s.callers[u]))
  {
    RunKeepsInv(INITIAL, actions);
    var s := Run(INITIAL, actions);
    hide Run;
    forall k ensures s.installs[k] <= 1 {
      assert KeyOk(s, k);
    }
    forall t | t in s.callers && s.callers[t].Returned? && s.callers[t].ok
      ensures s.installs[s.callers[t].k] == 1 && s.callers[t].k in s.fetched
    {
      assert PositionOk(s, s.callers[t]) && KeyOk(s, s.callers[t].k);
    }
  }

  // ---------- progress ----------

  /** Steps a caller still has to take. */
  function Remaining(p: Pc): nat {
    match p
    case Idle => 0
    case Entering(_) => 9
    case Checking(_) => 8
    case Looked(_, _) => 7
    case Waiting(_) => 6
    case Rechecking(_) => 5
    case Asking(_) => 4
    case Installing(_, _) => 3
    case Marking(_) => 2
    case Leaving(_, _) => 1
    case Returned(_, _) => 0
  }

  /** The lock keeps caller `u` out. */
  predicate Blocked(s: Shared, u: Caller)
    requires u in s.callers
  {
    (s.callers[u].Entering? && s.writer.Some?) || (s.callers[u].Waiting? && (s.writer.Some? || s.readers != {}))
  }

  /** A busy caller that is not blocked takes its step, whatever the remote answers; the step
      brings it closer to returning and leaves every other caller where it is. */
  lemma UnblockedMoves(s: Shared, u: Caller, reply: Option<Data>)
    requires u in s.callers && Active(s.callers[u])
    ensures Move(s, u, reply).Some? <==> !Blocked(s, u)
    ensures !Blocked(s, u) ==>
              var s' := Move(s, u, reply).value;
              s'.callers == s.callers[u := s'.callers[u]] && Remaining(s'.callers[u]) < Remaining(s.callers[u])
  {
  }

  /** No deadlock: while any caller is busy, some busy caller is not blocked. */
  lemma SomeoneCanMove(s: Shared, t: Caller) returns (u: Caller)
    requires Inv(s) && t in s.callers && Active(s.callers[t])
    ensures u in s.callers && Active(s.callers[u]) && !Blocked(s, u)
  {
    if s.writer.Some? {
      u := s.writer.value;
      assert HoldsWrite(s.callers[u]);
    } else if s.readers != {} {
      u :| u in s.readers;
      assert HoldsRead(s.callers[u]);
    } else {
      u := t;
    }
  }
}
