/**
 * Store calls as a labelled transition system: any number of handles and calls, over any number of vault scopes,
 * interleaved step by step. Locks and coordination objects are known to the registries by weak references only.
 */
module VaultProtocol {
  import opened Basics
  import opened RecordCodec
  import opened VersionedStore
  import opened WeakRegistry

  type Id = nat
  type Scope = nat

  datatype Cell = Cell(scope: Scope, key: CredentialKey)

  datatype Handle = Handle(scope: Scope, coord: Id)

  /** What all handles of one scope share: the weak registry of per-key mutexes. */
  datatype Coordination = Coordination(scope: Scope, locks: map<CredentialKey, Id>)

  /** Where a call stands. The mutex object is held from `Waiting` on, its guard from `Locked` to `Unlocking`. */
  datatype Phase = Start
                 | Waiting(lock: Id)
                 | Locked(lock: Id)
                 | Writing(lock: Id, seen: Slot, rec: Record, onSuccess: Outcome)
                 | Unlocking(lock: Id, outcome: Outcome)
                 | Releasing(lock: Id, outcome: Outcome)
                 | Done(outcome: Outcome)

  datatype Call = Call(scope: Scope, coord: Id, key: CredentialKey, request: Request, phase: Phase)

  datatype State = State(
    vault: map<Cell, Slot>,
    history: map<Cell, seq<Record>>, // every record that landed under a cell, oldest first
    scopes: map<Scope, Id>,
    coords: map<Id, Coordination>,
    handles: map<Id, Handle>,
    calls: map<Id, Call>)

  datatype Action = OpenHandle(h: Id, scope: Scope, spare: Id)
                  | CloneHandle(h: Id, copy: Id)
                  | DropHandle(h: Id)
                  | Begin(k: Id, h: Id, key: CredentialKey, request: Request)
                  | FindLock(k: Id, spare: Id)
                  | Acquire(k: Id)
                  | Read(k: Id, fault: Option<Fault>)
                  | Commit(k: Id, verdict: WriteVerdict)
                  | Unlock(k: Id)
                  | DropLock(k: Id)

  // ---- Reading the state ----

  function SlotAt(s: State, c: Cell): Slot {
    if c in s.vault then s.vault[c] else Absent
  }

  function HistoryAt(s: State, c: Cell): seq<Record> {
    if c in s.history then s.history[c] else []
  }

  function CellOf(c: Call): Cell {
    Cell(c.scope, c.key)
  }

  predicate HoldsLock(p: Phase) {
    !p.Start? && !p.Done?
  }

  predicate HoldsGuard(p: Phase) {
    p.Locked? || p.Writing? || p.Unlocking?
  }

  predicate Answered(p: Phase) {
    p.Unlocking? || p.Releasing? || p.Done?
  }

  function LiveCoords(s: State): set<Id> {
    (set h | h in s.handles :: s.handles[h].coord)
      + (set k | k in s.calls && !s.calls[k].phase.Done? :: s.calls[k].coord)
  }

  function LiveLocks(s: State): set<Id> {
    set k | k in s.calls && HoldsLock(s.calls[k].phase) :: s.calls[k].phase.lock
  }

  // ---- Steps ----

  ghost predicate Enabled(s: State, a: Action) {
    match a
    case OpenHandle(h, _, spare) => h !in s.handles && spare !in LiveCoords(s)
    case CloneHandle(h, copy) => h in s.handles && copy !in s.handles
    case DropHandle(h) => h in s.handles
    case Begin(k, h, _, q) => k !in s.calls && h in s.handles && ValidRequest(q)
    case FindLock(k, spare) =>
      k in s.calls && s.calls[k].phase.Start? && s.calls[k].coord in s.coords && spare !in LiveLocks(s)
    case Acquire(k) =>
      k in s.calls && s.calls[k].phase.Waiting? &&
      forall j | j in s.calls && HoldsGuard(s.calls[j].phase) :: s.calls[j].phase.lock != s.calls[k].phase.lock
    case Read(k, _) => k in s.calls && s.calls[k].phase.Locked?
    case Commit(k, _) => k in s.calls && s.calls[k].phase.Writing?
    case Unlock(k) => k in s.calls && s.calls[k].phase.Unlocking?
    case DropLock(k) => k in s.calls && s.calls[k].phase.Releasing?
  }

  predicate Moves(a: Action) {
    a.FindLock? || a.Acquire? || a.Read? || a.Commit? || a.Unlock? || a.DropLock?
  }

  predicate Landing(a: Action) {
    a.Commit? && !a.verdict.Refused?
  }

  function Land(s: State, c: Cell, rec: Record): State {
    s.(vault := s.vault[c := Holds(rec)], history := s.history[c := HistoryAt(s, c) + [rec]])
  }

  ghost function LockFound(s: State, a: Action): (map<CredentialKey, Id>, Id)
    requires Enabled(s, a) && a.FindLock?
  {
    Resolve(s.coords[s.calls[a.k].coord].locks, s.calls[a.k].key, LiveLocks(s), a.spare)
  }

  /** Where a step leaves the call that takes it. */
  ghost function NextPhase(s: State, a: Action): Phase
    requires Enabled(s, a) && Moves(a)
  {
    var c := s.calls[a.k];
    match a
    case FindLock(_, _) => Waiting(LockFound(s, a).1)
    case Acquire(_) => Locked(c.phase.lock)
    case Read(_, fault) =>
      if fault.Some? then Unlocking(c.phase.lock, Failed(Backend(fault.value))) else (
      match Decide(c.request, SlotAt(s, CellOf(c)))
      case Answer(o) => Unlocking(c.phase.lock, o)
      case Put(rec, o) => Writing(c.phase.lock, SlotAt(s, CellOf(c)), rec, o))
    case Commit(_, verdict) => (
      match verdict
      case Lands => Unlocking(c.phase.lock, c.phase.onSuccess)
      case Refused(f) => Unlocking(c.phase.lock, Failed(Backend(f)))
      case LandsButFails(f) => Unlocking(c.phase.lock, Failed(Backend(f))))
    case Unlock(_) => Releasing(c.phase.lock, c.phase.outcome)
    case DropLock(_) => Done(c.phase.outcome)
  }

  ghost function Apply(s: State, a: Action): State
    requires Enabled(s, a)
  {
    if Moves(a) then
      var c := s.calls[a.k];
      var t := if Landing(a) then Land(s, CellOf(c), c.phase.rec)
               else if a.FindLock?
                   then s.(coords := s.coords[c.coord := s.coords[c.coord].(locks := LockFound(s, a).0)])
               else s;
      t.(calls := s.calls[a.k := c.(phase := NextPhase(s, a))])
    else
      match a
      case OpenHandle(h, scope, spare) =>
        var (scopes, coord) := Resolve(s.scopes, scope, LiveCoords(s), spare);
        var coords := if coord == spare then s.coords[spare := Coordination(scope, map[])] else s.coords;
        s.(scopes := scopes, coords := coords, handles := s.handles[h := Handle(scope, coord)])
      case CloneHandle(h, copy) => s.(handles := s.handles[copy := s.handles[h]])
      case DropHandle(h) => s.(handles := s.handles - {h})
      case Begin(k, h, key, q) =>
        s.(calls := s.calls[k := Call(s.handles[h].scope, s.handles[h].coord, key, q, Start)])
      case _ => s
  }

  /** No store is open yet; the vault may already hold anything an earlier process left in it. */
  ghost predicate Init(s: State) {
    && s.scopes == map[] && s.coords == map[] && s.handles == map[] && s.calls == map[]
    && forall c ::
         && ValidSlot(SlotAt(s, c))
         && HistoryAt(s, c) == if SlotAt(s, c).Holds? then [SlotAt(s, c).rec] else []
  }

  // ---- Invariants ----

  /** Whoever holds a coordination object holds the one its scope is registered with. */
  ghost predicate Rooted(s: State) {
    && (forall x | x in s.scopes :: s.scopes[x] in s.coords && s.coords[s.scopes[x]].scope == x)
    && (forall h | h in s.handles :: Registered(s, s.handles[h].scope, s.handles[h].coord))
    && (forall k | k in s.calls && !s.calls[k].phase.Done? :: Registered(s, s.calls[k].scope, s.calls[k].coord))
  }

  ghost predicate Registered(s: State, scope: Scope, coord: Id) {
    scope in s.scopes && s.scopes[scope] == coord && coord in s.coords && s.coords[coord].scope == scope
  }

  /** Whoever holds a mutex holds the one its key is registered with. */
  ghost predicate Latched(s: State) {
    forall k | k in s.calls && HoldsLock(s.calls[k].phase) :: Latch(s, s.calls[k])
  }

  ghost predicate Latch(s: State, c: Call)
    requires HoldsLock(c.phase)
  {
    c.coord in s.coords && c.key in s.coords[c.coord].locks && s.coords[c.coord].locks[c.key] == c.phase.lock
  }

  ghost predicate Exclusive(s: State) {
    forall j, k | j in s.calls && k in s.calls && HoldsGuard(s.calls[j].phase) && HoldsGuard(s.calls[k].phase) ::
      s.calls[j].phase.lock == s.calls[k].phase.lock ==> j == k
  }

  /** A call about to write still sees what it read. */
  ghost predicate Current(s: State) {
    forall k | k in s.calls && s.calls[k].phase.Writing? ::
      var c := s.calls[k];
      SlotAt(s, CellOf(c)) == c.phase.seen && Decide(c.request, c.phase.seen) == Put(c.phase.rec, c.phase.onSuccess)
  }

  ghost predicate Climbing(h: seq<Record>) {
    && (forall i | 0 <= i < |h| :: WellFormed(h[i]))
    && (forall i, j | 0 <= i < j < |h| :: Before(Rank(h[i]), Rank(h[j])))
  }

  ghost predicate Chronicle(s: State) {
    forall c :: Recorded(SlotAt(s, c), HistoryAt(s, c))
  }

  ghost predicate Recorded(slot: Slot, h: seq<Record>) {
    && ValidSlot(slot) && Climbing(h)
    && (if slot.Holds? then h != [] && h[|h| - 1] == slot.rec else h == [])
  }

  ghost predicate Requested(s: State) {
    forall k | k in s.calls :: ValidRequest(s.calls[k].request)
  }

  /** The record an answer carries is one that landed under that key. */
  ghost predicate Truthful(s: State) {
    forall k | k in s.calls && Answered(s.calls[k].phase) ::
      var c := s.calls[k];
      AnswerFits(c.request, c.phase.outcome, HistoryAt(s, CellOf(c)))
  }

  ghost predicate AnswerFits(q: Request, o: Outcome, h: seq<Record>) {
    match o
    case Loaded(st) => q.Get? && Active(st) in h
    case Created(st) => q.Set? && st.credential == q.credential && Active(st) in h
    case Replaced(st) =>
      && q.Replace? && st.credential == q.credential && Active(st) in h
      && st.version == Version(q.expected.generation, q.expected.revision + 1)
    case VersionConflict => q.Replace?
    case Deleted => q.Delete?
    case Failed(_) => true
  }

  ghost predicate Inv(s: State) {
    Rooted(s) && Latched(s) && Exclusive(s) && Current(s) && Chronicle(s) && Requested(s) && Truthful(s)
  }

  lemma InitInv(s: State)
    requires Init(s)
    ensures Inv(s)
  {
  }

  /** A step of a running call changes that call's phase and nothing else about any call or handle. */
  lemma MovesOne(s: State, a: Action)
    requires Moves(a) && Enabled(s, a)
    ensures var t := Apply(s, a);
      && t.handles == s.handles && t.scopes == s.scopes
         && (forall c | c in s.coords :: c in t.coords && t.coords[c].scope == s.coords[c].scope)
      && t.calls == s.calls[a.k := s.calls[a.k].(phase := NextPhase(s, a))]
  {
  }


  lemma RootedOpen(s: State, a: Action)
    requires Rooted(s) && Enabled(s, a) && a.OpenHandle?
    ensures Rooted(Apply(s, a))
  {
    ResolveKeeps(s.scopes, a.scope, LiveCoords(s), a.spare);
  }

  lemma KeepsRooted(s: State, a: Action)
    requires Rooted(s) && Enabled(s, a)
    ensures Rooted(Apply(s, a))
  {
    if a.OpenHandle? {
      RootedOpen(s, a);
    } else if Moves(a) {
      MovesOne(s, a);
    }
  }

  lemma LatchedOpen(s: State, a: Action)
    requires Rooted(s) && Latched(s) && Enabled(s, a) && a.OpenHandle?
    ensures Latched(Apply(s, a))
  {
  }

  lemma LatchedFind(s: State, a: Action)
    requires Latched(s) && Enabled(s, a) && a.FindLock?
    ensures Latched(Apply(s, a))
  {
    var c := s.calls[a.k];
    ResolveKeeps(s.coords[c.coord].locks, c.key, LiveLocks(s), a.spare);
  }

  lemma KeepsLatched(s: State, a: Action)
    requires Rooted(s) && Latched(s) && Enabled(s, a)
    ensures Latched(Apply(s, a))
  {
    if a.OpenHandle? {
      LatchedOpen(s, a);
    } else if a.FindLock? {
      LatchedFind(s, a);
    } else if Moves(a) {
      MovesOne(s, a);
    }
  }

  lemma KeepsExclusive(s: State, a: Action)
    requires Exclusive(s) && Enabled(s, a)
    ensures Exclusive(Apply(s, a))
  {
    if Moves(a) {
      MovesOne(s, a);
    }
  }

  lemma ClimbingAppend(h: seq<Record>, rec: Record)
    requires Climbing(h) && WellFormed(rec) && (h != [] ==> Before(Rank(h[|h| - 1]), Rank(rec)))
    ensures Climbing(h + [rec])
  {
    var t := h + [rec];
    forall i, j | 0 <= i < j < |t| ensures Before(Rank(t[i]), Rank(t[j])) {
      if j == |h| && i < |h| - 1 {
        assert Before(Rank(h[i]), Rank(h[|h| - 1]));
      }
    }
  }

  /** What a landing write does to its own cell. */
  lemma LandRecords(s: State, k: Id)
    requires Current(s) && Chronicle(s) && Requested(s) && k in s.calls && s.calls[k].phase.Writing?
    ensures var c := s.calls[k];
      var t := Land(s, CellOf(c), c.phase.rec);
      && Recorded(SlotAt(t, CellOf(c)), HistoryAt(t, CellOf(c)))
      && (HistoryAt(s, CellOf(c)) != [] ==>
            SlotAt(s, CellOf(c)).Holds? && Before(Rank(SlotAt(s, CellOf(c)).rec), Rank(c.phase.rec)))
  {
    var c := s.calls[k];
    assert Recorded(SlotAt(s, CellOf(c)), HistoryAt(s, CellOf(c)));
    PutsMoveUp(c.request, c.phase.seen);
    ClimbingAppend(HistoryAt(s, CellOf(c)), c.phase.rec);
  }

  /** Only a committed write that takes effect touches the vault, and it touches one cell. */
  lemma VaultFrame(s: State, a: Action)
    requires Enabled(s, a)
    ensures var t := Apply(s, a);
      if Landing(a) then
        var c := s.calls[a.k];
        t.vault == Land(s, CellOf(c), c.phase.rec).vault && t.history == Land(s, CellOf(c), c.phase.rec).history
      else t.vault == s.vault && t.history == s.history
  {
  }

  lemma KeepsChronicle(s: State, a: Action)
    requires Current(s) && Chronicle(s) && Requested(s) && Enabled(s, a)
    ensures Chronicle(Apply(s, a))
  {
    VaultFrame(s, a);
    var t := Apply(s, a);
    forall c ensures Recorded(SlotAt(t, c), HistoryAt(t, c)) {
      assert Recorded(SlotAt(s, c), HistoryAt(s, c));
      if Landing(a) && c == CellOf(s.calls[a.k]) {
        LandRecords(s, a.k);
      }
    }
  }

  /** Two calls on one cell contend for one mutex, so at most one of them holds its guard. */
  lemma OneMutex(s: State, j: Id, k: Id)
    requires Rooted(s) && Latched(s)
    requires j in s.calls && k in s.calls && HoldsLock(s.calls[j].phase) && HoldsLock(s.calls[k].phase)
    requires CellOf(s.calls[j]) == CellOf(s.calls[k])
    ensures s.calls[j].coord == s.calls[k].coord && s.calls[j].phase.lock == s.calls[k].phase.lock
  {
    assert Registered(s, s.calls[j].scope, s.calls[j].coord) && Registered(s, s.calls[k].scope, s.calls[k].coord);
    assert Latch(s, s.calls[j]) && Latch(s, s.calls[k]);
  }

  lemma OwnCurrent(s: State, a: Action)
    requires Current(s) && Enabled(s, a) && Moves(a) && NextPhase(s, a).Writing?
    ensures var c, p := s.calls[a.k], NextPhase(s, a);
      && Apply(s, a).vault == s.vault
      && SlotAt(s, CellOf(c)) == p.seen && Decide(c.request, p.seen) == Put(p.rec, p.onSuccess)
  {
    VaultFrame(s, a);
  }

  lemma MoveKeepsCurrent(s: State, a: Action)
    requires Rooted(s) && Latched(s) && Exclusive(s) && Current(s) && Enabled(s, a) && Moves(a)
    ensures Current(Apply(s, a))
  {
    hide Apply, Enabled, Rooted, Latched, NextPhase, Decide;
    VaultFrame(s, a);
    MovesOne(s, a);
    var t := Apply(s, a);
    if NextPhase(s, a).Writing? {
      OwnCurrent(s, a);
    }
    forall k | k in t.calls && t.calls[k].phase.Writing? && k != a.k
      ensures SlotAt(t, CellOf(t.calls[k])) == SlotAt(s, CellOf(t.calls[k]))
    {
      if Landing(a) {
        LandingHolds(s, a);
        if CellOf(s.calls[k]) == CellOf(s.calls[a.k]) {
          OneMutex(s, k, a.k);
        }
      }
    }
  }

  lemma LandingHolds(s: State, a: Action)
    requires Enabled(s, a) && Landing(a)
    ensures a.k in s.calls && s.calls[a.k].phase.Writing?
  {
  }

  lemma KeepsCurrent(s: State, a: Action)
    requires Rooted(s) && Latched(s) && Exclusive(s) && Current(s) && Enabled(s, a)
    ensures Current(Apply(s, a))
  {
    if Moves(a) {
      MoveKeepsCurrent(s, a);
    } else {
      VaultFrame(s, a);
    }
  }

  lemma KeepsRequested(s: State, a: Action)
    requires Requested(s) && Enabled(s, a)
    ensures Requested(Apply(s, a))
  {
    if Moves(a) {
      MovesOne(s, a);
    }
  }

  /** Histories only ever grow. */
  lemma HistoryGrows(s: State, a: Action, c: Cell)
    requires Enabled(s, a)
    ensures HistoryAt(s, c) <= HistoryAt(Apply(s, a), c)
  {
    VaultFrame(s, a);
  }

  lemma KeepsTruthful(s: State, a: Action)
    requires Current(s) && Chronicle(s) && Truthful(s) && Enabled(s, a)
    ensures Truthful(Apply(s, a))
  {
    var t := Apply(s, a);
    forall k | k in t.calls && Answered(t.calls[k].phase)
      ensures AnswerFits(t.calls[k].request, t.calls[k].phase.outcome, HistoryAt(t, CellOf(t.calls[k])))
    {
      HistoryGrows(s, a, CellOf(t.calls[k]));
      if Moves(a) {
        MovesOne(s, a);
        if k == a.k {
          AnswerHolds(s, a);
        }
      }
    }
  }

  lemma AnswerHolds(s: State, a: Action)
    requires Current(s) && Chronicle(s) && Truthful(s) && Enabled(s, a) && Moves(a)
    requires Answered(NextPhase(s, a))
    ensures AnswerFits(s.calls[a.k].request, NextPhase(s, a).outcome, HistoryAt(Apply(s, a), CellOf(s.calls[a.k])))
  {
    var c := s.calls[a.k];
    assert Recorded(SlotAt(s, CellOf(c)), HistoryAt(s, CellOf(c)));
    HistoryGrows(s, a, CellOf(c));
    if Landing(a) {
      VaultFrame(s, a);
      assert c.phase.rec in HistoryAt(Apply(s, a), CellOf(c));
    }
  }

  /** The invariant holds after every step of every interleaving. */
  lemma InvStep(s: State, a: Action)
    requires Inv(s) && Enabled(s, a)
    ensures Inv(Apply(s, a))
  {
    KeepsRooted(s, a);
    KeepsLatched(s, a);
    KeepsExclusive(s, a);
    KeepsCurrent(s, a);
    KeepsChronicle(s, a);
    KeepsRequested(s, a);
    KeepsTruthful(s, a);
  }

  // ---- Runs ----

  ghost predicate Valid(s: State, run: seq<Action>)
    decreases |run|
  {
    run == [] || (Enabled(s, run[0]) && Valid(Apply(s, run[0]), run[1..]))
  }

  ghost function Final(s: State, run: seq<Action>): State
    requires Valid(s, run)
    decreases |run|
  {
    if run == [] then s else Final(Apply(s, run[0]), run[1..])
  }

  lemma {:induction false} InvRun(s: State, run: seq<Action>)
    requires Inv(s) && Valid(s, run)
    ensures Inv(Final(s, run))
    decreases |run|
  {
    if run != [] {
      InvStep(s, run[0]);
      InvRun(Apply(s, run[0]), run[1..]);
    }
  }

  lemma {:induction false} HistoryGrowsRun(s: State, run: seq<Action>, c: Cell)
    requires Valid(s, run)
    ensures HistoryAt(s, c) <= HistoryAt(Final(s, run), c)
    decreases |run|
  {
    if run != [] {
      HistoryGrows(s, run[0], c);
      HistoryGrowsRun(Apply(s, run[0]), run[1..], c);
    }
  }

  // ---- Main results: an atomic versioned register ----

  datatype Inquiry = Inquiry(cell: Cell, request: Request, answer: Option<Outcome>, returned: bool)

  /** The specification: one slot per cell, and calls that are asked, settled in one atomic action, and returned. */
  datatype Atomic = Atomic(cells: map<Cell, Slot>, calls: map<Id, Inquiry>)

  datatype Event = Invoke(k: Id, cell: Cell, request: Request) | Settle(k: Id, w: Weather) | Return(k: Id) | Silent

  ghost predicate AtomicEnabled(x: Atomic, e: Event) {
    match e
    case Invoke(k, _, _) => k !in x.calls
    case Settle(k, _) => k in x.calls && x.calls[k].answer.None?
    case Return(k) => k in x.calls && x.calls[k].answer.Some? && !x.calls[k].returned
    case Silent => true
  }

  function AtomicSlot(x: Atomic, c: Cell): Slot {
    if c in x.cells then x.cells[c] else Absent
  }

  ghost function AtomicApply(x: Atomic, e: Event): Atomic
    requires AtomicEnabled(x, e)
  {
    match e
    case Invoke(k, cell, q) => x.(calls := x.calls[k := Inquiry(cell, q, None, false)])
    case Settle(k, w) =>
      var c := x.calls[k];
      var (slot, o) := Serve(c.request, AtomicSlot(x, c.cell), w);
      Atomic(if slot == AtomicSlot(x, c.cell) then x.cells else x.cells[c.cell := slot],
             x.calls[k := c.(answer := Some(o))])
    case Return(k) => x.(calls := x.calls[k := x.calls[k].(returned := true)])
    case Silent => x
  }

  function Seen(c: Call): Inquiry {
    Inquiry(CellOf(c), c.request, if Answered(c.phase) then Some(c.phase.outcome) else None, c.phase.Done?)
  }

  ghost function View(s: State): Atomic {
    Atomic(s.vault, map k | k in s.calls :: Seen(s.calls[k]))
  }

  /** Each call takes effect at its read if it writes nothing, and at its write otherwise. */
  ghost function EventOf(s: State, a: Action): Event
    requires Enabled(s, a)
  {
    match a
    case Begin(k, h, key, q) => Invoke(k, Cell(s.handles[h].scope, key), q)
    case Read(k, fault) => if NextPhase(s, a).Unlocking? then Settle(k, Weather(fault, Lands)) else Silent
    case Commit(k, verdict) => Settle(k, Weather(None, verdict))
    case DropLock(k) => Return(k)
    case _ => Silent
  }

  lemma SettlesAtomically(s: State, a: Action)
    requires Current(s) && Chronicle(s) && Requested(s) && Enabled(s, a)
    requires a.Commit? || (a.Read? && NextPhase(s, a).Unlocking?)
    ensures var c := s.calls[a.k];
      var w := EventOf(s, a).w;
      && Serve(c.request, SlotAt(s, CellOf(c)), w) == (SlotAt(Apply(s, a), CellOf(c)), NextPhase(s, a).outcome)
      && Apply(s, a).vault == (if SlotAt(Apply(s, a), CellOf(c)) == SlotAt(s, CellOf(c)) then s.vault
                               else s.vault[CellOf(c) := SlotAt(Apply(s, a), CellOf(c))])
  {
    VaultFrame(s, a);
    if Landing(a) {
      LandRecords(s, a.k);
      assert Recorded(SlotAt(s, CellOf(s.calls[a.k])), HistoryAt(s, CellOf(s.calls[a.k])));
    }
  }

  lemma SeenMoves(s: State, a: Action)
    requires Enabled(s, a) && Moves(a)
    ensures View(Apply(s, a)).calls == View(s).calls[a.k := Seen(s.calls[a.k].(phase := NextPhase(s, a)))]
    ensures EventOf(s, a).Silent? ==> View(Apply(s, a)).calls == View(s).calls
  {
    MovesOne(s, a);
    assert EventOf(s, a).Silent? ==> Seen(s.calls[a.k].(phase := NextPhase(s, a))) == View(s).calls[a.k];
  }

  lemma RefinesMove(s: State, a: Action)
    requires Inv(s) && Enabled(s, a) && Moves(a)
    ensures AtomicEnabled(View(s), EventOf(s, a))
    ensures View(Apply(s, a)) == AtomicApply(View(s), EventOf(s, a))
  {
    hide Apply, Rooted, Latched, Exclusive, Truthful;
    MovesOne(s, a);
    SeenMoves(s, a);
    if a.Commit? || (a.Read? && NextPhase(s, a).Unlocking?) {
      SettlesAtomically(s, a);
    } else {
      VaultFrame(s, a);
    }
  }

  /** Refinement: every step of the concurrent store is a step of the atomic register, or invisible to it. */
  lemma Refines(s: State, a: Action)
    requires Inv(s) && Enabled(s, a)
    ensures AtomicEnabled(View(s), EventOf(s, a))
    ensures View(Apply(s, a)) == AtomicApply(View(s), EventOf(s, a))
  {
    if Moves(a) {
      RefinesMove(s, a);
    }
  }

  ghost function Events(s: State, run: seq<Action>): seq<Event>
    requires Valid(s, run)
    decreases |run|
  {
    if run == [] then [] else [EventOf(s, run[0])] + Events(Apply(s, run[0]), run[1..])
  }

  ghost predicate AtomicRun(x: Atomic, events: seq<Event>, y: Atomic)
    decreases |events|
  {
    if events == [] then x == y
    else AtomicEnabled(x, events[0]) && AtomicRun(AtomicApply(x, events[0]), events[1..], y)
  }

  /** Linearizability: every run, through any handles of any scopes, is a run of the atomic register. */
  lemma {:induction false} Linearizable(s: State, run: seq<Action>)
    requires Inv(s) && Valid(s, run)
    ensures AtomicRun(View(s), Events(s, run), View(Final(s, run)))
    decreases |run|
  {
    if run != [] {
      Refines(s, run[0]);
      InvStep(s, run[0]);
      Linearizable(Apply(s, run[0]), run[1..]);
      assert Events(s, run)[1..] == Events(Apply(s, run[0]), run[1..]);
    }
  }

  // ---- Main results: versions over whole runs ----

  predicate Carries(o: Outcome) {
    o.Loaded? || o.Created? || o.Replaced?
  }

  /** Over every run, a `set` or `replace` that succeeds answers with the credential given, in a record that landed. */
  lemma AnswersCarryRequest(s: State, run: seq<Action>, k: Id)
    requires Init(s) && Valid(s, run) && k in Final(s, run).calls && Answered(Final(s, run).calls[k].phase)
    ensures var c := Final(s, run).calls[k];
      c.phase.outcome.Created? || c.phase.outcome.Replaced? ==>
        && (c.request.Set? || c.request.Replace?)
        && c.phase.outcome.stored.credential == c.request.credential
        && Active(c.phase.outcome.stored) in HistoryAt(Final(s, run), CellOf(c))
  {
    InitInv(s);
    InvRun(s, run);
    var t := Final(s, run);
    assert AnswerFits(t.calls[k].request, t.calls[k].phase.outcome, HistoryAt(t, CellOf(t.calls[k])));
  }

  lemma ClimbingUnique(h: seq<Record>, a: Record, b: Record)
    requires Climbing(h) && a in h && b in h && Rank(a) == Rank(b)
    ensures a == b
  {
    var i :| 0 <= i < |h| && h[i] == a;
    var j :| 0 <= j < |h| && h[j] == b;
  }

  /** Over a whole run, two answers about one key that name the same version carry the same credential. */
  lemma VersionNamesOneCredential(s: State, run: seq<Action>, j: Id, k: Id)
    requires Init(s) && Valid(s, run)
    requires var t := Final(s, run);
      && j in t.calls && k in t.calls && CellOf(t.calls[j]) == CellOf(t.calls[k])
      && Answered(t.calls[j].phase) && Answered(t.calls[k].phase)
      && Carries(t.calls[j].phase.outcome) && Carries(t.calls[k].phase.outcome)
      && t.calls[j].phase.outcome.stored.version == t.calls[k].phase.outcome.stored.version
    ensures var t := Final(s, run);
      t.calls[j].phase.outcome.stored == t.calls[k].phase.outcome.stored
  {
    InitInv(s);
    InvRun(s, run);
    var t := Final(s, run);
    var c := CellOf(t.calls[j]);
    assert Recorded(SlotAt(t, c), HistoryAt(t, c));
    ClimbingUnique(HistoryAt(t, c), Active(t.calls[j].phase.outcome.stored), Active(t.calls[k].phase.outcome.stored));
  }

  /** Every landing write leaves a record ranked strictly above the one it supersedes. */
  lemma LandingClimbs(s: State, a: Action)
    requires Inv(s) && Enabled(s, a) && Landing(a)
    ensures var c := CellOf(s.calls[a.k]);
      && SlotAt(Apply(s, a), c) == Holds(s.calls[a.k].phase.rec)
      && HistoryAt(Apply(s, a), c) == HistoryAt(s, c) + [s.calls[a.k].phase.rec]
      && (SlotAt(s, c).Holds? ==> Before(Rank(SlotAt(s, c).rec), Rank(s.calls[a.k].phase.rec)))
  {
    VaultFrame(s, a);
    LandRecords(s, a.k);
    assert Recorded(SlotAt(s, CellOf(s.calls[a.k])), HistoryAt(s, CellOf(s.calls[a.k])));
  }

  /**
   * A replacement that lands does so on the very history its expected version was observed at: no write came between.
   */
  lemma ReplaceSawNoWrite(s: State, run: seq<Action>, a: Action, c: Cell)
    requires Inv(s) && Valid(s, run) && Enabled(Final(s, run), a) && Landing(a)
    requires var call := Final(s, run).calls[a.k];
      && CellOf(call) == c && call.request.Replace?
      && SlotAt(s, c).Holds? && SlotAt(s, c).rec.Active? && SlotAt(s, c).rec.stored.version == call.request.expected
    ensures HistoryAt(Final(s, run), c) == HistoryAt(s, c) && SlotAt(Final(s, run), c) == SlotAt(s, c)
  {
    var t := Final(s, run);
    InvRun(s, run);
    HistoryGrowsRun(s, run, c);
    var h, h' := HistoryAt(s, c), HistoryAt(t, c);
    assert Recorded(SlotAt(s, c), h) && Recorded(SlotAt(t, c), h');
    assert Rank(h'[|h'| - 1]) == Rank(h[|h| - 1]) == Rank(h'[|h| - 1]);
    assert h == h'[..|h|];
  }

  ghost predicate SetLands(s: State, a: Action, c: Cell)
    requires Enabled(s, a)
  {
    Landing(a) && CellOf(s.calls[a.k]) == c && s.calls[a.k].request.Set?
  }

  ghost predicate NoSetLands(s: State, run: seq<Action>, c: Cell)
    requires Valid(s, run)
    decreases |run|
  {
    run == [] || (!SetLands(s, run[0], c) && NoSetLands(Apply(s, run[0]), run[1..], c))
  }

  lemma TombstoneStep(s: State, a: Action, c: Cell)
    requires Inv(s) && Enabled(s, a) && SlotAt(s, c).Holds? && SlotAt(s, c).rec.Tombstone? && !SetLands(s, a, c)
    ensures SlotAt(Apply(s, a), c) == SlotAt(s, c)
  {
    VaultFrame(s, a);
  }

  /**
   * After a delete nothing but a landing `set` makes the key active again, however many calls are already in flight.
   */
  lemma {:induction false} DeletedStaysDeleted(s: State, run: seq<Action>, c: Cell)
    requires Inv(s) && Valid(s, run) && SlotAt(s, c).Holds? && SlotAt(s, c).rec.Tombstone? && NoSetLands(s, run, c)
    ensures SlotAt(Final(s, run), c) == SlotAt(s, c)
    decreases |run|
  {
    if run != [] {
      TombstoneStep(s, run[0], c);
      InvStep(s, run[0]);
      DeletedStaysDeleted(Apply(s, run[0]), run[1..], c);
    }
  }

  /** The `set` that revives a key does so at a generation no earlier record of the key ever had. */
  lemma RevivalIsNew(s: State, a: Action, c: Cell, earlier: Stored)
    requires Inv(s) && Enabled(s, a) && SetLands(s, a, c)
    requires SlotAt(s, c).Holds? && SlotAt(s, c).rec.Tombstone? && Active(earlier) in HistoryAt(s, c)
    ensures SlotAt(Apply(s, a), c).rec.Active?
    ensures earlier.version.generation < SlotAt(Apply(s, a), c).rec.stored.version.generation
  {
    VaultFrame(s, a);
    var h := HistoryAt(s, c);
    assert Recorded(SlotAt(s, c), h);
    var i :| 0 <= i < |h| && h[i] == Active(earlier);
    assert Before(Rank(h[i]), Rank(h[|h| - 1]));
  }

  // ---- Main results: calls get on ----

  lemma {:induction false} SpareId(ids: set<Id>) returns (x: Id)
    ensures forall id | id in ids :: id < x
  {
    x := 0;
    if ids != {} {
      var id :| id in ids;
      var y := SpareId(ids - {id});
      x := if y > id then y else id + 1;
      assert forall other | other in ids :: other == id || other in ids - {id};
    }
  }

  /** What the next step of a call is, and that nothing but a held mutex keeps it from being taken. */
  lemma CallMoves(s: State, k: Id)
    requires Inv(s) && k in s.calls
    ensures match s.calls[k].phase
            case Start => forall spare | spare !in LiveLocks(s) :: Enabled(s, FindLock(k, spare))
            case Waiting(l) =>
              Enabled(s, Acquire(k)) <==>
                forall j | j in s.calls && HoldsGuard(s.calls[j].phase) :: s.calls[j].phase.lock != l
            case Locked(_) => forall fault :: Enabled(s, Read(k, fault))
            case Writing(_, _, _, _) => forall verdict :: Enabled(s, Commit(k, verdict))
            case Unlocking(_, _) => Enabled(s, Unlock(k))
            case Releasing(_, _) => Enabled(s, DropLock(k))
            case Done(_) => forall a | Moves(a) && a.k == k :: !Enabled(s, a)
  {
    assert Registered(s, s.calls[k].scope, s.calls[k].coord) || s.calls[k].phase.Done?;
  }

  /** No deadlock: a call that is not done can move, or the one call that holds its mutex can. */
  lemma SomeoneMoves(s: State, k: Id) returns (a: Action)
    requires Inv(s) && k in s.calls && !s.calls[k].phase.Done?
    ensures Moves(a) && Enabled(s, a)
    ensures a.k == k || (s.calls[k].phase.Waiting? && a.k in s.calls && HoldsGuard(s.calls[a.k].phase)
                         && s.calls[a.k].phase.lock == s.calls[k].phase.lock)
  {
    CallMoves(s, k);
    var mover := k;
    if s.calls[k].phase.Waiting? && !Enabled(s, Acquire(k)) {
      mover :| mover in s.calls && HoldsGuard(s.calls[mover].phase)
               && s.calls[mover].phase.lock == s.calls[k].phase.lock;
      CallMoves(s, mover);
    }
    match s.calls[mover].phase
    case Start =>
      var spare := SpareId(LiveLocks(s));
      a := FindLock(mover, spare);
    case Waiting(_) => a := Acquire(mover);
    case Locked(_) => a := Read(mover, None);
    case Writing(_, _, _, _) => a := Commit(mover, Lands);
    case Unlocking(_, _) => a := Unlock(mover);
    case Releasing(_, _) => a := DropLock(mover);
  }

  function StepsLeft(p: Phase): nat {
    match p
    case Start => 6
    case Waiting(_) => 5
    case Locked(_) => 4
    case Writing(_, _, _, _) => 3
    case Unlocking(_, _) => 2
    case Releasing(_, _) => 1
    case Done(_) => 0
  }

  /** Each step of a call brings it closer to its end, and nobody else's step moves it: six steps at most. */
  lemma StepsEnd(s: State, a: Action, k: Id)
    requires Enabled(s, a) && k in s.calls
    ensures k in Apply(s, a).calls
    ensures if Moves(a) && a.k == k then StepsLeft(Apply(s, a).calls[k].phase) < StepsLeft(s.calls[k].phase) <= 6
            else Apply(s, a).calls[k] == s.calls[k]
  {
    if Moves(a) {
      MovesOne(s, a);
    }
  }
}
