/**
 * `CredentialStore::refresh` as a labelled transition system on top of the vault protocol: refresh tasks elect one
 * leader per key, followers wait for its flight, leaders can be cancelled at any await, and the store calls a leader
 * spawned go on by themselves. Direct store calls by anyone else interleave with all of it.
 */
module RefreshProtocol {
  import opened Basics
  import opened RecordCodec
  import opened VersionedStore
  import opened WeakRegistry
  import V = VaultProtocol

  type Id = nat

  datatype FailureKind = Authentication | Network | RateLimited | ProviderProtocol | Other

  datatype RefreshError = StoreError(error: Error) | ProviderError(kind: FailureKind)

  type Verdict = Result<Stored, RefreshError>

  /** `enrolled` are the tasks whose wake-up is registered and not yet given. */
  datatype Flight = Flight(coord: Id, cell: V.Cell, observed: Version, honest: bool, leader: Id,
                           result: Option<Verdict>, enrolled: set<Id>, notified: bool)

  datatype Pc = LookingUp
              | Enrolling(flight: Id) | Checking(flight: Id) | Asleep(flight: Id)
              | Elected(flight: Id) | Fetching(flight: Id, call: Id) | Refreshing(flight: Id, current: Stored)
              | Swapping(flight: Id, call: Id, reply: Credential) | Refetching(flight: Id, call: Id)
              | Publishing(flight: Id, verdict: Verdict) | Dropping(flight: Id)
              | Unregistering(flight: Id, verdict: Verdict, cancelled: bool)
              | Notifying(flight: Id, verdict: Verdict, cancelled: bool)
              | Returned(flight: Id, verdict: Verdict) | Cancelled

  /** `honest`: when the task started, the version it observed was one the store had issued for this key. */
  datatype Task = Task(handle: Id, coord: Id, cell: V.Cell, observed: Version, honest: bool, pc: Pc)

  datatype Claim = Claim(cell: V.Cell, version: Version)

  datatype State = State(
    v: V.State,
    registry: map<Id, map<CredentialKey, Id>>, // per coordination object
    flights: map<Id, Flight>,
    tasks: map<Id, Task>,
    served: set<Claim>) // versions for which a leader has computed a strictly later `Ok`

  datatype Action = Store(step: V.Action)
                  | Start(t: Id, h: Id, key: CredentialKey, observed: Version)
                  | LookUp(t: Id, spare: Id)
                  | Enrol(t: Id)
                  | Check(t: Id)
                  | Wake(t: Id)
                  | SpawnGet(t: Id, k: Id)
                  | Fetched(t: Id)
                  | Replied(t: Id, reply: Result<Credential, FailureKind>, k: Id)
                  | Swapped(t: Id, k: Id)
                  | Refetched(t: Id)
                  | Cancel(t: Id)
                  | SetResult(t: Id)
                  | Unregister(t: Id)
                  | Notify(t: Id)

  // ---- Reading the state ----

  predicate Follows(pc: Pc) {
    pc.Enrolling? || pc.Checking? || pc.Asleep?
  }

  /** Leading, with no result set yet. */
  predicate Working(pc: Pc) {
    pc.Elected? || pc.Fetching? || pc.Refreshing? || pc.Swapping? || pc.Refetching? || pc.Publishing? || pc.Dropping?
  }

  predicate Leads(pc: Pc) {
    Working(pc) || pc.Unregistering? || pc.Notifying?
  }

  predicate Over(pc: Pc) {
    pc.Returned? || pc.Cancelled?
  }

  function FlightsOf(s: State, coord: Id): map<CredentialKey, Id> {
    if coord in s.registry then s.registry[coord] else map[]
  }

  function LiveFlights(s: State): set<Id> {
    set t | t in s.tasks && (Follows(s.tasks[t].pc) || Leads(s.tasks[t].pc)) :: s.tasks[t].pc.flight
  }

  predicate Finished(s: State, k: Id) {
    k in s.v.calls && s.v.calls[k].phase.Done?
  }

  /** Some record of this cell carried this version. */
  ghost predicate Issued(s: V.State, c: V.Cell, version: Version) {
    exists rec :: rec in V.HistoryAt(s, c) && rec.Active? && rec.stored.version == version
  }

  /** The cell has moved strictly past this version. */
  ghost predicate Passed(s: V.State, c: V.Cell, version: Version) {
    var h := V.HistoryAt(s, c);
    h != [] && Before(version, Rank(h[|h| - 1]))
  }

  // ---- Steps ----

  predicate IsTaskStep(a: Action) {
    !a.Store? && !a.Start?
  }

  /** The outcome of a store call that has finished. */
  function Settled(s: State, k: Id): Option<Outcome> {
    if Finished(s, k) then Some(s.v.calls[k].phase.outcome) else None
  }

  /** The store call a step makes, if it makes one. */
  ghost function Spawn(s: State, a: Action): Option<V.Action> {
    match a
    case SpawnGet(t, k) =>
      if t in s.tasks then Some(V.Begin(k, s.tasks[t].handle, s.tasks[t].cell.key, Get)) else None
    case Replied(t, Ok(c), k) =>
      if t in s.tasks
      then Some(V.Begin(k, s.tasks[t].handle, s.tasks[t].cell.key, Replace(s.tasks[t].observed, c))) else None
    case Swapped(t, k) =>
      if t in s.tasks && s.tasks[t].pc.Swapping? && Settled(s, s.tasks[t].pc.call) == Some(VersionConflict)
      then Some(V.Begin(k, s.tasks[t].handle, s.tasks[t].cell.key, Get)) else None
    case _ => None
  }

  ghost predicate MaySpawn(s: State, a: Action) {
    match Spawn(s, a)
    case Some(step) => V.Enabled(s.v, step)
    case None => true
  }

  ghost predicate At(s: State, a: Action)
    requires IsTaskStep(a)
  {
    a.t in s.tasks &&
    var pc := s.tasks[a.t].pc;
    match a
    case LookUp(_, spare) => pc.LookingUp? && spare !in s.flights
    case Enrol(_) => pc.Enrolling? && pc.flight in s.flights
    case Check(_) => pc.Checking? && pc.flight in s.flights
    case Wake(t) => pc.Asleep? && pc.flight in s.flights && t !in s.flights[pc.flight].enrolled
    case SpawnGet(_, _) => pc.Elected?
    case Fetched(_) => pc.Fetching? && Finished(s, pc.call)
    case Replied(_, _, _) => pc.Refreshing?
    case Swapped(_, _) => pc.Swapping? && Finished(s, pc.call)
    case Refetched(_) => pc.Refetching? && Finished(s, pc.call)
    case Cancel(_) =>
      pc.LookingUp? || (pc.Asleep? && pc.flight in s.flights)
      || pc.Fetching? || pc.Refreshing? || pc.Swapping? || pc.Refetching?
    case SetResult(_) => (pc.Publishing? || pc.Dropping?) && pc.flight in s.flights
    case Unregister(_) => pc.Unregistering?
    case Notify(_) => pc.Notifying? && pc.flight in s.flights
  }

  ghost predicate StoreEnabled(s: State, step: V.Action) {
    && V.Enabled(s.v, step)
    // a handle cannot be dropped while a refresh borrows it
    && (step.DropHandle? ==> forall t | t in s.tasks && !Over(s.tasks[t].pc) :: s.tasks[t].handle != step.h)
  }

  ghost predicate Enabled(s: State, a: Action) {
    if a.Store? then StoreEnabled(s, a.step)
    else if a.Start? then a.t !in s.tasks && a.h in s.v.handles
    else At(s, a) && MaySpawn(s, a)
  }

  ghost function Found(s: State, a: Action): (map<CredentialKey, Id>, Id)
    requires Enabled(s, a) && a.LookUp?
  {
    Resolve(FlightsOf(s, s.tasks[a.t].coord), s.tasks[a.t].cell.key, LiveFlights(s), a.spare)
  }

  function Collected(o: Outcome): Verdict {
    match o
    case Loaded(st) => Ok(st)
    case Created(st) => Ok(st)
    case Replaced(st) => Ok(st)
    case Failed(e) => Err(StoreError(e))
    case _ => Err(StoreError(NotFound))
  }

  const LOST: Verdict := Err(StoreError(Backend(Synchronization)))

  /** Where a step leaves the task that takes it. */
  ghost function NextPc(s: State, a: Action): Pc
    requires Enabled(s, a) && IsTaskStep(a)
  {
    var task := s.tasks[a.t];
    var pc := task.pc;
    match a
    case LookUp(_, spare) => if Found(s, a).1 == spare then Elected(spare) else Enrolling(Found(s, a).1)
    case Enrol(_) => Checking(pc.flight)
    case Check(_) =>
      var f := s.flights[pc.flight];
      if f.result.None? then Asleep(pc.flight)
      else if f.observed == task.observed then Returned(pc.flight, f.result.value)
      else LookingUp
    case Wake(_) => Enrolling(pc.flight)
    case SpawnGet(_, k) => Fetching(pc.flight, k)
    case Fetched(_) =>
      var o := s.v.calls[pc.call].phase.outcome;
      if o.Loaded? && o.stored.version == task.observed then Refreshing(pc.flight, o.stored)
      else Publishing(pc.flight, Collected(o))
    case Replied(_, reply, k) =>
      if reply.Ok? then Swapping(pc.flight, k, reply.value) else Publishing(pc.flight, Err(ProviderError(reply.error)))
    case Swapped(_, k) =>
      var o := s.v.calls[pc.call].phase.outcome;
      if o.VersionConflict? then Refetching(pc.flight, k) else Publishing(pc.flight, Collected(o))
    case Refetched(_) => Publishing(pc.flight, Collected(s.v.calls[pc.call].phase.outcome))
    case Cancel(_) => if pc.LookingUp? || pc.Asleep? then Cancelled else Dropping(pc.flight)
    case SetResult(_) =>
      if pc.Publishing? then Unregistering(pc.flight, pc.verdict, false) else Unregistering(pc.flight, LOST, true)
    case Unregister(_) => Notifying(pc.flight, pc.verdict, pc.cancelled)
    case Notify(_) => if pc.cancelled then Cancelled else Returned(pc.flight, pc.verdict)
  }

  /** What a step does to the flight its task is on. */
  ghost function NextFlight(s: State, a: Action): Flight
    requires Enabled(s, a) && IsTaskStep(a) && !a.LookUp? && !s.tasks[a.t].pc.LookingUp?
    requires s.tasks[a.t].pc.flight in s.flights
  {
    var f := s.flights[s.tasks[a.t].pc.flight];
    match a
    case Enrol(t) => f.(enrolled := f.enrolled + {t})
    case Check(t) => if f.result.Some? then f.(enrolled := f.enrolled - {t}) else f
    case Cancel(t) => f.(enrolled := f.enrolled - {t})
    case SetResult(_) =>
      if s.tasks[a.t].pc.Publishing? then f.(result := Some(s.tasks[a.t].pc.verdict))
      else if f.result.None? then f.(result := Some(LOST)) else f
    case Notify(_) => f.(enrolled := {}, notified := true)
    case _ => f
  }

  ghost function NextFlights(s: State, a: Action): map<Id, Flight>
    requires Enabled(s, a) && IsTaskStep(a)
  {
    var task := s.tasks[a.t];
    if a.LookUp? then
      if Found(s, a).1 == a.spare
      then s.flights[a.spare := Flight(task.coord, task.cell, task.observed, task.honest, a.t, None, {}, false)]
      else s.flights
    else if !task.pc.LookingUp? && task.pc.flight in s.flights then s.flights[task.pc.flight := NextFlight(s, a)]
    else s.flights
  }

  ghost function NextRegistry(s: State, a: Action): map<Id, map<CredentialKey, Id>>
    requires Enabled(s, a) && IsTaskStep(a)
  {
    var task := s.tasks[a.t];
    var own := FlightsOf(s, task.coord);
    if a.LookUp? then s.registry[task.coord := Found(s, a).0]
    else if a.Unregister? && task.cell.key in own && own[task.cell.key] == task.pc.flight
      then s.registry[task.coord := own - {task.cell.key}]
    else s.registry
  }

  ghost function NextVault(s: State, a: Action): V.State
    requires MaySpawn(s, a)
  {
    match Spawn(s, a)
    case Some(step) => V.Apply(s.v, step)
    case None => s.v
  }

  ghost function TakeStep(s: State, a: Action): State
    requires Enabled(s, a) && IsTaskStep(a)
  {
    var task, pc := s.tasks[a.t], NextPc(s, a);
    State(
      NextVault(s, a),
      NextRegistry(s, a),
      NextFlights(s, a),
      s.tasks[a.t := task.(pc := pc)],
      if pc.Publishing? && pc.verdict.Ok? && Before(task.observed, pc.verdict.value.version)
      then s.served + {Claim(task.cell, task.observed)} else s.served)
  }

  ghost function StepStore(s: State, step: V.Action): State
    requires StoreEnabled(s, step)
  {
    var created := step.OpenHandle? && Resolve(s.v.scopes, step.scope, V.LiveCoords(s.v), step.spare).1 == step.spare;
    s.(v := V.Apply(s.v, step), registry := if created then s.registry[step.spare := map[]] else s.registry)
  }

  ghost function Join(s: State, a: Action): Task
    requires Enabled(s, a) && a.Start?
  {
    var handle := s.v.handles[a.h];
    var c := V.Cell(handle.scope, a.key);
    Task(a.h, handle.coord, c, a.observed, Issued(s.v, c, a.observed), LookingUp)
  }

  ghost function Apply(s: State, a: Action): State
    requires Enabled(s, a)
  {
    if a.Store? then StepStore(s, a.step)
    else if a.Start? then s.(tasks := s.tasks[a.t := Join(s, a)])
    else TakeStep(s, a)
  }

  ghost predicate Init(s: State) {
    V.Init(s.v) && s.registry == map[] && s.flights == map[] && s.tasks == map[] && s.served == {}
  }

  // ---- Invariants ----

  /** A running refresh borrows an open handle of its scope. */
  ghost predicate Borrowed(s: State) {
    forall t | t in s.tasks && !Over(s.tasks[t].pc) ::
      s.tasks[t].handle in s.v.handles
        && s.v.handles[s.tasks[t].handle] == V.Handle(s.tasks[t].cell.scope, s.tasks[t].coord)
  }

  /** A task on a flight is on a flight of its own cell; a leader is on the flight that names it. */
  ghost predicate Manned(s: State) {
    forall t | t in s.tasks && (Follows(s.tasks[t].pc) || Leads(s.tasks[t].pc)) ::
      var task := s.tasks[t];
      && task.pc.flight in s.flights
      && s.flights[task.pc.flight].cell == task.cell && s.flights[task.pc.flight].coord == task.coord
      && (Leads(task.pc) ==> Owns(t, task, s.flights[task.pc.flight]))
  }

  ghost predicate Owns(t: Id, task: Task, f: Flight) {
    f.leader == t && f.observed == task.observed && f.honest == task.honest
  }

  ghost predicate LedBy(s: State, f: Id, t: Id) {
    t in s.tasks && Leads(s.tasks[t].pc) && s.tasks[t].pc.flight == f
  }

  /** A flight has no result exactly while its leader works, and has been notified exactly when its leader is gone. */
  ghost predicate Crewed(s: State) {
    forall f | f in s.flights ::
      var x := s.flights[f];
      && x.leader in s.tasks
      && (x.result.None? <==> LedBy(s, f, x.leader) && Working(s.tasks[x.leader].pc))
      && (x.notified <==> !LedBy(s, f, x.leader))
  }

  ghost predicate OnBoard(s: State, t: Id) {
    t in s.tasks && Leads(s.tasks[t].pc) && !s.tasks[t].pc.Notifying?
  }

  ghost predicate Entry(s: State, c: Id, key: CredentialKey, f: Id) {
    && f in s.flights && s.flights[f].coord == c && s.flights[f].cell.key == key
    && OnBoard(s, s.flights[f].leader) && s.tasks[s.flights[f].leader].pc.flight == f
  }

  ghost predicate Entered(s: State, task: Task)
    requires Follows(task.pc) || Leads(task.pc)
  {
    task.coord in s.registry && task.cell.key in s.registry[task.coord]
      && s.registry[task.coord][task.cell.key] == task.pc.flight
  }

  /** The registry lists exactly the flights whose leader has not unregistered yet. */
  ghost predicate Listed(s: State) {
    && (forall c, key | c in s.registry && key in s.registry[c] :: Entry(s, c, key, s.registry[c][key]))
    && (forall t | OnBoard(s, t) :: Entered(s, s.tasks[t]))
  }

  /** Nobody is enrolled and asleep on a flight that has been notified. */
  ghost predicate Awake(s: State) {
    forall t | t in s.tasks && s.tasks[t].pc.Asleep? && s.tasks[t].pc.flight in s.flights ::
      s.flights[s.tasks[t].pc.flight].notified ==> t !in s.flights[s.tasks[t].pc.flight].enrolled
  }

  /** What a task is about to return, or has returned, is its flight's published result. */
  ghost predicate Published(s: State) {
    forall t | t in s.tasks && (s.tasks[t].pc.Unregistering? || s.tasks[t].pc.Notifying? || s.tasks[t].pc.Returned?) ::
      var task := s.tasks[t];
      && task.pc.flight in s.flights && s.flights[task.pc.flight].result == Some(task.pc.verdict)
      && s.flights[task.pc.flight].observed == task.observed && s.flights[task.pc.flight].cell == task.cell
  }

  /** Steps that leave every flight and every other task alone. */
  lemma Outside(s: State, a: Action)
    requires Enabled(s, a) && !IsTaskStep(a)
    ensures var t := Apply(s, a);
      && t.flights == s.flights && t.served == s.served
      && (a.Store? ==> t.tasks == s.tasks && t.v == V.Apply(s.v, a.step))
      && (a.Start? ==> t.tasks == s.tasks[a.t := t.tasks[a.t]] && t.tasks[a.t].pc.LookingUp? && a.t !in s.tasks
                       && t.v == s.v && t.registry == s.registry && a.h in s.v.handles
                       && t.tasks[a.t].handle == a.h && t.tasks[a.t].coord == s.v.handles[a.h].coord
                       && t.tasks[a.t].cell == V.Cell(s.v.handles[a.h].scope, a.key)
                       && t.tasks[a.t].observed == a.observed
                       && (t.tasks[a.t].honest ==> Issued(t.v, t.tasks[a.t].cell, t.tasks[a.t].observed)))
  {
  }

  lemma TaskStep(s: State, a: Action)
    requires Enabled(s, a) && IsTaskStep(a)
    ensures var t := Apply(s, a);
      && a.t in s.tasks && !Over(s.tasks[a.t].pc) && t.tasks == s.tasks[a.t := s.tasks[a.t].(pc := NextPc(s, a))]
      && t.flights == NextFlights(s, a) && t.registry == NextRegistry(s, a) && t.v == NextVault(s, a)
      && t.served == (if NextPc(s, a).Publishing? && NextPc(s, a).verdict.Ok?
                         && Before(s.tasks[a.t].observed, NextPc(s, a).verdict.value.version)
                      then s.served + {Claim(s.tasks[a.t].cell, s.tasks[a.t].observed)} else s.served)
  {
  }

  lemma HandlesKept(s: State, a: Action)
    requires Enabled(s, a)
    ensures forall t | t in s.tasks && !Over(s.tasks[t].pc) && s.tasks[t].handle in s.v.handles ::
              s.tasks[t].handle in Apply(s, a).v.handles
                && Apply(s, a).v.handles[s.tasks[t].handle] == s.v.handles[s.tasks[t].handle]
  {
    if a.Store? && V.Moves(a.step) {
      V.MovesOne(s.v, a.step);
    }
  }

  lemma KeepsBorrowed(s: State, a: Action)
    requires Borrowed(s) && Enabled(s, a)
    ensures Borrowed(Apply(s, a))
  {
    hide Apply, TakeStep, Enabled, NextPc, NextVault, NextFlights, NextRegistry, Spawn, MaySpawn;
    HandlesKept(s, a);
    if IsTaskStep(a) {
      TaskStep(s, a);
    } else {
      Outside(s, a);
    }
  }

  /** A lookup joins the flight registered under the task's key, or registers a new one with the task as its leader. */
  ghost predicate LookedUp(s: State, t: State, id: Id, spare: Id) {
    && id in s.tasks && s.tasks[id].pc.LookingUp? && spare !in s.flights
    && var task, own := s.tasks[id], FlightsOf(s, s.tasks[id].coord);
    && t.registry.Keys == s.registry.Keys + {task.coord}
    && (forall c | c in s.registry && c != task.coord :: t.registry[c] == s.registry[c])
    && if task.cell.key in own then
         && t.registry[task.coord] == own && t.flights == s.flights
         && t.tasks == s.tasks[id := task.(pc := Enrolling(own[task.cell.key]))]
       else
         && t.registry[task.coord] == own[task.cell.key := spare]
         && t.flights ==
            s.flights[spare := Flight(task.coord, task.cell, task.observed, task.honest, id, None, {}, false)]
         && t.tasks == s.tasks[id := task.(pc := Elected(spare))]
  }

  lemma LookUpStep(s: State, a: Action)
    requires Listed(s) && Enabled(s, a) && a.LookUp?
    ensures LookedUp(s, Apply(s, a), a.t, a.spare)
  {
    TaskStep(s, a);
    var task := s.tasks[a.t];
    var own := FlightsOf(s, task.coord);
    ListedLive(s, task.coord);
    if task.cell.key in own {
      assert s.registry[task.coord][task.cell.key] in s.flights;
    }
  }

  /** Every flight the registry lists is still held by its leader, so a sweep drops none of them. */
  lemma ListedLive(s: State, coord: Id)
    requires Listed(s)
    ensures Sweep(FlightsOf(s, coord), LiveFlights(s)) == FlightsOf(s, coord)
  {
    var own := FlightsOf(s, coord);
    forall key | key in own ensures own[key] in LiveFlights(s) {
      assert s.registry[coord][key] == own[key];
      assert OnBoard(s, s.flights[own[key]].leader);
    }
  }

  /** A flight registered under a task's key is a flight of the task's own cell. */
  lemma FoundOwn(s: State, t: Id)
    requires V.Rooted(s.v) && Borrowed(s) && Manned(s) && Listed(s) && t in s.tasks && !Over(s.tasks[t].pc)
    ensures var task, own := s.tasks[t], FlightsOf(s, s.tasks[t].coord);
      task.cell.key in own ==>
        (own[task.cell.key] in s.flights
         && s.flights[own[task.cell.key]].cell == task.cell && s.flights[own[task.cell.key]].coord == task.coord)
  {
    var task, own := s.tasks[t], FlightsOf(s, s.tasks[t].coord);
    if task.cell.key in own {
      assert s.registry[task.coord][task.cell.key] == own[task.cell.key];
      var leader := s.flights[own[task.cell.key]].leader;
      assert OnBoard(s, leader);
      assert V.Registered(s.v, task.cell.scope, task.coord);
      assert V.Registered(s.v, s.tasks[leader].cell.scope, s.tasks[leader].coord);
    }
  }

  // A task step other than a lookup, as the invariants see it.

  predicate PcMoves(p: Pc, q: Pc) {
    && (Follows(q) ==> Follows(p) && p.flight == q.flight)
    && (Leads(q) ==> Leads(p) && p.flight == q.flight)
    && (Working(q) ==> Working(p))
    && (Working(p) ==> Working(q) || q.Unregistering?)
    && (p.Unregistering? ==> q == Notifying(p.flight, p.verdict, p.cancelled))
    && (p.Notifying? ==> q.Cancelled? || q == Returned(p.flight, p.verdict))
    && (q.Notifying? ==> p.Unregistering?)
    && (q.Unregistering? ==> Working(p))
    && (q.Returned? ==> p.Notifying? || (p.Checking? && p.flight == q.flight))
    && (q.Asleep? ==> p.Checking?)
    && !Over(p)
  }

  predicate SameFlight(x: Flight, y: Flight) {
    y == x.(result := y.result, enrolled := y.enrolled, notified := y.notified)
  }

  predicate FlightMoves(p: Pc, q: Pc, x: Flight, y: Flight) {
    && SameFlight(x, y)
    && (if Working(p) && q.Unregistering?
        then y.result == (if x.result.None? || p.Publishing? then Some(q.verdict) else x.result)
        else y.result == x.result)
    && (if p.Notifying? then y.notified && y.enrolled == {} else y.notified == x.notified)
    && (q.Asleep? ==> x.result.None?)
    && (q.Returned? && p.Checking? ==> x.result == Some(q.verdict))
  }

  ghost predicate Moved(s: State, t: State, id: Id) {
    && id in s.tasks && id in t.tasks && t.tasks == s.tasks[id := s.tasks[id].(pc := t.tasks[id].pc)]
    && t.flights.Keys == s.flights.Keys
    && PcMoves(s.tasks[id].pc, t.tasks[id].pc)
    && (forall f | f in s.flights ::
          if Follows(s.tasks[id].pc) || Leads(s.tasks[id].pc)
          then if s.tasks[id].pc.flight == f
            then FlightMoves(s.tasks[id].pc, t.tasks[id].pc, s.flights[f], t.flights[f])
               else t.flights[f] == s.flights[f]
          else t.flights[f] == s.flights[f])
    && (forall f | f in s.flights :: t.flights[f].enrolled <= s.flights[f].enrolled + {id})
    && (t.tasks[id].pc.Returned? && s.tasks[id].pc.Checking? ==>
          t.tasks[id].pc.flight in s.flights && s.flights[t.tasks[id].pc.flight].observed == s.tasks[id].observed)
  }

  lemma StepMoves(s: State, a: Action)
    requires Enabled(s, a) && IsTaskStep(a) && !a.LookUp?
    ensures Moved(s, Apply(s, a), a.t)
  {
    TaskStep(s, a);
    PcStep(s, a);
    if s.tasks[a.t].pc.LookingUp? || s.tasks[a.t].pc.flight !in s.flights {
    } else {
      FlightStep(s, a);
    }
  }

  lemma PcStep(s: State, a: Action)
    requires Enabled(s, a) && IsTaskStep(a) && !a.LookUp?
    ensures PcMoves(s.tasks[a.t].pc, NextPc(s, a))
    ensures NextPc(s, a).Returned? && s.tasks[a.t].pc.Checking? ==>
              NextPc(s, a).flight in s.flights && s.flights[NextPc(s, a).flight].observed == s.tasks[a.t].observed
  {
  }

  lemma FlightStep(s: State, a: Action)
    requires Enabled(s, a) && IsTaskStep(a) && !a.LookUp? && !s.tasks[a.t].pc.LookingUp?
    requires s.tasks[a.t].pc.flight in s.flights
    ensures FlightMoves(s.tasks[a.t].pc, NextPc(s, a), s.flights[s.tasks[a.t].pc.flight], NextFlight(s, a))
    ensures NextFlight(s, a).enrolled <= s.flights[s.tasks[a.t].pc.flight].enrolled + {a.t}
  {
  }

  lemma MannedLookUp(s: State, t: State, id: Id, spare: Id)
    requires V.Rooted(s.v) && Borrowed(s) && Manned(s) && Listed(s) && LookedUp(s, t, id, spare)
    ensures Manned(t)
  {
    hide V.Rooted, Borrowed, Listed;
    FoundOwn(s, id);
  }

  lemma MannedMoved(s: State, t: State, id: Id)
    requires Manned(s) && Moved(s, t, id)
    ensures Manned(t)
  {
  }

  lemma KeepsManned(s: State, a: Action)
    requires V.Rooted(s.v) && Borrowed(s) && Manned(s) && Listed(s) && Enabled(s, a)
    ensures Manned(Apply(s, a))
  {
    hide Apply, TakeStep, Enabled, NextPc, NextVault, NextFlights, NextRegistry, Spawn, MaySpawn;
    if a.LookUp? {
      LookUpStep(s, a);
      MannedLookUp(s, Apply(s, a), a.t, a.spare);
    } else if IsTaskStep(a) {
      StepMoves(s, a);
      MannedMoved(s, Apply(s, a), a.t);
    } else {
      Outside(s, a);
    }
  }

  lemma CrewedLookUp(s: State, t: State, id: Id, spare: Id)
    requires Manned(s) && Crewed(s) && LookedUp(s, t, id, spare)
    ensures Crewed(t)
  {
    forall f | f in s.flights ensures LedBy(t, f, s.flights[f].leader) <==> LedBy(s, f, s.flights[f].leader) {
    }
  }

  lemma CrewedMoved(s: State, t: State, id: Id)
    requires Manned(s) && Crewed(s) && Moved(s, t, id)
    ensures Crewed(t)
  {
    forall f | f in t.flights
      ensures var x := t.flights[f];
        && x.leader in t.tasks
        && (x.result.None? <==> LedBy(t, f, x.leader) && Working(t.tasks[x.leader].pc))
        && (x.notified <==> !LedBy(t, f, x.leader))
    {
      assert SameFlight(s.flights[f], t.flights[f]);
    }
  }

  lemma KeepsCrewed(s: State, a: Action)
    requires Manned(s) && Crewed(s) && Listed(s) && Enabled(s, a)
    ensures Crewed(Apply(s, a))
  {
    hide Apply, TakeStep, Enabled, NextPc, NextVault, NextFlights, NextRegistry, Spawn, MaySpawn;
    if a.LookUp? {
      LookUpStep(s, a);
      CrewedLookUp(s, Apply(s, a), a.t, a.spare);
    } else if IsTaskStep(a) {
      StepMoves(s, a);
      CrewedMoved(s, Apply(s, a), a.t);
    } else {
      Outside(s, a);
    }
  }

  lemma AwakeMoved(s: State, t: State, id: Id)
    requires Manned(s) && Crewed(s) && Awake(s) && Moved(s, t, id)
    ensures Awake(t)
  {
  }

  lemma KeepsAwake(s: State, a: Action)
    requires Manned(s) && Crewed(s) && Listed(s) && Awake(s) && Enabled(s, a)
    ensures Awake(Apply(s, a))
  {
    hide Apply, TakeStep, Enabled, NextPc, NextVault, NextFlights, NextRegistry, Spawn, MaySpawn;
    if a.LookUp? {
      LookUpStep(s, a);
    } else if IsTaskStep(a) {
      StepMoves(s, a);
      AwakeMoved(s, Apply(s, a), a.t);
    } else {
      Outside(s, a);
    }
  }

  lemma PublishedMoved(s: State, t: State, id: Id)
    requires Manned(s) && Crewed(s) && Published(s) && Moved(s, t, id)
    ensures Published(t)
  {
    forall x | x in t.tasks && (t.tasks[x].pc.Unregistering? || t.tasks[x].pc.Notifying? || t.tasks[x].pc.Returned?)
      ensures var task := t.tasks[x];
        && task.pc.flight in t.flights && t.flights[task.pc.flight].result == Some(task.pc.verdict)
        && t.flights[task.pc.flight].observed == task.observed && t.flights[task.pc.flight].cell == task.cell
    {
      var f := t.tasks[x].pc.flight;
      if f in s.flights {
        assert s.flights[f].result.None? ==> LedBy(s, f, s.flights[f].leader);
      }
    }
  }

  lemma KeepsPublished(s: State, a: Action)
    requires Manned(s) && Crewed(s) && Listed(s) && Published(s) && Enabled(s, a)
    ensures Published(Apply(s, a))
  {
    hide Apply, TakeStep, Enabled, NextPc, NextVault, NextFlights, NextRegistry, Spawn, MaySpawn;
    if a.LookUp? {
      LookUpStep(s, a);
    } else if IsTaskStep(a) {
      StepMoves(s, a);
      PublishedMoved(s, Apply(s, a), a.t);
    } else {
      Outside(s, a);
    }
  }

  lemma ListedMoved(s: State, t: State, id: Id)
    requires Listed(s) && Moved(s, t, id) && t.registry == s.registry && !t.tasks[id].pc.Notifying?
    ensures Listed(t)
  {
    forall x ensures OnBoard(t, x) <==> OnBoard(s, x) {
    }
    forall f | f in s.flights ensures f in t.flights && SameFlight(s.flights[f], t.flights[f]) {
    }
  }

  lemma ListedLookUp(s: State, t: State, id: Id, spare: Id)
    requires Manned(s) && Listed(s) && LookedUp(s, t, id, spare)
    ensures Listed(t)
  {
    forall x | x != id ensures OnBoard(t, x) <==> OnBoard(s, x) {
    }
    if s.tasks[id].cell.key in FlightsOf(s, s.tasks[id].coord) {
      assert forall c, key | c in t.registry && key in t.registry[c] ::
          c in s.registry && key in s.registry[c] && t.registry[c][key] == s.registry[c][key];
    } else {
      ListedNew(s, t, id, spare);
    }
  }

  lemma ListedNew(s: State, t: State, id: Id, spare: Id)
    requires Manned(s) && Listed(s) && LookedUp(s, t, id, spare)
    requires s.tasks[id].cell.key !in FlightsOf(s, s.tasks[id].coord)
    ensures Listed(t)
  {
    forall x | x != id ensures OnBoard(t, x) <==> OnBoard(s, x) {
    }
    forall c, key | c in t.registry && key in t.registry[c] ensures Entry(t, c, key, t.registry[c][key]) {
      if c != s.tasks[id].coord || key != s.tasks[id].cell.key {
        assert Entry(s, c, key, s.registry[c][key]);
      }
    }
    forall x | OnBoard(t, x) ensures Entered(t, t.tasks[x]) {
      if x != id {
        assert Entered(s, s.tasks[x]);
      }
    }
  }

  lemma UnregisterStep(s: State, a: Action)
    requires Enabled(s, a) && a.Unregister?
    ensures var t, task, own := Apply(s, a), s.tasks[a.t], FlightsOf(s, s.tasks[a.t].coord);
      && a.t in s.tasks && task.pc.Unregistering? && t.flights == s.flights
      && a.t in t.tasks && t.tasks[a.t].pc.Notifying?
      && t.tasks == s.tasks[a.t := task.(pc := t.tasks[a.t].pc)]
      && t.registry == if task.cell.key in own && own[task.cell.key] == task.pc.flight
                       then s.registry[task.coord := own - {task.cell.key}] else s.registry
  {
    TaskStep(s, a);
  }

  lemma ListedUnregister(s: State, a: Action)
    requires Manned(s) && Listed(s) && Enabled(s, a) && a.Unregister?
    ensures Listed(Apply(s, a))
  {
    hide Enabled, Apply;
    UnregisterStep(s, a);
    var t := Apply(s, a);
    forall x | x != a.t ensures OnBoard(t, x) <==> OnBoard(s, x) {
    }
    assert OnBoard(s, a.t);
    var task := s.tasks[a.t];
    forall x | OnBoard(s, x) && s.tasks[x].coord == task.coord && s.tasks[x].cell.key == task.cell.key
      ensures x == a.t
    {
      assert s.flights[s.tasks[x].pc.flight].leader == x;
    }
  }

  lemma ListedStore(s: State, a: Action)
    requires Borrowed(s) && Manned(s) && Listed(s) && Enabled(s, a) && a.Store?
    ensures Listed(Apply(s, a))
  {
    Outside(s, a);
    var t := Apply(s, a);
    assert forall x :: OnBoard(t, x) <==> OnBoard(s, x);
    if t.registry != s.registry {
      var coord := a.step.spare;
      forall x | OnBoard(s, x) ensures s.tasks[x].coord != coord {
        assert s.v.handles[s.tasks[x].handle].coord in V.LiveCoords(s.v);
      }
    }
  }

  lemma RegistryKept(s: State, a: Action)
    requires Enabled(s, a) && IsTaskStep(a) && !a.LookUp? && !a.Unregister?
    ensures Apply(s, a).registry == s.registry && !Apply(s, a).tasks[a.t].pc.Notifying?
  {
    TaskStep(s, a);
  }

  lemma KeepsListed(s: State, a: Action)
    requires Borrowed(s) && Manned(s) && Listed(s) && Enabled(s, a)
    ensures Listed(Apply(s, a))
  {
    hide Apply, TakeStep, Enabled, NextPc, NextVault, NextFlights, NextRegistry, Spawn, MaySpawn;
    if a.LookUp? {
      LookUpStep(s, a);
      ListedLookUp(s, Apply(s, a), a.t, a.spare);
    } else if a.Unregister? {
      ListedUnregister(s, a);
    } else if IsTaskStep(a) {
      StepMoves(s, a);
      RegistryKept(s, a);
      ListedMoved(s, Apply(s, a), a.t);
    } else if a.Store? {
      ListedStore(s, a);
    } else {
      Outside(s, a);
    }
  }

  /** Two tasks leading on one cell are one task. */
  lemma OneLeader(s: State, t1: Id, t2: Id)
    requires V.Rooted(s.v) && Borrowed(s) && Manned(s) && Listed(s)
    requires OnBoard(s, t1) && OnBoard(s, t2) && s.tasks[t1].cell == s.tasks[t2].cell
    ensures t1 == t2
  {
    assert V.Registered(s.v, s.tasks[t1].cell.scope, s.tasks[t1].coord);
    assert V.Registered(s.v, s.tasks[t2].cell.scope, s.tasks[t2].coord);
    assert s.flights[s.tasks[t1].pc.flight].leader == t1 && s.flights[s.tasks[t2].pc.flight].leader == t2;
  }

  // ---- The calls leaders wait for, and the versions they may report ----

  ghost predicate Waits(v: V.State, task: Task) {
    match task.pc
    case Fetching(_, k) => k in v.calls && V.CellOf(v.calls[k]) == task.cell && v.calls[k].request == Get
    case Swapping(_, k, reply) =>
      k in v.calls && V.CellOf(v.calls[k]) == task.cell && v.calls[k].request == Replace(task.observed, reply)
    case Refetching(_, k) => k in v.calls && V.CellOf(v.calls[k]) == task.cell && v.calls[k].request == Get
    case _ => true
  }

  ghost predicate Dispatched(s: State) {
    forall t | t in s.tasks :: Waits(s.v, s.tasks[t])
  }

  /** What a task may rely on at each point, and what more it may if its version was issued when it started. */
  ghost predicate Sound(v: V.State, served: set<Claim>, task: Task)
    requires Waits(v, task)
  {
    && (task.honest && !Over(task.pc) ==> Issued(v, task.cell, task.observed))
    && match task.pc
       case Fetching(_, k) =>
         V.Answered(v.calls[k].phase) && v.calls[k].phase.outcome.Loaded? ==>
           var version := v.calls[k].phase.outcome.stored.version;
           (task.honest ==> !Before(version, task.observed))
           && (version == task.observed ==> Claim(task.cell, task.observed) !in served)
       case Refreshing(_, current) => Claim(task.cell, task.observed) !in served
       case Swapping(_, k, _) =>
         task.honest && V.Answered(v.calls[k].phase) && v.calls[k].phase.outcome.VersionConflict? ==>
           Passed(v, task.cell, task.observed)
       case Refetching(_, k) =>
         task.honest ==>
           Passed(v, task.cell, task.observed)
           && (V.Answered(v.calls[k].phase) && v.calls[k].phase.outcome.Loaded? ==>
                 Before(task.observed, v.calls[k].phase.outcome.stored.version))
       case Publishing(_, Ok(st)) =>
         (task.honest ==> Before(task.observed, st.version))
         && (Before(task.observed, st.version) ==> Claim(task.cell, task.observed) in served)
       case _ => true
  }

  ghost predicate ResultLater(served: set<Claim>, f: Flight) {
    f.result.Some? && f.result.value.Ok? ==>
      (f.honest ==> Before(f.observed, f.result.value.value.version))
      && (Before(f.observed, f.result.value.value.version) ==> Claim(f.cell, f.observed) in served)
  }

  ghost predicate ResultsLater(s: State) {
    forall f | f in s.flights :: ResultLater(s.served, s.flights[f])
  }

  ghost predicate Later(s: State)
    requires Dispatched(s)
  {
    && (forall t | t in s.tasks :: Sound(s.v, s.served, s.tasks[t]))
    && ResultsLater(s)
    && (forall claim | claim in s.served :: Passed(s.v, claim.cell, claim.version))
  }

  ghost predicate Inv(s: State) {
    && V.Inv(s.v) && Borrowed(s) && Manned(s) && Crewed(s) && Listed(s) && Awake(s) && Published(s)
    && Dispatched(s) && Later(s)
  }

  lemma InitInv(s: State)
    requires Init(s)
    ensures Inv(s)
  {
    V.InitInv(s.v);
  }

  /** The store part of every step is a step of the vault protocol, or nothing. */
  ghost function VaultStep(s: State, a: Action): seq<V.Action>
    requires Enabled(s, a)
  {
    if a.Store? then [a.step] else if a.Start? then [] else if Spawn(s, a).Some? then [Spawn(s, a).value] else []
  }

  lemma VaultSteps(s: State, a: Action)
    requires Enabled(s, a)
    ensures V.Valid(s.v, VaultStep(s, a)) && Apply(s, a).v == V.Final(s.v, VaultStep(s, a))
  {
    assert VaultStep(s, a) != [] ==> VaultStep(s, a)[1..] == [];
  }

  /** What a vault step keeps of the calls and the history already there. */
  ghost predicate Extends(v: V.State, w: V.State) {
    && (forall k | k in v.calls ::
          k in w.calls && w.calls[k].request == v.calls[k].request && V.CellOf(w.calls[k]) == V.CellOf(v.calls[k]))
    && (forall k | k in v.calls && V.Answered(v.calls[k].phase) ::
          V.Answered(w.calls[k].phase) && w.calls[k].phase.outcome == v.calls[k].phase.outcome)
    && (forall c :: V.HistoryAt(v, c) <= V.HistoryAt(w, c))
  }

  lemma StepExtends(v: V.State, a: V.Action)
    requires V.Enabled(v, a)
    ensures Extends(v, V.Apply(v, a))
  {
    if V.Moves(a) {
      V.MovesOne(v, a);
    }
    forall c ensures V.HistoryAt(v, c) <= V.HistoryAt(V.Apply(v, a), c) {
      V.HistoryGrows(v, a, c);
    }
  }

  lemma IssuedStays(v: V.State, w: V.State, c: V.Cell, version: Version)
    requires Issued(v, c, version) && V.HistoryAt(v, c) <= V.HistoryAt(w, c)
    ensures Issued(w, c, version)
  {
    var rec :| rec in V.HistoryAt(v, c) && rec.Active? && rec.stored.version == version;
    assert rec in V.HistoryAt(w, c);
  }

  lemma PassedStays(v: V.State, w: V.State, c: V.Cell, version: Version)
    requires Passed(v, c, version) && V.HistoryAt(v, c) <= V.HistoryAt(w, c) && V.Chronicle(w)
    ensures Passed(w, c, version)
  {
    var h, h' := V.HistoryAt(v, c), V.HistoryAt(w, c);
    assert V.Recorded(V.SlotAt(w, c), h');
    assert h[|h| - 1] == h'[|h| - 1];
  }

  /** An issued version never ranks above the newest record. */
  lemma IssuedBelow(v: V.State, c: V.Cell, version: Version)
    requires V.Chronicle(v) && Issued(v, c, version)
    ensures V.HistoryAt(v, c) != [] && V.SlotAt(v, c) == Holds(V.HistoryAt(v, c)[|V.HistoryAt(v, c)| - 1])
    ensures version == Rank(V.SlotAt(v, c).rec) || Before(version, Rank(V.SlotAt(v, c).rec))
  {
    var h := V.HistoryAt(v, c);
    assert V.Recorded(V.SlotAt(v, c), h);
    var rec :| rec in h && rec.Active? && rec.stored.version == version;
    var i :| 0 <= i < |h| && h[i] == rec;
    if i < |h| - 1 {
      assert Before(Rank(h[i]), Rank(h[|h| - 1]));
    }
  }

  /** A call that gets its answer in this step is the one that moves. */
  lemma AnswerMoves(v: V.State, a: V.Action, w: V.State, k: Id)
    requires V.Enabled(v, a) && w == V.Apply(v, a) && k in v.calls && k in w.calls
    requires !V.Answered(v.calls[k].phase) && V.Answered(w.calls[k].phase)
    ensures (a.Read? || a.Commit?) && a.k == k && w.calls[k].phase == V.NextPhase(v, a)
  {
    assert V.Moves(a) && a.k == k;
    V.MovesOne(v, a);
  }

  /** It answers from the record that is newest at this moment. */
  lemma AnswersFromNewest(v: V.State, a: V.Action, w: V.State, k: Id)
    requires V.Inv(v) && V.Enabled(v, a) && w == V.Apply(v, a) && k in v.calls && k in w.calls
    requires !V.Answered(v.calls[k].phase) && V.Answered(w.calls[k].phase)
    ensures var o, c := w.calls[k].phase.outcome, V.CellOf(v.calls[k]);
      && (o.Loaded? ==> V.SlotAt(v, c) == Holds(Active(o.stored)))
      && (o.VersionConflict? ==> V.SlotAt(v, c).Holds? && V.SlotAt(v, c).rec.Active?
                                 && Rank(V.SlotAt(v, c).rec) != v.calls[k].request.expected)
  {
    hide V.Apply, V.Rooted, V.Latched, V.Exclusive, V.Chronicle, V.Truthful;
    AnswerMoves(v, a, w, k);
  }

  ghost predicate AllPassed(v: V.State, served: set<Claim>) {
    forall claim | claim in served :: Passed(v, claim.cell, claim.version)
  }

  /** A newly loaded record is at least as new as any issued version, and no served version loads again. */
  lemma LoadedNewest(v: V.State, a: V.Action, w: V.State, k: Id, observed: Version)
    requires V.Inv(v) && V.Enabled(v, a) && w == V.Apply(v, a) && k in v.calls && k in w.calls
    requires !V.Answered(v.calls[k].phase) && V.Answered(w.calls[k].phase) && Issued(v, V.CellOf(v.calls[k]), observed)
    ensures var o, c := w.calls[k].phase.outcome, V.CellOf(v.calls[k]);
      && (o.Loaded? ==> !Before(o.stored.version, observed))
      && (o.Loaded? && Passed(v, c, observed) ==> Before(observed, o.stored.version))
      && (o.VersionConflict? && v.calls[k].request.Replace? && v.calls[k].request.expected == observed ==>
         Passed(v, c, observed))
  {
    hide V.Apply, V.Enabled;
    AnswersFromNewest(v, a, w, k);
    IssuedBelow(v, V.CellOf(v.calls[k]), observed);
  }

  /** A version the cell has moved past never loads again. */
  lemma PassedNeverLoads(v: V.State, a: V.Action, w: V.State, k: Id)
    requires V.Inv(v) && V.Enabled(v, a) && w == V.Apply(v, a) && k in v.calls && k in w.calls
    requires !V.Answered(v.calls[k].phase) && V.Answered(w.calls[k].phase) && w.calls[k].phase.outcome.Loaded?
    ensures !Passed(v, V.CellOf(v.calls[k]), w.calls[k].phase.outcome.stored.version)
  {
    hide V.Apply, V.Enabled;
    AnswersFromNewest(v, a, w, k);
    var c := V.CellOf(v.calls[k]);
    assert V.Recorded(V.SlotAt(v, c), V.HistoryAt(v, c));
  }

  lemma SoundStep(v: V.State, a: V.Action, served: set<Claim>, task: Task)
    requires V.Inv(v) && V.Enabled(v, a) && Waits(v, task) && Sound(v, served, task) && AllPassed(v, served)
    ensures Waits(V.Apply(v, a), task) && Sound(V.Apply(v, a), served, task)
  {
    hide V.Apply, V.Enabled, V.Rooted, V.Latched, V.Exclusive, V.Current, V.Truthful, V.Requested;
    var w := V.Apply(v, a);
    V.InvStep(v, a);
    StepExtends(v, a);
    if task.pc.Fetching? {
      var k := task.pc.call;
      if !V.Answered(v.calls[k].phase) && V.Answered(w.calls[k].phase) && w.calls[k].phase.outcome.Loaded? {
        PassedNeverLoads(v, a, w, k);
      }
    }
    if task.honest && !Over(task.pc) {
      IssuedStays(v, w, task.cell, task.observed);
      if Passed(v, task.cell, task.observed) {
        PassedStays(v, w, task.cell, task.observed);
      }
      if task.pc.Fetching? || task.pc.Swapping? || task.pc.Refetching? {
        var k := task.pc.call;
        if !V.Answered(v.calls[k].phase) && V.Answered(w.calls[k].phase) {
          LoadedNewest(v, a, w, k, task.observed);
        }
      }
    }
  }

  lemma PassedStep(v: V.State, a: V.Action, served: set<Claim>)
    requires V.Inv(v) && V.Enabled(v, a) && AllPassed(v, served)
    ensures AllPassed(V.Apply(v, a), served)
  {
    V.InvStep(v, a);
    StepExtends(v, a);
    forall claim | claim in served ensures Passed(V.Apply(v, a), claim.cell, claim.version) {
      PassedStays(v, V.Apply(v, a), claim.cell, claim.version);
    }
  }

  /** Whatever the step does to the store, every task keeps what it relied on. */
  lemma SoundAll(s: State, a: Action)
    requires V.Inv(s.v) && Dispatched(s) && Later(s) && Enabled(s, a)
    ensures var w := Apply(s, a).v;
      && V.Inv(w) && Extends(s.v, w) && AllPassed(w, s.served)
      && forall x | x in s.tasks :: Waits(w, s.tasks[x]) && Sound(w, s.served, s.tasks[x])
  {
    VaultSteps(s, a);
    var steps := VaultStep(s, a);
    if steps != [] {
      assert steps[1..] == [];
      V.InvStep(s.v, steps[0]);
      StepExtends(s.v, steps[0]);
      PassedStep(s.v, steps[0], s.served);
      forall x | x in s.tasks ensures Waits(Apply(s, a).v, s.tasks[x]) && Sound(Apply(s, a).v, s.served, s.tasks[x]) {
        SoundStep(s.v, steps[0], s.served, s.tasks[x]);
      }
    }
  }

  /** A record that landed after an issued version proves the cell has moved past that version. */
  lemma LandedPasses(v: V.State, c: V.Cell, st: Stored, version: Version)
    requires V.Chronicle(v) && Active(st) in V.HistoryAt(v, c) && Before(version, st.version)
    ensures Passed(v, c, version)
  {
    var h := V.HistoryAt(v, c);
    assert V.Recorded(V.SlotAt(v, c), h);
    var i :| 0 <= i < |h| && h[i] == Active(st);
    if i < |h| - 1 {
      assert Before(Rank(h[i]), Rank(h[|h| - 1]));
    }
  }

  /**
   * A verdict `Ok` is strictly newer than the version an honest leader observed; if it is newer, the cell has moved on.
   */
  lemma ComputedLater(s: State, a: Action)
    requires V.Inv(s.v) && Dispatched(s) && Later(s) && Enabled(s, a) && IsTaskStep(a)
    requires NextPc(s, a).Publishing? && NextPc(s, a).verdict.Ok?
    ensures s.tasks[a.t].honest ==> Before(s.tasks[a.t].observed, NextPc(s, a).verdict.value.version)
    ensures Before(s.tasks[a.t].observed, NextPc(s, a).verdict.value.version) ==>
              Passed(s.v, s.tasks[a.t].cell, s.tasks[a.t].observed)
    ensures OnBoard(s, a.t)
  {
    var task := s.tasks[a.t];
    assert Waits(s.v, task) && Sound(s.v, s.served, task);
    var call := s.v.calls[task.pc.call];
    assert V.AnswerFits(call.request, call.phase.outcome, V.HistoryAt(s.v, V.CellOf(call)));
    if Before(task.observed, NextPc(s, a).verdict.value.version) {
      LandedPasses(s.v, task.cell, NextPc(s, a).verdict.value, task.observed);
    }
  }

  ghost predicate Asks(v: V.State, k: Id, c: V.Cell) {
    k in v.calls && !V.Answered(v.calls[k].phase) && V.CellOf(v.calls[k]) == c
  }

  /** The task has just spawned a call, on its own cell, that has no answer yet. */
  ghost predicate Spawned(v: V.State, w: V.State, task: Task, pc: Pc) {
    match pc
    case Fetching(_, k) => task.pc.Elected? && Asks(w, k, task.cell) && w.calls[k].request == Get
    case Swapping(_, k, reply) =>
      task.pc.Refreshing? && Asks(w, k, task.cell) && w.calls[k].request == Replace(task.observed, reply)
    case Refetching(_, k) =>
      && task.pc.Swapping? && task.pc.call in v.calls && V.Answered(v.calls[task.pc.call].phase)
      && v.calls[task.pc.call].phase.outcome.VersionConflict?
      && Asks(w, k, task.cell) && w.calls[k].request == Get
    case _ => false
  }

  lemma SpawnedCall(s: State, a: Action)
    requires Borrowed(s) && Enabled(s, a) && IsTaskStep(a) && Spawn(s, a).Some?
    ensures Spawned(s.v, Apply(s, a).v, s.tasks[a.t], NextPc(s, a))
  {
  }

  lemma SpawnedSound(v: V.State, w: V.State, served: set<Claim>, task: Task, pc: Pc)
    requires Waits(v, task) && Sound(v, served, task) && Extends(v, w) && V.Chronicle(w) && Spawned(v, w, task, pc)
    ensures Waits(w, task.(pc := pc)) && Sound(w, served, task.(pc := pc))
  {
    if task.honest {
      IssuedStays(v, w, task.cell, task.observed);
      if pc.Refetching? {
        PassedStays(v, w, task.cell, task.observed);
      }
    }
  }

  lemma SpawnSound(s: State, a: Action)
    requires V.Inv(s.v) && Borrowed(s) && Dispatched(s) && Later(s) && Enabled(s, a) && IsTaskStep(a)
        && Spawn(s, a).Some?
    ensures Waits(Apply(s, a).v, Apply(s, a).tasks[a.t])
    ensures Sound(Apply(s, a).v, Apply(s, a).served, Apply(s, a).tasks[a.t])
  {
    hide Apply, TakeStep, Enabled, NextPc, NextVault, NextFlights, NextRegistry, Spawn, MaySpawn, Waits, Sound;
    SpawnedCall(s, a);
    SoundAll(s, a);
    TaskStep(s, a);
    SpawnedSound(s.v, Apply(s, a).v, s.served, s.tasks[a.t], NextPc(s, a));
  }

  /** A leader goes on to refresh only while its claim is open. */
  lemma FetchedOpen(s: State, a: Action)
    requires Dispatched(s) && Later(s) && Enabled(s, a) && IsTaskStep(a) && NextPc(s, a).Refreshing?
    ensures Claim(s.tasks[a.t].cell, s.tasks[a.t].observed) !in s.served
  {
    assert Sound(s.v, s.served, s.tasks[a.t]);
  }

  lemma PlainSteps(s: State, a: Action)
    requires Enabled(s, a) && IsTaskStep(a) && Spawn(s, a).None?
    ensures !NextPc(s, a).Fetching? && !NextPc(s, a).Swapping? && !NextPc(s, a).Refetching?
    ensures Apply(s, a).v == s.v
  {
  }

  lemma PlainSound(s: State, a: Action)
    requires V.Inv(s.v) && Borrowed(s) && Dispatched(s) && Later(s) && Enabled(s, a) && IsTaskStep(a)
        && Spawn(s, a).None?
    ensures Waits(Apply(s, a).v, Apply(s, a).tasks[a.t])
    ensures Sound(Apply(s, a).v, Apply(s, a).served, Apply(s, a).tasks[a.t])
  {
    hide Apply, TakeStep, Enabled, NextPc, NextVault, NextFlights, NextRegistry, Spawn, MaySpawn;
    TaskStep(s, a);
    PlainSteps(s, a);
    var task := s.tasks[a.t];
    assert Waits(s.v, task) && Sound(s.v, s.served, task);
    if NextPc(s, a).Refreshing? {
      FetchedOpen(s, a);
    }
    if NextPc(s, a).Publishing? && NextPc(s, a).verdict.Ok? {
      ComputedLater(s, a);
    }
  }

  lemma OwnSound(s: State, a: Action)
    requires Inv(s) && Enabled(s, a) && IsTaskStep(a)
    ensures Waits(Apply(s, a).v, Apply(s, a).tasks[a.t])
    ensures Sound(Apply(s, a).v, Apply(s, a).served, Apply(s, a).tasks[a.t])
  {
    hide Apply, TakeStep, Enabled, NextPc, NextVault, NextFlights, NextRegistry, Spawn, MaySpawn;
    if Spawn(s, a).Some? {
      SpawnSound(s, a);
    } else {
      PlainSound(s, a);
    }
  }

  /** A settled claim upsets only a task still working towards the same one. */
  lemma Undisturbed(v: V.State, served: set<Claim>, claim: Claim, task: Task)
    requires Waits(v, task) && Sound(v, served, task)
    requires task.cell == claim.cell ==> !task.pc.Fetching? && !task.pc.Refreshing?
    ensures Sound(v, served + {claim}, task)
  {
  }

  /** Computing an `Ok` settles its claim without upsetting any other task: no other task leads on that cell. */
  lemma OthersSound(s: State, a: Action, x: Id)
    requires Inv(s) && Enabled(s, a) && IsTaskStep(a) && x in s.tasks && x != a.t
    ensures Waits(Apply(s, a).v, s.tasks[x]) && Sound(Apply(s, a).v, Apply(s, a).served, s.tasks[x])
  {
    hide Apply, TakeStep, Enabled, NextPc, NextVault, NextFlights, NextRegistry, Spawn, MaySpawn, Waits, Sound;
    SoundAll(s, a);
    TaskStep(s, a);
    var task, other := s.tasks[a.t], s.tasks[x];
    if Apply(s, a).served != s.served {
      ComputedLater(s, a);
      if OnBoard(s, x) && other.cell == task.cell {
        OneLeader(s, x, a.t);
      }
      Undisturbed(Apply(s, a).v, s.served, Claim(task.cell, task.observed), other);
    }
  }

  lemma ServedPassed(s: State, a: Action)
    requires Inv(s) && Enabled(s, a)
    ensures AllPassed(Apply(s, a).v, Apply(s, a).served)
  {
    hide Apply, TakeStep, Enabled, NextPc, NextVault, NextFlights, NextRegistry, Spawn, MaySpawn;
    SoundAll(s, a);
    if IsTaskStep(a) {
      TaskStep(s, a);
    } else {
      Outside(s, a);
    }
    if Apply(s, a).served != s.served {
      ComputedLater(s, a);
      PassedStays(s.v, Apply(s, a).v, s.tasks[a.t].cell, s.tasks[a.t].observed);
    }
  }

  lemma KeepsResults(s: State, a: Action)
    requires Inv(s) && Enabled(s, a)
    ensures ResultsLater(Apply(s, a))
  {
    hide Apply, TakeStep, Enabled, NextPc, NextVault, NextFlights, NextRegistry, Spawn, MaySpawn;
    if a.LookUp? {
      LookUpStep(s, a);
      TaskStep(s, a);
    } else if IsTaskStep(a) {
      StepMoves(s, a);
      TaskStep(s, a);
      if NextPc(s, a).Unregistering? && Working(s.tasks[a.t].pc) && NextPc(s, a).verdict.Ok? {
        UnregisteringVerdict(s, a);
      }
      ResultsMoved(s, Apply(s, a), a.t);
    } else {
      Outside(s, a);
    }
  }

  lemma UnregisteringVerdict(s: State, a: Action)
    requires Enabled(s, a) && IsTaskStep(a) && Dispatched(s) && Later(s)
    requires Working(s.tasks[a.t].pc) && NextPc(s, a).Unregistering? && NextPc(s, a).verdict.Ok?
    ensures Verified(s.served, s.tasks[a.t], NextPc(s, a).verdict.value)
  {
    assert Sound(s.v, s.served, s.tasks[a.t]);
  }

  /** What is known of a record a leader publishes. */
  ghost predicate Verified(served: set<Claim>, task: Task, st: Stored) {
    (task.honest ==> Before(task.observed, st.version))
    && (Before(task.observed, st.version) ==> Claim(task.cell, task.observed) in served)
  }

  /** A result set in this step is the leader's verdict, or the error a cancelled leader leaves. */
  lemma ResultsMoved(s: State, t: State, id: Id)
    requires Manned(s) && ResultsLater(s) && Moved(s, t, id) && s.served <= t.served
    requires t.tasks[id].pc.Unregistering? && Working(s.tasks[id].pc) && t.tasks[id].pc.verdict.Ok? ==>
               Verified(s.served, s.tasks[id], t.tasks[id].pc.verdict.value)
    ensures ResultsLater(t)
  {
    forall f | f in t.flights ensures ResultLater(t.served, t.flights[f]) {
      assert ResultLater(s.served, s.flights[f]);
    }
  }

  lemma KeepsLater(s: State, a: Action)
    requires Inv(s) && Enabled(s, a)
    ensures Dispatched(Apply(s, a)) && Later(Apply(s, a))
  {
    hide Apply, TakeStep, Enabled, NextPc, NextVault, NextFlights, NextRegistry, Spawn, MaySpawn;
    var t := Apply(s, a);
    SoundAll(s, a);
    KeepsResults(s, a);
    ServedPassed(s, a);
    if IsTaskStep(a) {
      TaskStep(s, a);
      forall x | x in t.tasks ensures Waits(t.v, t.tasks[x]) && Sound(t.v, t.served, t.tasks[x]) {
        if x == a.t {
          OwnSound(s, a);
        } else {
          OthersSound(s, a, x);
        }
      }
    } else {
      Outside(s, a);
      forall x | x in t.tasks ensures Waits(t.v, t.tasks[x]) && Sound(t.v, t.served, t.tasks[x]) {
      }
    }
  }

  /** The invariant holds after every step of every interleaving. */
  lemma InvStep(s: State, a: Action)
    requires Inv(s) && Enabled(s, a)
    ensures Inv(Apply(s, a))
  {
    hide Apply, TakeStep, Enabled, NextPc, NextVault, NextFlights, NextRegistry, Spawn, MaySpawn;
    SoundAll(s, a);
    KeepsBorrowed(s, a);
    KeepsManned(s, a);
    KeepsCrewed(s, a);
    KeepsListed(s, a);
    KeepsAwake(s, a);
    KeepsPublished(s, a);
    KeepsLater(s, a);
  }

  // ---- Runs ----

  ghost predicate Valid(s: State, run: seq<Action>)
    decreases |run|
  {
    run == [] || (Enabled(s, run[0]) && Valid(Apply(s, run[0]), run[1..]))
  }

  ghost function Final(s: State, run: seq<Action>): State
    requires Valid(s, run)
    decreases |run|
  {
    if run == [] then s else Final(Apply(s, run[0]), run[1..])
  }

  lemma {:induction false} InvRun(s: State, run: seq<Action>)
    requires Inv(s) && Valid(s, run)
    ensures Inv(Final(s, run))
    decreases |run|
  {
    if run != [] {
      InvStep(s, run[0]);
      InvRun(Apply(s, run[0]), run[1..]);
    }
  }

  ghost predicate Reachable(s: State) {
    exists s0, run :: Init(s0) && Valid(s0, run) && Final(s0, run) == s
  }

  lemma ReachableInv(s: State)
    requires Reachable(s)
    ensures Inv(s)
  {
    var s0, run :| Init(s0) && Valid(s0, run) && Final(s0, run) == s;
    InitInv(s0);
    InvRun(s0, run);
  }

  // ---- Main results ----

  /**
   * Single flight: at most one provider refresher runs per credential, whatever versions, handles and cancellations.
   */
  lemma SingleRefresher(s: State, t1: Id, t2: Id)
    requires Reachable(s) && t1 in s.tasks && t2 in s.tasks
    requires s.tasks[t1].pc.Refreshing? && s.tasks[t2].pc.Refreshing? && s.tasks[t1].cell == s.tasks[t2].cell
    ensures t1 == t2
  {
    ReachableInv(s);
    OneLeader(s, t1, t2);
  }

  /** Every `Ok`, to the leader or to a follower, is strictly newer than the version its flight observed. */
  lemma OkIsLater(s: State, t: Id)
    requires Reachable(s) && t in s.tasks && s.tasks[t].pc.Returned? && s.tasks[t].pc.verdict.Ok?
    requires s.tasks[t].pc.flight in s.flights ==> s.flights[s.tasks[t].pc.flight].honest
    ensures Before(s.tasks[t].observed, s.tasks[t].pc.verdict.value.version)
  {
    ReachableInv(s);
    assert ResultLater(s.served, s.flights[s.tasks[t].pc.flight]);
  }

  lemma {:induction false} ServedGrows(s: State, run: seq<Action>)
    requires Valid(s, run)
    ensures s.served <= Final(s, run).served
    decreases |run|
  {
    if run != [] {
      ServedGrows(Apply(s, run[0]), run[1..]);
    }
  }

  /**
   * This answer to a refresh of `version` settles it: the version was issued, or the record is strictly later anyway.
   */
  predicate Settles(honest: bool, version: Version, verdict: Verdict) {
    verdict.Ok? && (honest || Before(version, verdict.value.version))
  }

  /** A leader that observed this version has such an answer: about to publish it, or published. */
  ghost predicate Computed(s: State, c: V.Cell, version: Version) {
    || (exists t :: t in s.tasks && s.tasks[t].cell == c && s.tasks[t].observed == version
                    && s.tasks[t].pc.Publishing? && Settles(s.tasks[t].honest, version, s.tasks[t].pc.verdict))
    || (exists f :: f in s.flights && s.flights[f].cell == c && s.flights[f].observed == version
                    && s.flights[f].result.Some? && Settles(s.flights[f].honest, version, s.flights[f].result.value))
  }

  lemma ComputedServed(s: State, c: V.Cell, version: Version)
    requires Inv(s) && Computed(s, c, version)
    ensures Claim(c, version) in s.served
  {
    hide V.Inv, Borrowed, Manned, Crewed, Listed, Awake, Published;
    forall t | t in s.tasks && s.tasks[t].pc.Publishing?
      && Settles(s.tasks[t].honest, s.tasks[t].observed, s.tasks[t].pc.verdict)
      ensures Claim(s.tasks[t].cell, s.tasks[t].observed) in s.served
    {
      assert Sound(s.v, s.served, s.tasks[t]);
    }
    forall f | f in s.flights ensures ResultLater(s.served, s.flights[f]) {
    }
  }

  /** Once a refresh of a version has computed such an answer, no refresher at all ever runs for that version again. */
  lemma NoSecondRefresh(s: State, run: seq<Action>, c: V.Cell, version: Version, t: Id)
    requires Reachable(s) && Valid(s, run) && Computed(s, c, version) && t in Final(s, run).tasks
    requires Final(s, run).tasks[t].cell == c && Final(s, run).tasks[t].observed == version
    ensures !Final(s, run).tasks[t].pc.Refreshing?
  {
    ReachableInv(s);
    ComputedServed(s, c, version);
    InvRun(s, run);
    ServedGrows(s, run);
    var u := Final(s, run);
    assert Sound(u.v, u.served, u.tasks[t]);
  }

  /** Tasks that start with a version the store issued make every flight honest. */
  ghost predicate Faithful(s: State, run: seq<Action>)
    requires Valid(s, run)
    decreases |run|
  {
    run == [] || (
      (run[0].Start? ==> Issued(s.v, V.Cell(s.v.handles[run[0].h].scope, run[0].key), run[0].observed))
      && Faithful(Apply(s, run[0]), run[1..]))
  }

  ghost predicate AllHonest(s: State) {
    (forall t | t in s.tasks :: s.tasks[t].honest) && (forall f | f in s.flights :: s.flights[f].honest)
  }

  lemma HonestStep(s: State, a: Action)
    requires AllHonest(s) && Enabled(s, a)
    requires a.Start? ==> Issued(s.v, V.Cell(s.v.handles[a.h].scope, a.key), a.observed)
    ensures AllHonest(Apply(s, a))
  {
    if a.LookUp? {
      TaskStep(s, a);
    } else if IsTaskStep(a) {
      StepMoves(s, a);
      var t := Apply(s, a);
      forall f | f in t.flights ensures t.flights[f].honest {
        assert SameFlight(s.flights[f], t.flights[f]);
      }
    } else {
      Outside(s, a);
    }
  }

  lemma {:induction false} FaithfulRunsAreHonest(s: State, run: seq<Action>)
    requires AllHonest(s) && Valid(s, run) && Faithful(s, run)
    ensures AllHonest(Final(s, run))
    decreases |run|
  {
    if run != [] {
      HonestStep(s, run[0]);
      FaithfulRunsAreHonest(Apply(s, run[0]), run[1..]);
    }
  }

  /** For callers that only ever refresh versions they observed, every `Ok` they get is strictly newer. */
  lemma RefreshMovesOn(s: State, run: seq<Action>, t: Id)
    requires Init(s) && Valid(s, run) && Faithful(s, run)
    requires t in Final(s, run).tasks && Final(s, run).tasks[t].pc.Returned? && Final(s, run).tasks[t].pc.verdict.Ok?
    ensures Before(Final(s, run).tasks[t].observed, Final(s, run).tasks[t].pc.verdict.value.version)
  {
    FaithfulRunsAreHonest(s, run);
    OkIsLater(Final(s, run), t);
  }

  /** No wake-up is lost: a sleeping follower can wake, or its leader is still under way and has not notified yet. */
  lemma NoLostWakeUp(s: State, t: Id)
    requires Reachable(s) && t in s.tasks && s.tasks[t].pc.Asleep?
    ensures s.tasks[t].pc.flight in s.flights
    ensures var f := s.flights[s.tasks[t].pc.flight];
      Enabled(s, Wake(t)) || (LedBy(s, s.tasks[t].pc.flight, f.leader) && !f.notified)
  {
    ReachableInv(s);
  }

  lemma OneMore(s: State, a: Action, rest: seq<Action>)
    requires Enabled(s, a) && Valid(Apply(s, a), rest)
    ensures Valid(s, [a] + rest) && Final(s, [a] + rest) == Final(Apply(s, a), rest)
  {
    assert ([a] + rest)[1..] == rest;
  }

  lemma WakeEnrolCheck(s: State, t: Id)
    requires t in s.tasks && s.tasks[t].pc.Asleep? && s.tasks[t].pc.flight in s.flights
    requires s.flights[s.tasks[t].pc.flight].result.Some? && t !in s.flights[s.tasks[t].pc.flight].enrolled
    ensures var f, run := s.tasks[t].pc.flight, [Wake(t), Enrol(t), Check(t)];
      && Valid(s, run) && t in Final(s, run).tasks
      && Final(s, run).tasks[t].pc ==
         if s.flights[f].observed == s.tasks[t].observed then Returned(f, s.flights[f].result.value) else LookingUp
  {
    var s1 := Apply(s, Wake(t));
    var s2 := Apply(s1, Enrol(t));
    var s3 := Apply(s2, Check(t));
    assert Valid(s3, []);
    OneMore(s2, Check(t), []);
    OneMore(s1, Enrol(t), [Check(t)]);
    OneMore(s, Wake(t), [Enrol(t), Check(t)]);
    assert [Wake(t), Enrol(t), Check(t)] == [Wake(t)] + [Enrol(t), Check(t)];
    assert [Enrol(t), Check(t)] == [Enrol(t)] + [Check(t)] && [Check(t)] == [Check(t)] + [];
  }

  /** Once its leader is gone, a sleeping follower leaves in three steps of its own: with the result, or to retry. */
  lemma FollowerLeaves(s: State, t: Id)
    requires Reachable(s) && t in s.tasks && s.tasks[t].pc.Asleep?
    requires s.tasks[t].pc.flight in s.flights && s.flights[s.tasks[t].pc.flight].notified
    ensures var f := s.tasks[t].pc.flight;
      && s.flights[f].result.Some?
      && Valid(s, [Wake(t), Enrol(t), Check(t)])
      && t in Final(s, [Wake(t), Enrol(t), Check(t)]).tasks
      && Final(s, [Wake(t), Enrol(t), Check(t)]).tasks[t].pc ==
         if s.flights[f].observed == s.tasks[t].observed then Returned(f, s.flights[f].result.value) else LookingUp
  {
    ReachableInv(s);
    WakeEnrolCheck(s, t);
  }

  /** A leader that is gone, finished or cancelled, has left an outcome and has notified. */
  lemma LeaderLeavesOutcome(s: State, f: Id)
    requires Reachable(s) && f in s.flights
    ensures s.flights[f].leader in s.tasks
    ensures Over(s.tasks[s.flights[f].leader].pc) ==> s.flights[f].result.Some? && s.flights[f].notified
  {
    ReachableInv(s);
  }

  /** Everyone who returns from a flight, its leader included, returns the one result published for it. */
  lemma SharedResult(s: State, t1: Id, t2: Id)
    requires Reachable(s) && t1 in s.tasks && t2 in s.tasks
    requires s.tasks[t1].pc.Returned? && s.tasks[t2].pc.Returned? && s.tasks[t1].pc.flight == s.tasks[t2].pc.flight
    ensures s.tasks[t1].pc.verdict == s.tasks[t2].pc.verdict && s.tasks[t1].observed == s.tasks[t2].observed
    ensures s.tasks[t1].cell == s.tasks[t2].cell
  {
    ReachableInv(s);
  }

  // ---- Main results: what a leader returns ----

  /** The answer a call has, if it has one. */
  ghost function AnswerOf(v: V.State, k: Id): Option<Outcome> {
    if k in v.calls && V.Answered(v.calls[k].phase) then Some(v.calls[k].phase.outcome) else None
  }

  /** What the leader reports of the replacement `k`. A conflict it reports as whatever record it then finds. */
  ghost predicate Reports(v: V.State, k: Id, verdict: Verdict) {
    match AnswerOf(v, k)
    case Some(Replaced(st)) => verdict == Ok(st)
    case Some(Failed(e)) => verdict == Err(StoreError(e))
    case Some(VersionConflict) => true
    case _ => false
  }

  /** The task is past its refresher, which answered with `reply`; call `k` swaps exactly that credential in. */
  ghost predicate Carries(v: V.State, task: Task, k: Id, reply: Credential) {
    && k in v.calls && V.CellOf(v.calls[k]) == task.cell && v.calls[k].request == Replace(task.observed, reply)
    && match task.pc
       case Swapping(_, call, _) => call == k
       case Refetching(_, _) => AnswerOf(v, k) == Some(VersionConflict)
       case Publishing(_, verdict) => Reports(v, k, verdict)
       case Unregistering(_, verdict, cancelled) => cancelled || Reports(v, k, verdict)
       case Notifying(_, verdict, cancelled) => cancelled || Reports(v, k, verdict)
       case Returned(_, verdict) => Reports(v, k, verdict)
       case Dropping(_) => true
       case Cancelled => true
       case _ => false
  }

  ghost predicate Swaps(s: State, t: Id, k: Id, reply: Credential) {
    t in s.tasks && Carries(s.v, s.tasks[t], k, reply)
  }

  /** A refresher's answer is handed to the store as it is, for the version the task observed. */
  lemma ReplySwapped(s: State, t: Id, reply: Credential, k: Id)
    requires Reachable(s) && Enabled(s, Replied(t, Ok(reply), k))
    ensures Swaps(Apply(s, Replied(t, Ok(reply), k)), t, k, reply)
  {
    ReachableInv(s);
    InvStep(s, Replied(t, Ok(reply), k));
    TaskStep(s, Replied(t, Ok(reply), k));
    assert Waits(Apply(s, Replied(t, Ok(reply), k)).v, Apply(s, Replied(t, Ok(reply), k)).tasks[t]);
  }

  lemma CarriesStays(v: V.State, w: V.State, task: Task, k: Id, reply: Credential)
    requires Extends(v, w) && Carries(v, task, k, reply)
    ensures Carries(w, task, k, reply)
  {
  }

  /** The answer a replacement collects is a record that carries what it was asked to store, a conflict or an error. */
  lemma SwapAnswer(v: V.State, k: Id)
    requires V.Truthful(v) && k in v.calls && V.Answered(v.calls[k].phase) && v.calls[k].request.Replace?
    ensures var o := v.calls[k].phase.outcome; o.Replaced? || o.VersionConflict? || o.Failed?
  {
    var c := v.calls[k];
    assert V.AnswerFits(c.request, c.phase.outcome, V.HistoryAt(v, V.CellOf(c)));
  }

  lemma CarriesOn(s: State, a: Action, k: Id, reply: Credential)
    requires V.Truthful(s.v) && Enabled(s, a) && IsTaskStep(a) && Carries(s.v, s.tasks[a.t], k, reply)
    ensures Carries(s.v, s.tasks[a.t].(pc := NextPc(s, a)), k, reply)
  {
    hide V.Truthful, V.Enabled, MaySpawn;
    if a.Swapped? {
      SwapAnswer(s.v, k);
    }
  }

  lemma SwapsStep(s: State, a: Action, t: Id, k: Id, reply: Credential)
    requires Inv(s) && Enabled(s, a) && Swaps(s, t, k, reply)
    ensures Swaps(Apply(s, a), t, k, reply)
  {
    hide Apply, TakeStep, Enabled, NextPc, NextVault, NextFlights, NextRegistry, Spawn, MaySpawn, Carries;
    hide Borrowed, Manned, Crewed, Listed, Awake, Published, Waits, Sound, Extends, V.Rooted, V.Latched, V.Exclusive;
    hide V.Current, V.Chronicle, V.Requested, V.Truthful;
    SoundAll(s, a);
    CarriesStays(s.v, Apply(s, a).v, s.tasks[t], k, reply);
    if IsTaskStep(a) {
      TaskStep(s, a);
      if a.t == t {
        CarriesOn(s, a, k, reply);
        CarriesStays(s.v, Apply(s, a).v, s.tasks[t].(pc := NextPc(s, a)), k, reply);
      }
    } else {
      Outside(s, a);
    }
  }

  lemma {:induction false} SwapsRun(s: State, run: seq<Action>, t: Id, k: Id, reply: Credential)
    requires Inv(s) && Valid(s, run) && Swaps(s, t, k, reply)
    ensures Inv(Final(s, run)) && Swaps(Final(s, run), t, k, reply)
    decreases |run|
  {
    if run != [] {
      SwapsStep(s, run[0], t, k, reply);
      InvStep(s, run[0]);
      SwapsRun(Apply(s, run[0]), run[1..], t, k, reply);
    }
  }

  /** What a task that went to its refresher and was answered with `reply` may return. */
  ghost predicate Rewarded(v: V.State, task: Task, k: Id, reply: Credential)
    requires task.pc.Returned?
  {
    && k in v.calls && v.calls[k].request == Replace(task.observed, reply) && V.CellOf(v.calls[k]) == task.cell
    && match AnswerOf(v, k)
       case Some(Replaced(st)) =>
         && task.pc.verdict == Ok(st) && st.credential == reply
         && st.version == Version(task.observed.generation, task.observed.revision + 1)
         && Active(st) in V.HistoryAt(v, task.cell)
       case Some(Failed(e)) => task.pc.verdict == Err(StoreError(e))
       case Some(VersionConflict) => true
       case _ => false
  }

  lemma CarriedRewarded(v: V.State, task: Task, k: Id, reply: Credential)
    requires V.Truthful(v) && Carries(v, task, k, reply) && task.pc.Returned?
    ensures Rewarded(v, task, k, reply)
  {
    var c := v.calls[k];
    assert V.AnswerFits(c.request, c.phase.outcome, V.HistoryAt(v, V.CellOf(c)));
  }

  /**
   * What a leader returns after its refresher answered: the record that carries exactly that credential under the next
   * revision, which landed; or the error its replacement met; or, after a conflict, what it found instead.
   */
  lemma RefreshReturnsReply(s: State, t: Id, reply: Credential, k: Id, run: seq<Action>)
    requires Reachable(s) && Enabled(s, Replied(t, Ok(reply), k)) && Valid(Apply(s, Replied(t, Ok(reply), k)), run)
    requires var u := Final(Apply(s, Replied(t, Ok(reply), k)), run); t in u.tasks && u.tasks[t].pc.Returned?
    ensures var u := Final(Apply(s, Replied(t, Ok(reply), k)), run); Rewarded(u.v, u.tasks[t], k, reply)
  {
    hide Apply, Enabled, Rewarded, Carries, Waits, V.Rooted, V.Latched, V.Exclusive, V.Current, V.Chronicle;
    hide Borrowed, Manned, Crewed, Listed, Awake, Published, Dispatched, Later, Reachable, V.Truthful;
    var w := Apply(s, Replied(t, Ok(reply), k));
    ReachableInv(s);
    InvStep(s, Replied(t, Ok(reply), k));
    ReplySwapped(s, t, reply, k);
    SwapsRun(w, run, t, k, reply);
    CarriedRewarded(Final(w, run).v, Final(w, run).tasks[t], k, reply);
  }

  /** A leader goes to its refresher, with the record it loaded, exactly if that has the version it observed. */
  lemma LeaderRefreshesIff(s: State, a: Action)
    requires Enabled(s, a) && a.Fetched?
    ensures var o, pc := s.v.calls[s.tasks[a.t].pc.call].phase.outcome, Apply(s, a).tasks[a.t].pc;
      && (pc.Refreshing? <==> o.Loaded? && o.stored.version == s.tasks[a.t].observed)
      && (pc.Refreshing? ==> pc.current == o.stored)
      && (o.Loaded? && o.stored.version != s.tasks[a.t].observed ==> pc.Publishing? && pc.verdict == Ok(o.stored))
      && (o.Failed? ==> pc.Publishing? && pc.verdict == Err(StoreError(o.error)))
  {
    TaskStep(s, a);
  }

  /** A refresher that fails costs no store call, and its error is what the flight publishes. */
  lemma ProviderErrorPublished(s: State, t: Id, kind: FailureKind, k: Id)
    requires Enabled(s, Replied(t, Err(kind), k))
    ensures var u := Apply(s, Replied(t, Err(kind), k));
      && u.v == s.v && u.tasks[t].pc == Publishing(s.tasks[t].pc.flight, Err(ProviderError(kind)))
  {
    TaskStep(s, Replied(t, Err(kind), k));
  }

  /** After a conflict the leader publishes the record its second `get` finds, or that call's error. */
  lemma RefetchPublished(s: State, a: Action)
    requires Enabled(s, a) && a.Refetched?
    ensures var o, pc := s.v.calls[s.tasks[a.t].pc.call].phase.outcome, Apply(s, a).tasks[a.t].pc;
      && (o.Loaded? ==> pc == Publishing(s.tasks[a.t].pc.flight, Ok(o.stored)))
      && (o.Failed? ==> pc == Publishing(s.tasks[a.t].pc.flight, Err(StoreError(o.error))))
  {
    TaskStep(s, a);
  }

  /** A leader cancelled before it published leaves its followers a synchronization error. */
  lemma CancelledLeavesError(s: State, t: Id)
    requires Reachable(s) && Enabled(s, SetResult(t)) && s.tasks[t].pc.Dropping?
    ensures var f, u := s.tasks[t].pc.flight, Apply(s, SetResult(t));
      && s.flights[f].result.None?
      && u.flights[f].result == Some(Err(StoreError(Backend(Synchronization))))
      && u.tasks[t].pc == Unregistering(f, Err(StoreError(Backend(Synchronization))), true)
  {
    ReachableInv(s);
    TaskStep(s, SetResult(t));
    assert Owns(t, s.tasks[t], s.flights[s.tasks[t].pc.flight]);
    assert LedBy(s, s.tasks[t].pc.flight, t);
  }

  /** A flight that has notified is gone: no lookup finds it. */
  lemma NotifiedIsGone(s: State, a: Action, f: Id)
    requires Reachable(s) && Enabled(s, a) && a.LookUp? && f in s.flights && s.flights[f].notified
    ensures NextPc(s, a) != Enrolling(f) && NextPc(s, a) != Elected(f)
  {
    ReachableInv(s);
    ResolveKeeps(FlightsOf(s, s.tasks[a.t].coord), s.tasks[a.t].cell.key, LiveFlights(s), a.spare);
  }

  // ---- Main results: refreshes get on ----

  /** A store call by this task may begin under any unused number. */
  lemma MayBegin(s: State, t: Id)
    requires Inv(s) && t in s.tasks && !Over(s.tasks[t].pc)
    ensures forall k, request | k !in s.v.calls && ValidRequest(request) ::
              V.Enabled(s.v, V.Begin(k, s.tasks[t].handle, s.tasks[t].cell.key, request))
  {
  }

  /**
   * What the next step of a task is. Nothing keeps it from being taken but a store call that is still running or, for a
   * sleeping follower, a leader that has not notified; a refresher may answer anything.
   */
  lemma TaskMoves(s: State, t: Id)
    requires Inv(s) && t in s.tasks
    ensures var pc := s.tasks[t].pc;
      match pc
      case LookingUp => forall spare | spare !in s.flights :: Enabled(s, LookUp(t, spare))
      case Enrolling(_) => Enabled(s, Enrol(t))
      case Checking(_) => Enabled(s, Check(t))
      case Asleep(f) => f in s.flights && (Enabled(s, Wake(t)) <==> t !in s.flights[f].enrolled)
      case Elected(_) => forall k | k !in s.v.calls :: Enabled(s, SpawnGet(t, k))
      case Fetching(_, call) => Enabled(s, Fetched(t)) <==> Finished(s, call)
      case Refreshing(_, _) =>
        && (forall kind, k :: Enabled(s, Replied(t, Err(kind), k)))
        && (forall c: Credential, k | ValidFields(c.fields) && k !in s.v.calls :: Enabled(s, Replied(t, Ok(c), k)))
      case Swapping(_, call, _) =>
        Finished(s, call) ==> forall k | k !in s.v.calls :: Enabled(s, Swapped(t, k))
      case Refetching(_, call) => Enabled(s, Refetched(t)) <==> Finished(s, call)
      case Publishing(_, _) => Enabled(s, SetResult(t))
      case Dropping(_) => Enabled(s, SetResult(t))
      case Unregistering(_, _, _) => Enabled(s, Unregister(t))
      case Notifying(_, _, _) => Enabled(s, Notify(t))
      case Returned(_, _) => true
      case Cancelled => true
  {
    hide Inv, V.Enabled, Borrowed, ValidFields;
    TaskOnFlight(s, t);
    if !Over(s.tasks[t].pc) {
      MayBegin(s, t);
    }
  }

  /** A task past its lookup is on a flight there is. */
  lemma TaskOnFlight(s: State, t: Id)
    requires Inv(s) && t in s.tasks
    ensures var pc := s.tasks[t].pc; Follows(pc) || Leads(pc) ==> pc.flight in s.flights
  {
  }

  /** A task can be cancelled at every point where it waits: its turn, the store's answer, the refresher, its leader. */
  lemma CancellableWhileWaiting(s: State, t: Id)
    requires Inv(s) && t in s.tasks
    ensures var pc := s.tasks[t].pc;
      Enabled(s, Cancel(t)) <==>
        (pc.LookingUp? || pc.Asleep? || pc.Fetching? || pc.Refreshing? || pc.Swapping? || pc.Refetching?)
  {
    TaskOnFlight(s, t);
  }

  // ---- Store-level results carried over to runs with refreshes in them ----

  ghost function VaultRun(s: State, run: seq<Action>): seq<V.Action>
    requires Valid(s, run)
    decreases |run|
  {
    if run == [] then [] else VaultStep(s, run[0]) + VaultRun(Apply(s, run[0]), run[1..])
  }

  lemma {:induction false} Projects(s: State, run: seq<Action>)
    requires Valid(s, run)
    ensures V.Valid(s.v, VaultRun(s, run)) && V.Final(s.v, VaultRun(s, run)) == Final(s, run).v
    decreases |run|
  {
    if run != [] {
      var head, rest := VaultStep(s, run[0]), VaultRun(Apply(s, run[0]), run[1..]);
      VaultSteps(s, run[0]);
      Projects(Apply(s, run[0]), run[1..]);
      if head == [] {
        assert head + rest == rest;
      } else {
        assert (head + rest)[0] == head[0] && (head + rest)[1..] == rest && head[1..] == [];
      }
    }
  }

  /** With refreshes running, leading, cancelled or detached, the vault is still an atomic versioned register. */
  lemma RefreshesLinearize(s: State, run: seq<Action>)
    requires Reachable(s) && Valid(s, run)
    ensures V.Valid(s.v, VaultRun(s, run))
    ensures V.AtomicRun(V.View(s.v), V.Events(s.v, VaultRun(s, run)), V.View(Final(s, run).v))
  {
    ReachableInv(s);
    Projects(s, run);
    V.Linearizable(s.v, VaultRun(s, run));
  }

  /** After a delete, no refresh and no replacement makes the key active again, even one detached by cancellation. */
  lemma RefreshNeverRevives(s: State, run: seq<Action>, c: V.Cell)
    requires Reachable(s) && Valid(s, run) && V.SlotAt(s.v, c).Holds? && V.SlotAt(s.v, c).rec.Tombstone?
    requires V.Valid(s.v, VaultRun(s, run)) ==> V.NoSetLands(s.v, VaultRun(s, run), c)
    ensures V.SlotAt(Final(s, run).v, c) == V.SlotAt(s.v, c)
  {
    ReachableInv(s);
    Projects(s, run);
    V.DeletedStaysDeleted(s.v, VaultRun(s, run), c);
  }
}
