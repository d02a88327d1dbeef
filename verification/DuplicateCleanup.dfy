/**
 * Retiring the other accounts signed in as the same person: one sequential cleanup, then any number of them at once.
 */
module DuplicateCleanup {
  import opened Basics
  import opened Characters

  type Id = nat
  type ProviderId = nat

  datatype AuthState = Authenticated(accountKey: Option<string>) | Invalid(accountKey: Option<string>)
                     | Pending | NotAuthenticated

  // ---- Identities ----

  /** The identity a state names: trimmed, never empty, compared without ASCII case. */
  function IdentityOf(state: AuthState): Option<string> {
    match state
    case Authenticated(Some(key)) => var k := Trim(key); if k == "" then None else Some(Lower(k))
    case Invalid(Some(key)) => var k := Trim(key); if k == "" then None else Some(Lower(k))
    case _ => None
  }

  predicate SameLetter(c: char, d: char) {
    c == d || ('A' <= c <= 'Z' && d as int == c as int + 32) || ('A' <= d <= 'Z' && c as int == d as int + 32)
  }

  /** Only a sign-in, working or expired, has an identity, and only under a key with something in it. */
  lemma IdentityIff(state: AuthState)
    ensures IdentityOf(state).Some? <==>
              ((state.Authenticated? || state.Invalid?) && state.accountKey.Some? && Trim(state.accountKey.value) != "")
    ensures state.Authenticated? ==> IdentityOf(Invalid(state.accountKey)) == IdentityOf(state)
  {
    hide Trim, Lower;
  }

  /** Two keys name one identity exactly if, without the space around them, they differ in ASCII case at most. */
  lemma SameIdentityIff(x: string, y: string)
    ensures IdentityOf(Authenticated(Some(x))).Some?
            && IdentityOf(Authenticated(Some(x))) == IdentityOf(Authenticated(Some(y))) <==>
              (Trim(x) != "" && |Trim(x)| == |Trim(y)| && forall i | 0 <= i < |Trim(x)| ::
                SameLetter(Trim(x)[i], Trim(y)[i]))
  {
    FoldIff(Trim(x), Trim(y));
    hide Trim, Lower;
  }

  lemma FoldIff(x: string, y: string)
    ensures Lower(x) == Lower(y) <==> (|x| == |y| && forall i | 0 <= i < |x| :: SameLetter(x[i], y[i]))
    ensures x == "" <==> Lower(x) == ""
  {
    if Lower(x) == Lower(y) {
      assert |x| == |Lower(x)| == |Lower(y)| == |y|;
      forall i | 0 <= i < |x| ensures SameLetter(x[i], y[i]) {
        assert Lower(x)[i] == Lower(y)[i];
      }
    }
  }

  function StateOf(auth: map<Id, AuthState>, id: Id): AuthState {
    if id in auth then auth[id] else NotAuthenticated
  }

  // ---- One cleanup, undisturbed ----

  datatype Config = Config(id: Id, provider: ProviderId)

  /** How the calls about one account turn out. A failing call may still have taken effect. */
  datatype Luck = Luck(instance: bool, status: bool, logout: bool, logoutTook: bool, remove: bool, removeTook: bool)

  class Engine {
    var rows: map<Id, ProviderId>
    var auth: map<Id, AuthState>

    constructor (rows: map<Id, ProviderId>, auth: map<Id, AuthState>)
      ensures this.rows == rows && this.auth == auth
    {
      this.rows := rows;
      this.auth := auth;
    }
  }

  /** `id` is another account of this provider that names the same identity. */
  predicate Duplicate(c: Config, provider: ProviderId, account: Id, key: string, auth: map<Id, AuthState>) {
    c.provider == provider && c.id != account && IdentityOf(StateOf(auth, c.id)) == Some(key)
  }

  predicate SignsOut(c: Config, provider: ProviderId, account: Id, key: string, auth: map<Id, AuthState>, luck: Luck) {
    Duplicate(c, provider, account, key, auth) && luck.instance && luck.status && (luck.logout || luck.logoutTook)
  }

  predicate Removes(c: Config, provider: ProviderId, account: Id, key: string, auth: map<Id, AuthState>, luck: Luck) {
    Duplicate(c, provider, account, key, auth) && luck.instance && luck.status && luck.logout
      && (luck.remove || luck.removeTook)
  }

  ghost predicate Distinct(configs: seq<Config>) {
    forall i, j | 0 <= i < j < |configs| :: configs[i].id != configs[j].id
  }

  /** The accounts reported as removed, in the order listed. */
  ghost function RetiredIds(configs: seq<Config>, provider: ProviderId, account: Id, key: string,
                            auth: map<Id, AuthState>, luck: Id -> Luck): seq<Id>
  {
    if configs == [] then [] else
    var n := |configs| - 1;
    RetiredIds(configs[..n], provider, account, key, auth, luck)
      + if Removes(configs[n], provider, account, key, auth, luck(configs[n].id)) && luck(configs[n].id).remove
        then [configs[n].id] else []
  }

  ghost predicate PlacedAt(ids: seq<Id>, configs: seq<Config>, at: seq<nat>) {
    && |at| == |ids|
    && (forall i | 0 <= i < |at| :: at[i] < |configs| && configs[at[i]].id == ids[i])
    && (forall i, j | 0 <= i < j < |at| :: at[i] < at[j])
  }

  /** Each is one of the accounts, and they come in the order of the accounts, none twice. */
  ghost predicate InOrder(ids: seq<Id>, configs: seq<Config>) {
    exists at: seq<nat> :: PlacedAt(ids, configs, at)
  }

  lemma {:induction false} RetiredIff(configs: seq<Config>, provider: ProviderId, account: Id, key: string,
                                      auth: map<Id, AuthState>, luck: Id -> Luck, id: Id)
    ensures id in RetiredIds(configs, provider, account, key, auth, luck) <==>
              exists c :: c in configs && c.id == id && Removes(c, provider, account, key, auth, luck(id))
                          && luck(id).remove
  {
    hide Removes;
    if configs != [] {
      var n := |configs| - 1;
      RetiredIff(configs[..n], provider, account, key, auth, luck, id);
      assert configs == configs[..n] + [configs[n]];
    }
  }

  lemma InOrderGrows(ids: seq<Id>, configs: seq<Config>, c: Config)
    requires InOrder(ids, configs)
    ensures InOrder(ids, configs + [c]) && InOrder(ids + [c.id], configs + [c])
  {
    var at: seq<nat> :| PlacedAt(ids, configs, at);
    assert PlacedAt(ids, configs + [c], at);
    assert PlacedAt(ids + [c.id], configs + [c], at + [|configs|]);
  }

  lemma {:induction false} RetiredInOrder(configs: seq<Config>, provider: ProviderId, account: Id, key: string,
                                          auth: map<Id, AuthState>, luck: Id -> Luck)
    ensures InOrder(RetiredIds(configs, provider, account, key, auth, luck), configs)
  {
    hide Removes, InOrder;
    EmptyInOrder(configs);
    if configs != [] {
      var n := |configs| - 1;
      assert configs == configs[..n] + [configs[n]];
      RetiredInOrder(configs[..n], provider, account, key, auth, luck);
      var ids := RetiredIds(configs[..n], provider, account, key, auth, luck);
      InOrderGrows(ids, configs[..n], configs[n]);
      assert ids + [] == ids;
    }
  }

  lemma RetiredExactly(configs: seq<Config>, provider: ProviderId, account: Id, key: string,
                       auth: map<Id, AuthState>, luck: Id -> Luck)
    requires Distinct(configs)
    ensures var ids := RetiredIds(configs, provider, account, key, auth, luck);
      InOrder(ids, configs) && forall c | c in configs ::
        c.id in ids <==> Removes(c, provider, account, key, auth, luck(c.id)) && luck(c.id).remove
  {
    hide Removes, InOrder;
    RetiredInOrder(configs, provider, account, key, auth, luck);
    forall c | c in configs
      ensures c.id in RetiredIds(configs, provider, account, key, auth, luck) <==>
                Removes(c, provider, account, key, auth, luck(c.id)) && luck(c.id).remove
    {
      RetiredIff(configs, provider, account, key, auth, luck, c.id);
    }
  }

  /** What a removal takes, in full: which account, and which calls have to work. */
  lemma RemovesIff(c: Config, provider: ProviderId, account: Id, key: string, auth: map<Id, AuthState>, luck: Luck)
    ensures Removes(c, provider, account, key, auth, luck) <==>
              (c.provider == provider && c.id != account && IdentityOf(StateOf(auth, c.id)) == Some(key)
               && luck.instance && luck.status && luck.logout && (luck.remove || luck.removeTook))
    ensures SignsOut(c, provider, account, key, auth, luck) <==>
              (c.provider == provider && c.id != account && IdentityOf(StateOf(auth, c.id)) == Some(key)
               && luck.instance && luck.status && (luck.logout || luck.logoutTook))
  {
    hide IdentityOf;
  }

  /** One turn of the loop. */
  method RetireOne(engine: Engine, c: Config, provider: ProviderId, account: Id, key: string, l: Luck)
    returns (gone: bool)
    modifies engine
    ensures engine.auth == if SignsOut(c, provider, account, key, old(engine.auth), l)
                           then old(engine.auth)[c.id := NotAuthenticated] else old(engine.auth)
    ensures engine.rows == if Removes(c, provider, account, key, old(engine.auth), l)
                           then old(engine.rows) - {c.id} else old(engine.rows)
    ensures gone <==> Removes(c, provider, account, key, old(engine.auth), l) && l.remove
  {
    hide IdentityOf;
    if c.provider != provider || c.id == account || !l.instance || !l.status { return false; }
    if IdentityOf(StateOf(engine.auth, c.id)) != Some(key) { return false; }
    if l.logout || l.logoutTook {
      engine.auth := engine.auth[c.id := NotAuthenticated];
    }
    if !l.logout { return false; }
    if l.remove || l.removeTook {
      engine.rows := engine.rows - {c.id};
    }
    return l.remove;
  }

  lemma SameRead(c: Config, provider: ProviderId, account: Id, key: string, x: map<Id, AuthState>,
                 y: map<Id, AuthState>, l: Luck)
    requires StateOf(x, c.id) == StateOf(y, c.id)
    ensures SignsOut(c, provider, account, key, x, l) == SignsOut(c, provider, account, key, y, l)
    ensures Removes(c, provider, account, key, x, l) == Removes(c, provider, account, key, y, l)
  {
  }

  lemma OthersSpared(c: Config, provider: ProviderId, account: Id, key: string, auth: map<Id, AuthState>, l: Luck)
    requires c.provider != provider || c.id == account
    ensures !SignsOut(c, provider, account, key, auth, l) && !Removes(c, provider, account, key, auth, l)
  {
  }

  /** `retire_duplicates`: exactly the duplicates are signed out, and only rows that were signed out go. */
  method RetireDuplicates(engine: Engine, configs: seq<Config>, provider: ProviderId, account: Id, state: AuthState,
                          luck: Id -> Luck)
    returns (retired: seq<Id>)
    requires Distinct(configs)
    modifies engine
    ensures !state.Authenticated? || IdentityOf(state).None? ==>
              retired == [] && engine.rows == old(engine.rows) && engine.auth == old(engine.auth)
    ensures state.Authenticated? && IdentityOf(state).Some? ==>
              var key := IdentityOf(state).value;
              && (forall c | c in configs ::
                    StateOf(engine.auth, c.id) ==
                    if SignsOut(c, provider, account, key, old(engine.auth), luck(c.id)) then NotAuthenticated
                    else StateOf(old(engine.auth), c.id))
              && (forall c | c in configs ::
                    c.id in engine.rows <==>
                    c.id in old(engine.rows) && !Removes(c, provider, account, key, old(engine.auth), luck(c.id)))
              && (forall c | c in configs ::
                    c.id in retired <==>
                    Removes(c, provider, account, key, old(engine.auth), luck(c.id)) && luck(c.id).remove)
    ensures InOrder(retired, configs)
    ensures forall id | id == account || (forall c | c in configs && c.id == id :: c.provider != provider) ::
              StateOf(engine.auth, id) == StateOf(old(engine.auth), id)
                && (id in engine.rows <==> id in old(engine.rows))
  {
    hide IdentityOf, InOrder, SignsOut, Removes, RetiredIds;
    retired := [];
    EmptyInOrder(configs);
    if !state.Authenticated? { return; }
    var identity := IdentityOf(state);
    if identity.None? { return; }
    var key := identity.value;
    ghost var auth0, rows0 := engine.auth, engine.rows;
    NoneRetired(provider, account, key, auth0, luck);
    assert configs[..0] == [];
    for k := 0 to |configs|
      invariant forall i | 0 <= i < k ::
        StateOf(engine.auth, configs[i].id) ==
        if SignsOut(configs[i], provider, account, key, auth0, luck(configs[i].id)) then NotAuthenticated
        else StateOf(auth0, configs[i].id)
      invariant forall i | 0 <= i < k ::
        configs[i].id in engine.rows <==>
        configs[i].id in rows0 && !Removes(configs[i], provider, account, key, auth0, luck(configs[i].id))
      invariant forall id | (forall i | 0 <= i < k :: configs[i].id != id) ::
        StateOf(engine.auth, id) == StateOf(auth0, id) && (id in engine.rows <==> id in rows0)
      invariant retired == RetiredIds(configs[..k], provider, account, key, auth0, luck)
    {
      var c := configs[k];
      SameRead(c, provider, account, key, engine.auth, auth0, luck(c.id));
      var gone := RetireOne(engine, c, provider, account, key, luck(c.id));
      OneMoreRetired(configs, k, provider, account, key, auth0, luck);
      if gone { retired := retired + [c.id]; }
    }
    assert configs[..|configs|] == configs;
    RetiredExactly(configs, provider, account, key, auth0, luck);
    forall c | c in configs && (c.provider != provider || c.id == account)
      ensures !SignsOut(c, provider, account, key, auth0, luck(c.id))
              && !Removes(c, provider, account, key, auth0, luck(c.id))
    {
      OthersSpared(c, provider, account, key, auth0, luck(c.id));
    }
  }

  lemma NoneRetired(provider: ProviderId, account: Id, key: string, auth: map<Id, AuthState>, luck: Id -> Luck)
    ensures RetiredIds([], provider, account, key, auth, luck) == []
  {
  }

  lemma OneMoreRetired(configs: seq<Config>, k: nat, provider: ProviderId, account: Id, key: string,
                       auth: map<Id, AuthState>, luck: Id -> Luck)
    requires k < |configs|
    ensures RetiredIds(configs[..k + 1], provider, account, key, auth, luck) ==
            RetiredIds(configs[..k], provider, account, key, auth, luck)
              + if Removes(configs[k], provider, account, key, auth, luck(configs[k].id)) && luck(configs[k].id).remove
                then [configs[k].id] else []
  {
    hide Removes;
    assert configs[..k + 1][..k] == configs[..k];
  }

  lemma EmptyInOrder(configs: seq<Config>)
    ensures InOrder([], configs)
  {
    assert PlacedAt([], configs, []);
  }

  // ---- Any number of cleanups ----

  datatype Pc = Queued | Waiting(gate: Id) | Entered(gate: Id) | Listing(gate: Id, key: string)
              | Cleaning(gate: Id, key: string, todo: seq<Id>)
              | Confirmed(gate: Id, key: string, target: Id, todo: seq<Id>)
              | SignedOut(gate: Id, key: string, target: Id, todo: seq<Id>)
              | Leaving(gate: Id) | Finished

  /**
   * One cleanup. `keeperSince` is what somebody else last changed its own account's state to since the cleanup read
   * it, `targetSince` the same for its target since the cleanup read that one's state or signed it out.
   */
  datatype Task = Task(provider: ProviderId, account: Id, pc: Pc,
                       keeperSince: Option<AuthState>, targetSince: Option<AuthState>)

  /** `owner` records the provider of every account ever created; ids are not reused. `rows` are those still listed. */
  datatype State = State(
    gated: bool,
    gates: map<ProviderId, Id>,
    owner: map<Id, ProviderId>,
    rows: set<Id>,
    auth: map<Id, AuthState>,
    tasks: map<Id, Task>)

  datatype Action = Request(t: Id, provider: ProviderId, account: Id)
                  | FindGate(t: Id, spare: Id)
                  | Enter(t: Id)
                  | Own(t: Id, fails: bool)
                  | Snapshot(t: Id, order: seq<Id>)
                  | Next(t: Id, fails: bool)
                  | SignOut(t: Id, ok: bool, took: bool)
                  | Remove(t: Id, ok: bool, took: bool)
                  | Leave(t: Id)
                  | AddAccount(id: Id, provider: ProviderId)
                  | Change(id: Id, state: AuthState) // any account, to anything: a sign-in, a sign-out, an expiry
                  | Drop(id: Id) // somebody else removes an account

  predicate Inside(pc: Pc) {
    !pc.Queued? && !pc.Waiting? && !pc.Finished?
  }

  predicate HasKey(pc: Pc) {
    pc.Listing? || pc.Cleaning? || pc.Confirmed? || pc.SignedOut?
  }

  predicate HasTarget(pc: Pc) {
    pc.Confirmed? || pc.SignedOut?
  }

  /** Nobody is inside this gate. */
  ghost predicate Unlocked(s: State, gate: Id) {
    forall u | u in s.tasks && Inside(s.tasks[u].pc) :: s.tasks[u].pc.gate != gate
  }

  ghost predicate Enabled(s: State, a: Action) {
    match a
    case Request(t, _, _) => t !in s.tasks
    case AddAccount(id, _) => id !in s.owner
    case Change(_, _) => true
    case Drop(_) => true
    case _ =>
      a.t in s.tasks &&
      var pc := s.tasks[a.t].pc;
      match a
      case FindGate(_, spare) => pc.Queued? && spare !in s.gates.Values
      case Enter(t) => pc.Waiting? && (s.gated ==> Unlocked(s, pc.gate))
      case Own(_, _) => pc.Entered?
      case Snapshot(_, order) => pc.Listing? && (forall id :: id in order <==> id in s.rows)
      case Next(_, _) => pc.Cleaning? && pc.todo != []
      case SignOut(_, ok, took) => pc.Confirmed? && (ok ==> took)
      case Remove(_, ok, took) => pc.SignedOut? && (ok ==> took)
      case Leave(_) => pc.Leaving? || (pc.Cleaning? && pc.todo == [])
      case _ => false
  }

  predicate IsTask(a: Action) {
    !a.Request? && !a.AddAccount? && !a.Change? && !a.Drop?
  }

  ghost function NextPc(s: State, a: Action): Pc
    requires Enabled(s, a) && IsTask(a)
  {
    var task := s.tasks[a.t];
    var pc := task.pc;
    match a
    case FindGate(_, spare) => Waiting(if task.provider in s.gates then s.gates[task.provider] else spare)
    case Enter(_) => Entered(pc.gate)
    case Own(_, fails) =>
      var state := StateOf(s.auth, task.account);
      if fails || task.account !in s.rows || task.account !in s.owner || s.owner[task.account] != task.provider
         || !state.Authenticated? || IdentityOf(state).None?
      then Leaving(pc.gate) else Listing(pc.gate, IdentityOf(state).value)
    case Snapshot(_, order) => Cleaning(pc.gate, pc.key, order)
    case Next(_, fails) =>
      var id, rest := pc.todo[0], pc.todo[1..];
      if !fails && id in s.owner && s.owner[id] == task.provider && id != task.account
         && IdentityOf(StateOf(s.auth, id)) == Some(pc.key)
      then Confirmed(pc.gate, pc.key, id, rest) else Cleaning(pc.gate, pc.key, rest)
    case SignOut(_, ok, _) =>
      if ok then SignedOut(pc.gate, pc.key, pc.target, pc.todo) else Cleaning(pc.gate, pc.key, pc.todo)
    case Remove(_, _, _) => Cleaning(pc.gate, pc.key, pc.todo)
    case Leave(_) => Finished
  }

  /** A cleanup after somebody else changed account `id`. */
  function Noted(task: Task, id: Id, state: AuthState): Task {
    task.(keeperSince := if HasKey(task.pc) && task.account == id then Some(state) else task.keeperSince,
          targetSince := if HasTarget(task.pc) && task.pc.target == id then Some(state) else task.targetSince)
  }

  ghost function Advanced(s: State, a: Action): Task
    requires Enabled(s, a) && IsTask(a)
  {
    var task := s.tasks[a.t];
    task.(pc := NextPc(s, a),
          keeperSince := if a.Own? then None else task.keeperSince,
          targetSince := if a.Next? || (a.SignOut? && a.took) then None else task.targetSince)
  }

  ghost function Apply(s: State, a: Action): State
    requires Enabled(s, a)
  {
    if IsTask(a) then
      var task := s.tasks[a.t];
      s.(gates := if a.FindGate? && task.provider !in s.gates then s.gates[task.provider := a.spare] else s.gates,
         auth := if a.SignOut? && a.took then s.auth[task.pc.target := NotAuthenticated] else s.auth,
         rows := if a.Remove? && a.took then s.rows - {task.pc.target} else s.rows,
         tasks := s.tasks[a.t := Advanced(s, a)])
    else
      match a
      case Request(t, p, account) => s.(tasks := s.tasks[t := Task(p, account, Queued, None, None)])
      case AddAccount(id, p) =>
        s.(owner := s.owner[id := p], rows := s.rows + {id}, auth := s.auth[id := NotAuthenticated])
      case Change(id, state) =>
        s.(auth := s.auth[id := state], tasks := map u | u in s.tasks :: Noted(s.tasks[u], id, state))
      case Drop(id) => s.(rows := s.rows - {id})
      case _ => s
  }

  ghost predicate Init(s: State) {
    s.gates == map[] && s.tasks == map[] && forall id :: id in s.rows ==> id in s.owner
  }

  // ---- Invariants ----

  /** Every cleanup at or past its gate uses the one its provider is registered with. */
  ghost predicate GatesKnown(s: State) {
    forall t | t in s.tasks && (Inside(s.tasks[t].pc) || s.tasks[t].pc.Waiting?) ::
      s.tasks[t].provider in s.gates && s.gates[s.tasks[t].provider] == s.tasks[t].pc.gate
  }

  ghost predicate OneInside(s: State) {
    forall t, u | t in s.tasks && u in s.tasks && Inside(s.tasks[t].pc) && Inside(s.tasks[u].pc)
                  && s.tasks[t].pc.gate == s.tasks[u].pc.gate :: t == u
  }

  ghost predicate Gated(s: State) {
    GatesKnown(s) && (s.gated ==> OneInside(s))
  }

  /** A signed-in state of this identity. */
  predicate Names(state: AuthState, key: string) {
    state.Authenticated? && IdentityOf(state) == Some(key)
  }

  ghost predicate SignedInAs(s: State, id: Id, p: ProviderId, key: string) {
    id in s.rows && id in s.owner && s.owner[id] == p && Names(StateOf(s.auth, id), key)
  }

  /**
   * Somebody else removed the keeper, or changed it so that it no longer stands for the person the cleanup works for.
   */
  predicate KeeperLeft(s: State, task: Task)
    requires HasKey(task.pc)
  {
    task.account !in s.rows || (task.keeperSince.Some? && !Names(task.keeperSince.value, task.pc.key))
  }

  /** Somebody else signed the target in as this person. */
  predicate Retaken(task: Task, key: string) {
    task.targetSince.Some? && Names(task.targetSince.value, key)
  }

  /** Both accounts are as the cleanup read or left them, or as somebody else last changed them since. */
  ghost predicate Guarded(s: State, task: Task) {
    && (HasKey(task.pc) ==>
          && task.account in s.owner && s.owner[task.account] == task.provider
          && match task.keeperSince
             case None => Names(StateOf(s.auth, task.account), task.pc.key)
             case Some(state) => StateOf(s.auth, task.account) == state)
    && (HasTarget(task.pc) ==>
          && task.pc.target != task.account && task.pc.target in s.owner && s.owner[task.pc.target] == task.provider
          && match task.targetSince
             case None =>
               if task.pc.Confirmed? then IdentityOf(StateOf(s.auth, task.pc.target)) == Some(task.pc.key)
               else !StateOf(s.auth, task.pc.target).Authenticated?
             case Some(state) => StateOf(s.auth, task.pc.target) == state)
  }

  ghost predicate Inv(s: State) {
    && s.gated && Gated(s) && (forall t | t in s.tasks :: Guarded(s, s.tasks[t]))
    && forall id :: id in s.rows ==> id in s.owner
  }

  lemma KeepsGatesKnown(s: State, a: Action)
    requires GatesKnown(s) && Enabled(s, a)
    ensures GatesKnown(Apply(s, a))
  {
    hide IdentityOf;
  }

  lemma InsideStep(s: State, a: Action, t: Id)
    requires Enabled(s, a) && t in Apply(s, a).tasks && Inside(Apply(s, a).tasks[t].pc)
    ensures t in s.tasks
    ensures if Inside(s.tasks[t].pc) then Apply(s, a).tasks[t].pc.gate == s.tasks[t].pc.gate
            else a == Enter(t) && Apply(s, a).tasks[t].pc.gate == s.tasks[t].pc.gate
  {
    hide IdentityOf;
  }

  lemma KeepsOneInside(s: State, a: Action)
    requires s.gated && OneInside(s) && Enabled(s, a)
    ensures OneInside(Apply(s, a))
  {
    hide IdentityOf, Apply;
    var w := Apply(s, a);
    forall t, u | t in w.tasks && u in w.tasks && Inside(w.tasks[t].pc) && Inside(w.tasks[u].pc)
                  && w.tasks[t].pc.gate == w.tasks[u].pc.gate
      ensures t == u
    {
      InsideStep(s, a, t);
      InsideStep(s, a, u);
    }
  }

  /** At most one cleanup is inside a provider's gate, whatever else happens. */
  lemma KeepsGated(s: State, a: Action)
    requires Gated(s) && Enabled(s, a)
    ensures Gated(Apply(s, a))
  {
    KeepsGatesKnown(s, a);
    if s.gated {
      KeepsOneInside(s, a);
    }
  }

  /** Cleanups of one provider exclude each other, so no other one is looking at the target or the keeper. */
  lemma OthersElsewhere(s: State, a: Action, t: Id)
    requires Inv(s) && Enabled(s, a) && (a.SignOut? || a.Remove?) && t in s.tasks && t != a.t && HasKey(s.tasks[t].pc)
    ensures s.tasks[t].provider != s.tasks[a.t].provider
    ensures s.tasks[t].account != s.tasks[a.t].pc.target
    ensures HasTarget(s.tasks[t].pc) ==> s.tasks[t].pc.target != s.tasks[a.t].pc.target
  {
    assert Guarded(s, s.tasks[a.t]) && Guarded(s, s.tasks[t]);
  }

  lemma OwnGuarded(s: State, a: Action)
    requires Inv(s) && Enabled(s, a) && IsTask(a)
    ensures Guarded(Apply(s, a), Apply(s, a).tasks[a.t])
  {
    assert Guarded(s, s.tasks[a.t]);
    hide IdentityOf, Gated;
  }

  lemma KeepsGuarded(s: State, a: Action, t: Id)
    requires Inv(s) && Enabled(s, a) && t in Apply(s, a).tasks
    ensures Guarded(Apply(s, a), Apply(s, a).tasks[t])
  {
    hide IdentityOf;
    if t in s.tasks {
      assert Guarded(s, s.tasks[t]);
      if IsTask(a) && t == a.t {
        OwnGuarded(s, a);
      } else if (a.SignOut? || a.Remove?) && HasKey(s.tasks[t].pc) {
        OthersElsewhere(s, a, t);
      }
    }
  }

  lemma InvStep(s: State, a: Action)
    requires Inv(s) && Enabled(s, a)
    ensures Inv(Apply(s, a))
  {
    KeepsGated(s, a);
    forall t | t in Apply(s, a).tasks ensures Guarded(Apply(s, a), Apply(s, a).tasks[t]) {
      KeepsGuarded(s, a, t);
    }
  }

  // ---- Main results: exactly when a cleanup takes an identity away ----

  ghost predicate SignedIn(s: State, p: ProviderId, key: string) {
    exists id :: SignedInAs(s, id, p, key)
  }

  /** This step signs a person out for good. */
  ghost predicate Loses(s: State, a: Action, p: ProviderId, key: string)
    requires Enabled(s, a)
  {
    SignedIn(s, p, key) && !SignedIn(Apply(s, a), p, key)
  }

  /** Some account other than `id` is signed in as this person. */
  ghost predicate HeldBeside(s: State, id: Id, p: ProviderId, key: string) {
    exists other :: other != id && SignedInAs(s, other, p, key)
  }

  /**
   * Nothing but a logout or a removal that takes effect can, and only for a person whom the target alone stands for.
   */
  lemma LosesTarget(s: State, a: Action, p: ProviderId, key: string)
    requires Enabled(s, a) && IsTask(a)
    ensures Loses(s, a, p, key) <==>
            && (a.SignOut? || a.Remove?) && a.took
            && SignedInAs(s, s.tasks[a.t].pc.target, p, key) && !HeldBeside(s, s.tasks[a.t].pc.target, p, key)
  {
    hide IdentityOf;
    var t := Apply(s, a);
    if (a.SignOut? || a.Remove?) && a.took {
      var target := s.tasks[a.t].pc.target;
      forall id | id != target ensures SignedInAs(t, id, p, key) <==> SignedInAs(s, id, p, key) {
      }
      assert !SignedInAs(t, target, p, key);
    } else {
      forall id ensures SignedInAs(t, id, p, key) <==> SignedInAs(s, id, p, key) {
      }
    }
  }

  /**
   * What makes a logout take a person away. For the person the cleanup works for: the keeper left that person since the
   * cleanup read it, and the target is still signed in as them. For anybody else: somebody signed the target in as them
   * since the cleanup read its state. Either way no other account is signed in as them.
   */
  ghost predicate RacedLogout(s: State, task: Task, p: ProviderId, key: string)
    requires HasTarget(task.pc)
  {
    && p == task.provider && task.pc.target in s.rows && !HeldBeside(s, task.pc.target, p, key)
    && if key == task.pc.key
       then KeeperLeft(s, task)
         && (if task.targetSince.Some? then Retaken(task, key) else StateOf(s.auth, task.pc.target).Authenticated?)
       else Retaken(task, key)
  }

  /** What makes a removal do so: somebody signed the target in as them after its logout, and no other account is. */
  ghost predicate RacedRemoval(s: State, task: Task, p: ProviderId, key: string)
    requires HasTarget(task.pc)
  {
    p == task.provider && task.pc.target in s.rows && Retaken(task, key) && !HeldBeside(s, task.pc.target, p, key)
  }

  lemma SignOutLoses(s: State, a: Action, p: ProviderId, key: string)
    requires Inv(s) && Enabled(s, a) && a.SignOut? && a.took
    ensures Loses(s, a, p, key) <==> RacedLogout(s, s.tasks[a.t], p, key)
  {
    LosesTarget(s, a, p, key);
    hide IdentityOf;
    var task := s.tasks[a.t];
    assert Guarded(s, task);
    if p == task.provider && key == task.pc.key && !KeeperLeft(s, task) {
      assert SignedInAs(s, task.account, p, key);
    }
  }

  lemma RemoveLoses(s: State, a: Action, p: ProviderId, key: string)
    requires Inv(s) && Enabled(s, a) && a.Remove? && a.took
    ensures Loses(s, a, p, key) <==> RacedRemoval(s, s.tasks[a.t], p, key)
    ensures Loses(s, a, p, key) && key == s.tasks[a.t].pc.key ==> KeeperLeft(s, s.tasks[a.t])
  {
    LosesTarget(s, a, p, key);
    hide IdentityOf;
    var task := s.tasks[a.t];
    assert Guarded(s, task);
    if p == task.provider && key == task.pc.key && !KeeperLeft(s, task) {
      assert SignedInAs(s, task.account, p, key);
    }
  }

  /** A step that takes effect on a target somebody else has raced. */
  ghost predicate Raced(s: State, a: Action, p: ProviderId, key: string)
    requires Enabled(s, a)
  {
    || (a.SignOut? && a.took && RacedLogout(s, s.tasks[a.t], p, key))
    || (a.Remove? && a.took && RacedRemoval(s, s.tasks[a.t], p, key))
  }

  /** A step of a cleanup takes a person away exactly when it is raced. */
  lemma StepLosesIff(s: State, a: Action, p: ProviderId, key: string)
    requires Inv(s) && Enabled(s, a) && IsTask(a)
    ensures Loses(s, a, p, key) <==> Raced(s, a, p, key)
  {
    LosesTarget(s, a, p, key);
    hide IdentityOf, RacedLogout, RacedRemoval, Loses;
    if a.SignOut? && a.took {
      SignOutLoses(s, a, p, key);
    } else if a.Remove? && a.took {
      RemoveLoses(s, a, p, key);
    }
  }

  // ---- Main results: whole runs ----

  /** No keeper of this person has left it, and no target of another person's cleanup was signed in as this one. */
  ghost predicate Quiet(s: State, p: ProviderId, key: string) {
    forall t | t in s.tasks && HasKey(s.tasks[t].pc) && s.tasks[t].provider == p ::
      if s.tasks[t].pc.key == key then !KeeperLeft(s, s.tasks[t])
      else HasTarget(s.tasks[t].pc) ==> !Retaken(s.tasks[t], key)
  }

  /** What somebody else does leaves the keepers of this person alone. */
  ghost predicate SparesKeepers(s: State, a: Action, p: ProviderId, key: string) {
    a.Change? || a.Drop? ==>
      forall t | t in s.tasks && HasKey(s.tasks[t].pc) && s.tasks[t].provider == p && s.tasks[t].account == a.id ::
        s.tasks[t].pc.key == key ==> a.Change? && Names(a.state, key)
  }

  /** A change that signs nobody's target in as this person, unless its cleanup works for them. */
  ghost predicate SparesTargets(s: State, a: Action, p: ProviderId, key: string) {
    a.Change? ==>
      forall t | t in s.tasks && HasTarget(s.tasks[t].pc) && s.tasks[t].provider == p && s.tasks[t].pc.target == a.id ::
        s.tasks[t].pc.key != key ==> !Names(a.state, key)
  }

  lemma QuietStep(s: State, a: Action, p: ProviderId, key: string)
    requires Inv(s) && Quiet(s, p, key) && Enabled(s, a) && SparesKeepers(s, a, p, key) && SparesTargets(s, a, p, key)
    ensures Quiet(Apply(s, a), p, key)
  {
    hide IdentityOf;
    var w := Apply(s, a);
    forall t | t in w.tasks && HasKey(w.tasks[t].pc) && w.tasks[t].provider == p
      ensures if w.tasks[t].pc.key == key then !KeeperLeft(w, w.tasks[t])
              else HasTarget(w.tasks[t].pc) ==> !Retaken(w.tasks[t], key)
    {
      if a.Remove? && t == a.t {
        assert Guarded(s, s.tasks[t]);
      } else if a.Remove? {
        OthersElsewhere(s, a, t);
      }
    }
  }

  /** While it is quiet, no step of any cleanup takes this person away. */
  lemma IdentityStep(s: State, a: Action, p: ProviderId, key: string)
    requires Inv(s) && Quiet(s, p, key) && Enabled(s, a) && IsTask(a)
    ensures !Loses(s, a, p, key)
  {
    StepLosesIff(s, a, p, key);
    if Raced(s, a, p, key) && a.Remove? {
      RemoveLoses(s, a, p, key);
    }
  }

  ghost predicate Valid(s: State, run: seq<Action>)
    decreases |run|
  {
    run == [] || (Enabled(s, run[0]) && Valid(Apply(s, run[0]), run[1..]))
  }

  ghost function Final(s: State, run: seq<Action>): State
    requires Valid(s, run)
    decreases |run|
  {
    if run == [] then s else Final(Apply(s, run[0]), run[1..])
  }

  /** What others do during a run never takes a keeper away from this person nor signs another's target in as them. */
  ghost predicate Calm(s: State, run: seq<Action>, p: ProviderId, key: string)
    requires Valid(s, run)
    decreases |run|
  {
    run == [] || (
      SparesKeepers(s, run[0], p, key) && SparesTargets(s, run[0], p, key)
      && Calm(Apply(s, run[0]), run[1..], p, key))
  }

  /** No step of a cleanup in this run takes this person away. */
  ghost predicate CleanupsSpare(s: State, run: seq<Action>, p: ProviderId, key: string)
    requires Valid(s, run)
    decreases |run|
  {
    run == [] || ((IsTask(run[0]) ==> !Loses(s, run[0], p, key)) && CleanupsSpare(Apply(s, run[0]), run[1..], p, key))
  }

  /** No step of a cleanup in this run is raced for this person. */
  ghost predicate NeverRaced(s: State, run: seq<Action>, p: ProviderId, key: string)
    requires Valid(s, run)
    decreases |run|
  {
    run == [] || (!Raced(s, run[0], p, key) && NeverRaced(Apply(s, run[0]), run[1..], p, key))
  }

  lemma {:induction false} NeverRacedRun(s: State, run: seq<Action>, p: ProviderId, key: string)
    requires Inv(s) && Valid(s, run)
    ensures CleanupsSpare(s, run, p, key) <==> NeverRaced(s, run, p, key)
    decreases |run|
  {
    if run != [] {
      InvStep(s, run[0]);
      if IsTask(run[0]) {
        StepLosesIff(s, run[0], p, key);
      }
      NeverRacedRun(Apply(s, run[0]), run[1..], p, key);
    }
  }

  /**
   * Over every run of any number of gated cleanups, whatever others do: they spare a person exactly if no step is
   * raced.
   */
  lemma CleanupsSpareIff(s: State, run: seq<Action>, p: ProviderId, key: string)
    requires Init(s) && s.gated && Valid(s, run)
    ensures CleanupsSpare(s, run, p, key) <==> NeverRaced(s, run, p, key)
  {
    NeverRacedRun(s, run, p, key);
  }

  lemma {:induction false} CalmRun(s: State, run: seq<Action>, p: ProviderId, key: string)
    requires Inv(s) && Quiet(s, p, key) && Valid(s, run) && Calm(s, run, p, key)
    ensures CleanupsSpare(s, run, p, key)
    decreases |run|
  {
    if run != [] {
      InvStep(s, run[0]);
      QuietStep(s, run[0], p, key);
      if IsTask(run[0]) {
        IdentityStep(s, run[0], p, key);
      }
      CalmRun(Apply(s, run[0]), run[1..], p, key);
    }
  }

  /** Whatever else others change, in a calm run no cleanup takes the person away, however many run and interleave. */
  lemma NoCleanupLoses(s: State, run: seq<Action>, p: ProviderId, key: string)
    requires Init(s) && s.gated && Valid(s, run) && Calm(s, run, p, key)
    ensures CleanupsSpare(s, run, p, key)
  {
    CalmRun(s, run, p, key);
  }

  /** What somebody else does neither signs this person out of an account nor removes one they are signed in to. */
  ghost predicate SignsNobodyOut(s: State, a: Action, p: ProviderId, key: string) {
    (a.Change? || a.Drop?) && SignedInAs(s, a.id, p, key) ==> a.Change? && Names(a.state, key)
  }

  /** Cleanups are the only sign-outs and removals of this person. */
  ghost predicate OnlyCleanupsSignOut(s: State, run: seq<Action>, p: ProviderId, key: string)
    requires Valid(s, run)
    decreases |run|
  {
    run == [] || (SignsNobodyOut(s, run[0], p, key) && OnlyCleanupsSignOut(Apply(s, run[0]), run[1..], p, key))
  }

  /** The person has an account, no keeper of theirs has left, and no cleanup aims at the only account they have. */
  ghost predicate Safe(s: State, p: ProviderId, key: string) {
    && SignedIn(s, p, key)
    && (forall t | t in s.tasks && HasKey(s.tasks[t].pc) && s.tasks[t].provider == p && s.tasks[t].pc.key == key ::
          !KeeperLeft(s, s.tasks[t]))
    && (forall t | t in s.tasks && HasTarget(s.tasks[t].pc) && s.tasks[t].provider == p ::
          HeldBeside(s, s.tasks[t].pc.target, p, key))
  }

  predicate Strikes(a: Action) {
    a.SignOut? || a.Remove?
  }

  /** A step signs this person out of the target it strikes at most. */
  lemma HoldersStay(s: State, a: Action, id: Id, p: ProviderId, key: string)
    requires Enabled(s, a) && SignsNobodyOut(s, a, p, key) && SignedInAs(s, id, p, key)
    requires Strikes(a) ==> id != s.tasks[a.t].pc.target
    ensures SignedInAs(Apply(s, a), id, p, key)
  {
    hide IdentityOf;
  }

  lemma HeldBesideStays(s: State, a: Action, id: Id, p: ProviderId, key: string)
    requires Enabled(s, a) && SignsNobodyOut(s, a, p, key) && HeldBeside(s, id, p, key)
    requires Strikes(a) ==> id == s.tasks[a.t].pc.target || !SignedInAs(s, s.tasks[a.t].pc.target, p, key)
    ensures HeldBeside(Apply(s, a), id, p, key)
  {
    var other :| other != id && SignedInAs(s, other, p, key);
    HoldersStay(s, a, other, p, key);
  }

  /** A new target is not the person's only account: it is somebody else's, or the keeper is the person's too. */
  lemma TargetNotLast(s: State, a: Action, p: ProviderId, key: string)
    requires Inv(s) && Safe(s, p, key) && Enabled(s, a) && a.Next? && s.tasks[a.t].provider == p
        && HasTarget(NextPc(s, a))
    ensures HeldBeside(s, NextPc(s, a).target, p, key)
  {
    var task, target := s.tasks[a.t], NextPc(s, a).target;
    assert Guarded(s, task);
    TargetsNamed(s, a);
    hide IdentityOf;
    if task.pc.key == key {
      assert SignedInAs(s, task.account, p, key);
    } else {
      var id :| SignedInAs(s, id, p, key);
    }
  }

  /** What a step strikes is the target of its own provider's only cleanup, and this person has another account. */
  lemma SignedInStays(s: State, a: Action, p: ProviderId, key: string)
    requires Inv(s) && Safe(s, p, key) && Enabled(s, a) && SignsNobodyOut(s, a, p, key)
    ensures SignedIn(Apply(s, a), p, key)
  {
    hide IdentityOf;
    if Strikes(a) {
      assert Guarded(s, s.tasks[a.t]);
    }
    if Strikes(a) && s.tasks[a.t].provider == p {
      var other :| other != s.tasks[a.t].pc.target && SignedInAs(s, other, p, key);
      HoldersStay(s, a, other, p, key);
    } else {
      var id :| SignedInAs(s, id, p, key);
      HoldersStay(s, a, id, p, key);
    }
  }

  lemma KeepersStay(s: State, a: Action, p: ProviderId, key: string, t: Id)
    requires Inv(s) && Safe(s, p, key) && Enabled(s, a) && SignsNobodyOut(s, a, p, key)
    requires var w := Apply(s, a);
      t in w.tasks && HasKey(w.tasks[t].pc) && w.tasks[t].provider == p && w.tasks[t].pc.key == key
    ensures !KeeperLeft(Apply(s, a), Apply(s, a).tasks[t])
  {
    hide IdentityOf;
    if t in s.tasks && HasKey(s.tasks[t].pc) {
      assert Guarded(s, s.tasks[t]);
      assert SignedInAs(s, s.tasks[t].account, p, key);
      if Strikes(a) && t != a.t {
        OthersElsewhere(s, a, t);
      }
    }
  }

  lemma TargetsStay(s: State, a: Action, p: ProviderId, key: string, t: Id)
    requires Inv(s) && Safe(s, p, key) && Enabled(s, a) && SignsNobodyOut(s, a, p, key)
    requires var w := Apply(s, a); t in w.tasks && HasTarget(w.tasks[t].pc) && w.tasks[t].provider == p
    ensures HeldBeside(Apply(s, a), Apply(s, a).tasks[t].pc.target, p, key)
  {
    hide IdentityOf;
    if a.Next? && t == a.t {
      TargetNotLast(s, a, p, key);
      HeldBesideStays(s, a, NextPc(s, a).target, p, key);
    } else {
      assert t in s.tasks && s.tasks[t].pc.target == Apply(s, a).tasks[t].pc.target;
      if Strikes(a) {
        assert Guarded(s, s.tasks[a.t]);
        if t != a.t { OthersElsewhere(s, a, t); }
      }
      HeldBesideStays(s, a, s.tasks[t].pc.target, p, key);
    }
  }

  lemma SafeStep(s: State, a: Action, p: ProviderId, key: string)
    requires Inv(s) && Safe(s, p, key) && Enabled(s, a) && SignsNobodyOut(s, a, p, key)
    ensures Safe(Apply(s, a), p, key)
  {
    var w := Apply(s, a);
    SignedInStays(s, a, p, key);
    forall t | t in w.tasks && HasKey(w.tasks[t].pc) && w.tasks[t].provider == p && w.tasks[t].pc.key == key
      ensures !KeeperLeft(w, w.tasks[t])
    {
      KeepersStay(s, a, p, key, t);
    }
    forall t | t in w.tasks && HasTarget(w.tasks[t].pc) && w.tasks[t].provider == p
      ensures HeldBeside(w, w.tasks[t].pc.target, p, key)
    {
      TargetsStay(s, a, p, key, t);
    }
  }

  lemma {:induction false} IdentityKept(s: State, run: seq<Action>, p: ProviderId, key: string)
    requires Inv(s) && Safe(s, p, key) && Valid(s, run) && OnlyCleanupsSignOut(s, run, p, key)
    ensures SignedIn(Final(s, run), p, key)
    decreases |run|
  {
    if run != [] {
      InvStep(s, run[0]);
      SafeStep(s, run[0], p, key);
      IdentityKept(Apply(s, run[0]), run[1..], p, key);
    }
  }

  /**
   * However many cleanups run and however their steps fall, if they are the only sign-outs and removals of a person who
   * had a signed-in account, that person still has one.
   */
  lemma IdentitySurvives(s: State, run: seq<Action>, p: ProviderId, key: string)
    requires Init(s) && s.gated && Valid(s, run) && OnlyCleanupsSignOut(s, run, p, key) && SignedIn(s, p, key)
    ensures SignedIn(Final(s, run), p, key)
  {
    IdentityKept(s, run, p, key);
  }

  /**
   * Only a target is ever signed out or removed: another account of the keeper's provider, whose keeper is signed in as
   * the person unless somebody else removed or changed it since. A row that goes is signed in exactly if somebody
   * signed it in after its logout.
   */
  lemma OnlyDuplicatesTouched(s: State, a: Action, id: Id)
    requires Inv(s) && Enabled(s, a) && IsTask(a)
    requires StateOf(Apply(s, a).auth, id) != StateOf(s.auth, id) || (id in s.rows && id !in Apply(s, a).rows)
    ensures var task := s.tasks[a.t];
      && HasTarget(task.pc) && task.pc.target == id && id != task.account
      && id in s.owner && s.owner[id] == task.provider
      && (SignedInAs(s, task.account, task.provider, task.pc.key) <==> !KeeperLeft(s, task))
      && (id in s.rows && id !in Apply(s, a).rows ==>
            (StateOf(s.auth, id).Authenticated? <==> task.targetSince.Some? && task.targetSince.value.Authenticated?))
  {
    assert Guarded(s, s.tasks[a.t]);
  }

  /** An account becomes a target only when its own status names the keeper's identity. */
  lemma TargetsNamed(s: State, a: Action)
    requires Enabled(s, a) && IsTask(a) && HasTarget(NextPc(s, a)) && !HasTarget(s.tasks[a.t].pc)
    ensures var id := NextPc(s, a).target;
      IdentityOf(StateOf(s.auth, id)) == Some(NextPc(s, a).key) && id in s.owner && s.owner[id] == s.tasks[a.t].provider
  {
  }

  // ---- Runs that lose: without the gate, and with the gate but racing sign-ins ----

  /** Two accounts signed in as one person, nothing running. */
  ghost function Pair(gated: bool): State {
    var state := Authenticated(Some("a"));
    State(gated, map[], map[1 := 0, 2 := 0], {1, 2}, map[1 := state, 2 := state], map[])
  }

  lemma {:induction false} Snoc(s: State, run: seq<Action>, a: Action)
    requires Valid(s, run) && Enabled(Final(s, run), a)
    ensures Valid(s, run + [a]) && Final(s, run + [a]) == Apply(Final(s, run), a)
    decreases |run|
  {
    if run == [] {
      assert [a][1..] == [];
    } else {
      Snoc(Apply(s, run[0]), run[1..], a);
      assert (run + [a])[1..] == run[1..] + [a];
    }
  }

  lemma PlainKeys()
    ensures IdentityOf(Authenticated(Some("a"))) == Some("a") && IdentityOf(Authenticated(Some("b"))) == Some("b")
  {
    assert TrimStart("a") == "a" && TrimEnd("a") == "a" && TrimStart("b") == "b" && TrimEnd("b") == "b";
    assert Lower("a") == "a" && Lower("b") == "b";
  }

  /** As `Pair` leaves it, whatever cleanups have begun. */
  ghost predicate Paired(s: State) {
    s.owner == Pair(true).owner && s.rows == Pair(true).rows && s.auth == Pair(true).auth
  }

  /** A cleanup may start: it is new, and if there is a gate nobody is inside. */
  ghost predicate MayEnter(s: State, t: Id, spare: Id) {
    t !in s.tasks && spare !in s.gates.Values && (s.gated ==> forall u | u in s.tasks :: !Inside(s.tasks[u].pc))
  }

  lemma Enters(s: State, run: seq<Action>, t: Id, x: Id, spare: Id) returns (longer: seq<Action>, gate: Id)
    requires Valid(s, run)
    requires var u := Final(s, run); Paired(u) && MayEnter(u, t, spare)
    ensures Valid(s, longer) && Paired(Final(s, longer)) && Final(s, longer).gated == Final(s, run).gated
    ensures var u, w := Final(s, run), Final(s, longer);
      && w.tasks == u.tasks[t := Task(0, x, Entered(gate), None, None)]
      && (forall g | g in w.gates.Values :: g in u.gates.Values || g == spare)
  {
    hide Valid, Final, IdentityOf;
    var u := Final(s, run);
    Snoc(s, run, Request(t, 0, x));
    longer := run + [Request(t, 0, x)];
    Snoc(s, longer, FindGate(t, spare));
    longer := longer + [FindGate(t, spare)];
    gate := Final(s, longer).tasks[t].pc.gate;
    Snoc(s, longer, Enter(t));
    longer := longer + [Enter(t)];
    assert Final(s, longer).tasks == u.tasks[t := Task(0, x, Entered(gate), None, None)];
  }

  ghost predicate Advances(u: State, w: State, t: Id, x: Id, pc: Pc) {
    Paired(w) && w.gated == u.gated && w.gates == u.gates && w.tasks == u.tasks[t := Task(0, x, pc, None, None)]
  }

  lemma OwnsIdentity(u: State, t: Id, x: Id, gate: Id)
    requires Paired(u) && t in u.tasks && u.tasks[t] == Task(0, x, Entered(gate), None, None) && (x == 1 || x == 2)
    ensures Enabled(u, Own(t, false)) && Advances(u, Apply(u, Own(t, false)), t, x, Listing(gate, "a"))
  {
    PlainKeys();
    hide IdentityOf;
  }

  lemma ListsBoth(u: State, t: Id, x: Id, y: Id, gate: Id)
    requires Paired(u) && t in u.tasks && u.tasks[t] == Task(0, x, Listing(gate, "a"), None, None) && {x, y} == {1, 2}
    ensures Enabled(u, Snapshot(t, [y, x]))
        && Advances(u, Apply(u, Snapshot(t, [y, x])), t, x, Cleaning(gate, "a", [y, x]))
  {
  }

  lemma ConfirmsOther(u: State, t: Id, x: Id, y: Id, gate: Id)
    requires Paired(u) && t in u.tasks && u.tasks[t] == Task(0, x, Cleaning(gate, "a", [y, x]), None, None)
    requires {x, y} == {1, 2} && x != y
    ensures Enabled(u, Next(t, false)) && Advances(u, Apply(u, Next(t, false)), t, x, Confirmed(gate, "a", y, [x]))
  {
    PlainKeys();
    hide IdentityOf;
    assert [y, x][1..] == [x];
    assert y == 1 || y == 2;
  }

  /** A cleanup that may start may go on to confirm `y` as the duplicate of `x`. */
  lemma Confirms(s: State, run: seq<Action>, t: Id, x: Id, y: Id, spare: Id) returns (longer: seq<Action>, gate: Id)
    requires Valid(s, run) && {x, y} == {1, 2} && x != y
    requires var u := Final(s, run); Paired(u) && MayEnter(u, t, spare)
    ensures Valid(s, longer) && Paired(Final(s, longer)) && Final(s, longer).gated == Final(s, run).gated
    ensures var u, w := Final(s, run), Final(s, longer);
      && w.tasks == u.tasks[t := Task(0, x, Confirmed(gate, "a", y, [x]), None, None)]
      && (forall g | g in w.gates.Values :: g in u.gates.Values || g == spare)
  {
    hide Valid, Final, Enabled, Apply, Paired;
    longer, gate := Enters(s, run, t, x, spare);
    OwnsIdentity(Final(s, longer), t, x, gate);
    Snoc(s, longer, Own(t, false));
    longer := longer + [Own(t, false)];
    ListsBoth(Final(s, longer), t, x, y, gate);
    Snoc(s, longer, Snapshot(t, [y, x]));
    longer := longer + [Snapshot(t, [y, x])];
    ConfirmsOther(Final(s, longer), t, x, y, gate);
    Snoc(s, longer, Next(t, false));
    longer := longer + [Next(t, false)];
  }

  /** A cleanup that has confirmed a target may remove it, whatever has happened meanwhile. */
  lemma TakesTarget(s: State, run: seq<Action>, t: Id) returns (longer: seq<Action>)
    requires Valid(s, run) && t in Final(s, run).tasks && Final(s, run).tasks[t].pc.Confirmed?
    ensures Valid(s, longer)
    ensures var u, w := Final(s, run), Final(s, longer);
      && w.rows == u.rows - {u.tasks[t].pc.target} && t in w.tasks && w.tasks == u.tasks[t := w.tasks[t]]
  {
    hide Valid, Final;
    Snoc(s, run, SignOut(t, true, true));
    longer := run + [SignOut(t, true, true)];
    Snoc(s, longer, Remove(t, true, true));
    longer := longer + [Remove(t, true, true)];
  }

  /** Without the gate, two cleanups for one person can each take the other's account, and nobody is left signed in. */
  lemma UngatedLosesBoth() returns (run: seq<Action>)
    ensures Valid(Pair(false), run)
    ensures SignedIn(Pair(false), 0, "a") && Final(Pair(false), run).rows == {}
  {
    var s := Pair(false);
    PlainKeys();
    assert SignedInAs(s, 1, 0, "a");
    assert Final(s, []) == s;
    hide Valid, Final, IdentityOf;
    var gate, other;
    run, gate := Confirms(s, [], 10, 1, 2, 100);
    run, other := Confirms(s, run, 11, 2, 1, 101);
    run := TakesTarget(s, run, 10);
    run := TakesTarget(s, run, 11);
  }

  /** With the gate, one cleanup for account 1 has confirmed account 2. */
  lemma OneConfirms() returns (run: seq<Action>, gate: Id)
    ensures Valid(Pair(true), run) && Paired(Final(Pair(true), run))
    ensures Final(Pair(true), run).tasks == map[10 := Task(0, 1, Confirmed(gate, "a", 2, [1]), None, None)]
  {
    assert Final(Pair(true), []) == Pair(true);
    hide Valid, Final;
    run, gate := Confirms(Pair(true), [], 10, 1, 2, 100);
  }

  /** Where at most accounts 1 and 2 are listed, taking away account 2 loses whoever only it stands for. */
  lemma LosesSecond(s: State, a: Action, key: string)
    requires Enabled(s, a) && (a.SignOut? || a.Remove?) && a.took && s.tasks[a.t].pc.target == 2
    requires 2 in s.rows && s.rows <= {1, 2} && s.owner == Pair(true).owner
    requires Names(StateOf(s.auth, 2), key) && (1 in s.rows ==> !Names(StateOf(s.auth, 1), key))
    ensures Loses(s, a, 0, key)
  {
    hide IdentityOf;
    LosesTarget(s, a, 0, key);
    assert SignedInAs(s, 2, 0, key);
    forall other | other != 2 ensures !SignedInAs(s, other, 0, key) {
    }
  }

  /** First race: the target is signed in as somebody else between the reading of its status and its logout. */
  lemma RaceBeforeLogout() returns (run: seq<Action>, a: Action)
    ensures Init(Pair(true)) && Valid(Pair(true), run) && Enabled(Final(Pair(true), run), a) && a.SignOut?
    ensures Loses(Final(Pair(true), run), a, 0, "b")
  {
    var gate;
    run, gate := OneConfirms();
    PlainKeys();
    hide Valid, Final, IdentityOf;
    var c := Change(2, Authenticated(Some("b")));
    Snoc(Pair(true), run, c);
    run := run + [c];
    a := SignOut(10, true, true);
    LosesSecond(Final(Pair(true), run), a, "b");
  }

  /** Second race: the target is signed in again between its logout and its removal. */
  lemma RaceBeforeRemoval() returns (run: seq<Action>, a: Action)
    ensures Init(Pair(true)) && Valid(Pair(true), run) && Enabled(Final(Pair(true), run), a) && a.Remove?
    ensures Loses(Final(Pair(true), run), a, 0, "b")
  {
    var gate;
    run, gate := OneConfirms();
    PlainKeys();
    hide Valid, Final, IdentityOf;
    Snoc(Pair(true), run, SignOut(10, true, true));
    run := run + [SignOut(10, true, true)];
    var c := Change(2, Authenticated(Some("b")));
    Snoc(Pair(true), run, c);
    run := run + [c];
    a := Remove(10, true, true);
    LosesSecond(Final(Pair(true), run), a, "b");
  }

  /** Third race: the keeper is signed in as somebody else while its cleanup is under way. */
  lemma RaceOnKeeper() returns (run: seq<Action>, a: Action)
    ensures Init(Pair(true)) && Valid(Pair(true), run) && Enabled(Final(Pair(true), run), a) && a.SignOut?
    ensures Loses(Final(Pair(true), run), a, 0, "a")
  {
    var gate;
    run, gate := OneConfirms();
    PlainKeys();
    hide Valid, Final, IdentityOf;
    var c := Change(1, Authenticated(Some("b")));
    Snoc(Pair(true), run, c);
    run := run + [c];
    a := SignOut(10, true, true);
    LosesSecond(Final(Pair(true), run), a, "a");
  }

  /** Fourth race: somebody else removes the keeper while its cleanup is under way. */
  lemma RaceDropsKeeper() returns (run: seq<Action>, a: Action)
    ensures Init(Pair(true)) && Valid(Pair(true), run) && Enabled(Final(Pair(true), run), a) && a.SignOut?
    ensures Loses(Final(Pair(true), run), a, 0, "a")
  {
    var gate;
    run, gate := OneConfirms();
    PlainKeys();
    hide Valid, Final, IdentityOf;
    Snoc(Pair(true), run, Drop(1));
    run := run + [Drop(1)];
    a := SignOut(10, true, true);
    LosesSecond(Final(Pair(true), run), a, "a");
  }

  // ---- One cleanup of the protocol, left alone, is the sequential one ----

  /** The task's actions on its next account, with the calls turning out as `l` says. */
  ghost function Turn(s: State, t: Id, l: Luck): seq<Action>
    requires t in s.tasks && s.tasks[t].pc.Cleaning? && s.tasks[t].pc.todo != []
  {
    var task := s.tasks[t];
    var id := task.pc.todo[0];
    var fails := !l.instance || !l.status;
    if fails || id !in s.owner || !Duplicate(Config(id, s.owner[id]), task.provider, task.account, task.pc.key, s.auth)
    then [Next(t, fails)]
    else [Next(t, false), SignOut(t, l.logout, l.logout || l.logoutTook)]
         + if l.logout then [Remove(t, l.remove, l.remove || l.removeTook)] else []
  }

  /** What one turn leaves: the next account signed out and removed as the sequential loop does it. */
  ghost function Turned(s: State, t: Id, l: Luck): State
    requires t in s.tasks && s.tasks[t].pc.Cleaning? && s.tasks[t].pc.todo != [] && s.tasks[t].pc.todo[0] in s.owner
  {
    var task := s.tasks[t];
    var id := task.pc.todo[0];
    var c := Config(id, s.owner[id]);
    s.(auth := if SignsOut(c, task.provider, task.account, task.pc.key, s.auth, l) then s.auth[id := NotAuthenticated]
               else s.auth,
       rows := if Removes(c, task.provider, task.account, task.pc.key, s.auth, l) then s.rows - {id} else s.rows,
       tasks := s.tasks[t := task.(pc := Cleaning(task.pc.gate, task.pc.key, task.pc.todo[1..]), targetSince := None)])
  }

  lemma Just(s: State, a: Action)
    requires Enabled(s, a)
    ensures Valid(s, [a]) && Final(s, [a]) == Apply(s, a)
  {
    assert [a][1..] == [] && Valid(Apply(s, a), []);
  }

  /** The three steps of a turn that finds a duplicate. */
  lemma ConfirmStep(s: State, t: Id)
    requires t in s.tasks && s.tasks[t].pc.Cleaning? && s.tasks[t].pc.todo != [] && s.tasks[t].pc.todo[0] in s.owner
    requires var task, id := s.tasks[t], s.tasks[t].pc.todo[0];
      Duplicate(Config(id, s.owner[id]), task.provider, task.account, task.pc.key, s.auth)
    ensures Enabled(s, Next(t, false))
    ensures var task, pc := s.tasks[t], s.tasks[t].pc;
      Apply(s, Next(t, false)) ==
      s.(tasks := s.tasks[t := task.(pc := Confirmed(pc.gate, pc.key, pc.todo[0], pc.todo[1..]), targetSince := None)])
  {
    hide IdentityOf;
  }

  lemma LogoutStep(s: State, t: Id, ok: bool, took: bool)
    requires t in s.tasks && s.tasks[t].pc.Confirmed? && s.tasks[t].targetSince.None? && (ok ==> took)
    ensures Enabled(s, SignOut(t, ok, took))
    ensures var task, pc := s.tasks[t], s.tasks[t].pc;
      Apply(s, SignOut(t, ok, took)) ==
      s.(auth := if took then s.auth[pc.target := NotAuthenticated] else s.auth,
         tasks := s.tasks[t := task.(pc := if ok then SignedOut(pc.gate, pc.key, pc.target, pc.todo)
                                           else Cleaning(pc.gate, pc.key, pc.todo))])
  {
  }

  lemma RemoveStep(s: State, t: Id, ok: bool, took: bool)
    requires t in s.tasks && s.tasks[t].pc.SignedOut? && (ok ==> took)
    ensures Enabled(s, Remove(t, ok, took))
    ensures var task, pc := s.tasks[t], s.tasks[t].pc;
      Apply(s, Remove(t, ok, took)) ==
      s.(rows := if took then s.rows - {pc.target} else s.rows,
         tasks := s.tasks[t := task.(pc := Cleaning(pc.gate, pc.key, pc.todo))])
  {
  }

  lemma ConfirmedTurn(s: State, t: Id, l: Luck)
    requires t in s.tasks && s.tasks[t].pc.Cleaning? && s.tasks[t].pc.todo != [] && s.tasks[t].pc.todo[0] in s.owner
    requires |Turn(s, t, l)| > 1
    ensures Valid(s, Turn(s, t, l)) && Final(s, Turn(s, t, l)) == Turned(s, t, l)
  {
    hide IdentityOf, Valid, Final, Enabled, Apply;
    var next, out := Next(t, false), SignOut(t, l.logout, l.logout || l.logoutTook);
    ConfirmStep(s, t);
    Just(s, next);
    var s1 := Apply(s, next);
    LogoutStep(s1, t, l.logout, l.logout || l.logoutTook);
    Snoc(s, [next], out);
    var s2 := Apply(s1, out);
    assert [next] + [out] == [next, out];
    if l.logout {
      var gone := Remove(t, l.remove, l.remove || l.removeTook);
      RemoveStep(s2, t, l.remove, l.remove || l.removeTook);
      Snoc(s, [next, out], gone);
      assert [next, out] + [gone] == Turn(s, t, l);
      assert Apply(s2, gone).tasks == Turned(s, t, l).tasks;
    } else {
      assert [next, out] + [] == [next, out] == Turn(s, t, l);
      assert s2.tasks == Turned(s, t, l).tasks;
    }
  }

  lemma OneTurn(s: State, t: Id, l: Luck)
    requires t in s.tasks && s.tasks[t].pc.Cleaning? && s.tasks[t].pc.todo != [] && s.tasks[t].pc.todo[0] in s.owner
    ensures Valid(s, Turn(s, t, l)) && Final(s, Turn(s, t, l)) == Turned(s, t, l)
  {
    hide IdentityOf, Valid, Final;
    if |Turn(s, t, l)| > 1 {
      ConfirmedTurn(s, t, l);
    } else {
      Just(s, Turn(s, t, l)[0]);
      assert Turn(s, t, l) == [Turn(s, t, l)[0]];
    }
  }

  /** All the turns a cleaning task has left. */
  ghost function Turns(s: State, t: Id, luck: Id -> Luck): seq<Action>
    requires t in s.tasks && s.tasks[t].pc.Cleaning? && forall id | id in s.tasks[t].pc.todo :: id in s.owner
    decreases |s.tasks[t].pc.todo|
  {
    var todo := s.tasks[t].pc.todo;
    if todo == [] then [] else Turn(s, t, luck(todo[0])) + Turns(Turned(s, t, luck(todo[0])), t, luck)
  }

  lemma {:induction false} Joined(s: State, run: seq<Action>, more: seq<Action>)
    requires Valid(s, run) && Valid(Final(s, run), more)
    ensures Valid(s, run + more) && Final(s, run + more) == Final(Final(s, run), more)
    decreases |run|
  {
    if run == [] {
      assert run + more == more;
    } else {
      Joined(Apply(s, run[0]), run[1..], more);
      assert (run + more)[1..] == run[1..] + more;
    }
  }

  /** The listed account as the sequential loop sees it. */
  function Listed(s: State, id: Id): Config
    requires id in s.owner
  {
    Config(id, s.owner[id])
  }

  /** From `s` to `u` the accounts on this task's list were treated as the sequential loop treats them. */
  ghost predicate CleanedUp(s: State, u: State, t: Id, luck: Id -> Luck)
    requires t in s.tasks && s.tasks[t].pc.Cleaning? && forall id | id in s.tasks[t].pc.todo :: id in s.owner
  {
    var task := s.tasks[t];
    && u.owner == s.owner && u.gates == s.gates && t in u.tasks
    && u.tasks[t].pc == Cleaning(task.pc.gate, task.pc.key, [])
    && (forall id :: StateOf(u.auth, id) ==
          if id in task.pc.todo
             && SignsOut(Listed(s, id), task.provider, task.account, task.pc.key, s.auth, luck(id))
          then NotAuthenticated else StateOf(s.auth, id))
    && (forall id :: id in u.rows <==>
          id in s.rows
          && !(id in task.pc.todo
               && Removes(Listed(s, id), task.provider, task.account, task.pc.key, s.auth, luck(id))))
  }

  lemma CleanedBefore(s: State, u: State, t: Id, luck: Id -> Luck)
    requires t in s.tasks && s.tasks[t].pc.Cleaning? && s.tasks[t].pc.todo != []
    requires forall id | id in s.tasks[t].pc.todo :: id in s.owner
    requires forall i | 0 < i < |s.tasks[t].pc.todo| :: s.tasks[t].pc.todo[i] != s.tasks[t].pc.todo[0]
    requires CleanedUp(Turned(s, t, luck(s.tasks[t].pc.todo[0])), u, t, luck)
    ensures CleanedUp(s, u, t, luck)
  {
    hide IdentityOf, SignsOut, Removes;
    var todo := s.tasks[t].pc.todo;
    var v := Turned(s, t, luck(todo[0]));
    assert todo == [todo[0]] + todo[1..];
    var task := s.tasks[t];
    forall id | id in todo[1..]
      ensures id != todo[0]
      ensures SignsOut(Listed(v, id), task.provider, task.account, task.pc.key, v.auth, luck(id))
              == SignsOut(Listed(s, id), task.provider, task.account, task.pc.key, s.auth, luck(id))
      ensures Removes(Listed(v, id), task.provider, task.account, task.pc.key, v.auth, luck(id))
              == Removes(Listed(s, id), task.provider, task.account, task.pc.key, s.auth, luck(id))
    {
      SameRead(Listed(s, id), task.provider, task.account, task.pc.key, v.auth, s.auth, luck(id));
    }
  }

  lemma Nothing(s: State)
    ensures Valid(s, []) && Final(s, []) == s
  {
  }

  /**
   * A cleanup that nobody interferes with signs out exactly the accounts, and removes exactly the rows, that the
   * sequential loop over the same list does, and changes nothing else.
   */
  lemma {:induction false} AloneIsSequential(s: State, t: Id, luck: Id -> Luck)
    requires t in s.tasks && s.tasks[t].pc.Cleaning?
    requires forall id | id in s.tasks[t].pc.todo :: id in s.owner
    requires forall i, j | 0 <= i < j < |s.tasks[t].pc.todo| :: s.tasks[t].pc.todo[i] != s.tasks[t].pc.todo[j]
    ensures Valid(s, Turns(s, t, luck)) && CleanedUp(s, Final(s, Turns(s, t, luck)), t, luck)
    decreases |s.tasks[t].pc.todo|
  {
    hide Turn, Valid, Final;
    var todo := s.tasks[t].pc.todo;
    if todo == [] {
      Nothing(s);
    } else {
      hide CleanedUp, SignsOut, Removes;
      var v := Turned(s, t, luck(todo[0]));
      OneTurn(s, t, luck(todo[0]));
      AloneIsSequential(v, t, luck);
      Joined(s, Turn(s, t, luck(todo[0])), Turns(v, t, luck));
      CleanedBefore(s, Final(v, Turns(v, t, luck)), t, luck);
    }
  }

  /** A cleanup goes on exactly for a listed account of its provider that is signed in under some identity. */
  lemma OwnIff(s: State, a: Action)
    requires Enabled(s, a) && a.Own?
    ensures var task, pc := s.tasks[a.t], NextPc(s, a);
      var state := StateOf(s.auth, task.account);
      && (pc.Listing? <==>
            && !a.fails && task.account in s.rows && task.account in s.owner && s.owner[task.account] == task.provider
            && state.Authenticated? && IdentityOf(state).Some?)
      && (pc.Listing? ==> IdentityOf(state) == Some(pc.key))
      && (!pc.Listing? ==> pc.Leaving?)
  {
  }

  /** What the next step of a cleanup is: only the gate can keep it from being taken, and calls may turn out any way. */
  lemma CleanupMoves(s: State, t: Id)
    requires t in s.tasks
    ensures match s.tasks[t].pc
            case Queued => forall spare | spare !in s.gates.Values :: Enabled(s, FindGate(t, spare))
            case Waiting(gate) => Enabled(s, Enter(t)) <==> !s.gated || Unlocked(s, gate)
            case Entered(_) => forall fails :: Enabled(s, Own(t, fails))
            case Listing(_, _) =>
              forall order | (forall id :: id in order <==> id in s.rows) :: Enabled(s, Snapshot(t, order))
            case Cleaning(_, _, todo) =>
              if todo == [] then Enabled(s, Leave(t)) else forall fails :: Enabled(s, Next(t, fails))
            case Confirmed(_, _, _, _) => forall ok, took | ok ==> took :: Enabled(s, SignOut(t, ok, took))
            case SignedOut(_, _, _, _) => forall ok, took | ok ==> took :: Enabled(s, Remove(t, ok, took))
            case Leaving(_) => Enabled(s, Leave(t))
            case Finished => forall a | IsTask(a) && a.t == t :: !Enabled(s, a)
  {
  }
}
