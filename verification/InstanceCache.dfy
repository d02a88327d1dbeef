/** Provider registration and the per-account instance cache, whose factories run with no lock held. */
module InstanceCache {
  import opened Basics
  import opened Characters

  type Id = nat
  type Name = string

  datatype Instance = Instance(id: Id, descriptor: Name)

  datatype Registration = Singleton(provider: Instance) | Factory

  datatype Slot = Slot(provider: Name, account: string)

  datatype Error = Duplicate(id: Name) | NotFound(id: Name) | InvalidId(id: Name)
                 | DescriptorMismatch(registered: Name, actual: Name) | InstanceFailed(id: Name, kind: nat)

  type Answer = Result<Instance, Error>

  predicate Usable(id: Name) {
    id != "" && !AnyUnsafe(id)
  }

  /** What becomes of a freshly built instance, or of the factory's failure. */
  function Accept(id: Name, built: Result<Instance, nat>): Answer {
    match built
    case Err(kind) => Err(InstanceFailed(id, kind))
    case Ok(i) => if i.descriptor != id then Err(DescriptorMismatch(id, i.descriptor)) else Ok(i)
  }

  /** `entry(account)`: an occupied entry wins, a vacant one takes the new instance. */
  function Publish(cache: map<Slot, Instance>, slot: Slot, i: Instance): (map<Slot, Instance>, Instance) {
    if slot in cache then (cache, cache[slot]) else (cache[slot := i], i)
  }

  ghost predicate ValidProviders(providers: map<Name, Registration>) {
    forall id | id in providers :: Usable(id) && (providers[id].Singleton? ==> providers[id].provider.descriptor == id)
  }

  ghost predicate ValidCache(providers: map<Name, Registration>, cache: map<Slot, Instance>) {
    forall slot | slot in cache ::
      slot.provider in providers && providers[slot.provider].Factory? && cache[slot].descriptor == slot.provider
  }

  class ProviderRegistry {
    var providers: map<Name, Registration>
    var instances: map<Slot, Instance>

    ghost predicate Valid()
      reads this
    {
      ValidProviders(providers) && ValidCache(providers, instances)
    }

    constructor ()
      ensures Valid() && providers == map[] && instances == map[]
    {
      providers := map[];
      instances := map[];
    }

    method Register(id: Name, registration: Registration) returns (r: Result<(), Error>)
      requires Valid() && (registration.Singleton? ==> registration.provider.descriptor == id)
      modifies this
      ensures Valid() && instances == old(instances)
      ensures id == "" || (exists c | c in id :: IsUnsafe(c)) ==> r == Err(InvalidId(id))
      ensures Usable(id) && id in old(providers) ==> r == Err(Duplicate(id))
      ensures providers == if Usable(id) && id !in old(providers) then old(providers)[id := registration]
          else old(providers)
      ensures r.Ok? <==> id != "" && (forall c | c in id :: !IsUnsafe(c)) && id !in old(providers)
    {
      UnsafeWithin(id);
      if !Usable(id) { return Err(InvalidId(id)); }
      if id in providers { return Err(Duplicate(id)); }
      providers := providers[id := registration];
      return Ok(());
    }

    /** One caller that nobody races: `built` is what the factory would answer if it had to run. */
    method GetForAccount(id: Name, account: string, built: Result<Instance, nat>) returns (r: Answer)
      requires Valid()
      modifies this`instances
      ensures Valid()
      ensures id !in providers ==> r == Err(NotFound(id)) && instances == old(instances)
      ensures id in providers && providers[id].Singleton? ==>
                r == Ok(providers[id].provider) && instances == old(instances)
      ensures id in providers && providers[id].Factory? ==>
                var slot := Slot(id, account);
                r == (if slot in old(instances) then Ok(old(instances)[slot]) else Accept(id, built)) &&
                instances == if r.Ok? then old(instances)[slot := r.value] else old(instances)
      ensures id in providers && providers[id].Factory? && Slot(id, account) !in old(instances) ==>
                r == if built.Err? then Err(InstanceFailed(id, built.error))
                     else if built.value.descriptor == id then Ok(built.value)
                     else Err(DescriptorMismatch(id, built.value.descriptor))
    {
      if id !in providers { return Err(NotFound(id)); }
      if providers[id].Singleton? { return Ok(providers[id].provider); }
      var slot := Slot(id, account);
      if slot in instances {
        assert instances == instances[slot := instances[slot]];
        return Ok(instances[slot]);
      }
      var accepted := Accept(id, built);
      if accepted.Err? { return accepted; }
      var (cache, winner) := Publish(instances, slot, accepted.value);
      instances := cache;
      return Ok(winner);
    }
  }

  // ---- Racing callers ----

  datatype Phase = Asked | Building | Built(i: Instance) | Done(answer: Answer)

  datatype Call = Call(slot: Slot, phase: Phase)

  datatype State = State(providers: map<Name, Registration>, cache: map<Slot, Instance>, calls: map<Id, Call>)

  datatype Action = Begin(k: Id, slot: Slot) | FastPath(k: Id) | Construct(k: Id, built: Result<Instance, nat>)
    | Settle(k: Id)

  ghost predicate Enabled(s: State, a: Action) {
    match a
    case Begin(k, _) => k !in s.calls
    case FastPath(k) => k in s.calls && s.calls[k].phase.Asked?
    case Construct(k, _) => k in s.calls && s.calls[k].phase.Building?
    case Settle(k) => k in s.calls && s.calls[k].phase.Built?
  }

  ghost function Apply(s: State, a: Action): State
    requires Enabled(s, a)
  {
    match a
    case Begin(k, slot) => s.(calls := s.calls[k := Call(slot, Asked)])
    case FastPath(k) =>
      var c := s.calls[k];
      var id := c.slot.provider;
      var phase := if id !in s.providers then Done(Err(NotFound(id)))
                   else if s.providers[id].Singleton? then Done(Ok(s.providers[id].provider))
                   else if c.slot in s.cache then Done(Ok(s.cache[c.slot])) else Building;
      s.(calls := s.calls[k := c.(phase := phase)])
    case Construct(k, built) =>
      var c := s.calls[k];
      var accepted := Accept(c.slot.provider, built);
      s.(calls := s.calls[k := c.(phase := if accepted.Ok? then Built(accepted.value) else Done(accepted))])
    case Settle(k) =>
      var c := s.calls[k];
      var (cache, winner) := Publish(s.cache, c.slot, c.phase.i);
      s.(cache := cache, calls := s.calls[k := c.(phase := Done(Ok(winner)))])
  }

  ghost predicate Init(s: State) {
    ValidProviders(s.providers) && s.cache == map[] && s.calls == map[]
  }

  /** What every caller of a slot is, or would be, answered with. */
  ghost predicate Answers(s: State, slot: Slot, i: Instance) {
    slot.provider in s.providers &&
    if s.providers[slot.provider].Singleton? then i == s.providers[slot.provider].provider
    else slot in s.cache && s.cache[slot] == i
  }

  ghost predicate Inv(s: State) {
    && ValidProviders(s.providers) && ValidCache(s.providers, s.cache)
    && (forall k | k in s.calls && (s.calls[k].phase.Building? || s.calls[k].phase.Built?) ::
          s.calls[k].slot.provider in s.providers && s.providers[s.calls[k].slot.provider].Factory?)
    && (forall k | k in s.calls && s.calls[k].phase.Built? :: s.calls[k].phase.i.descriptor == s.calls[k].slot.provider)
    && (forall k | k in s.calls && s.calls[k].phase.Done? && s.calls[k].phase.answer.Ok? ::
          Answers(s, s.calls[k].slot, s.calls[k].phase.answer.value))
  }

  lemma InvStep(s: State, a: Action)
    requires Inv(s) && Enabled(s, a)
    ensures Inv(Apply(s, a)) && Apply(s, a).providers == s.providers
    ensures forall slot | slot in s.cache :: slot in Apply(s, a).cache && Apply(s, a).cache[slot] == s.cache[slot]
  {
    var t := Apply(s, a);
    forall slot, i | Answers(s, slot, i) ensures Answers(t, slot, i) {
    }
  }

  ghost predicate Valid(s: State, run: seq<Action>)
    decreases |run|
  {
    run == [] || (Enabled(s, run[0]) && Valid(Apply(s, run[0]), run[1..]))
  }

  ghost function Final(s: State, run: seq<Action>): State
    requires Valid(s, run)
    decreases |run|
  {
    if run == [] then s else Final(Apply(s, run[0]), run[1..])
  }

  lemma {:induction false} InvRun(s: State, run: seq<Action>)
    requires Inv(s) && Valid(s, run)
    ensures Inv(Final(s, run)) && Final(s, run).providers == s.providers
    ensures forall slot | slot in s.cache :: slot in Final(s, run).cache && Final(s, run).cache[slot] == s.cache[slot]
    decreases |run|
  {
    if run != [] {
      InvStep(s, run[0]);
      InvRun(Apply(s, run[0]), run[1..]);
    }
  }

  ghost predicate Got(s: State, k: Id, slot: Slot, i: Instance) {
    k in s.calls && s.calls[k].slot == slot && s.calls[k].phase == Done(Ok(i))
  }

  /**
   * However callers race, now or later in the run, one account of one provider means one instance, of that provider.
   */
  lemma OneInstance(s: State, run1: seq<Action>, run2: seq<Action>, j: Id, k: Id, slot: Slot, x: Instance, y: Instance)
    requires Init(s) && Valid(s, run1) && Valid(Final(s, run1), run2)
    requires Got(Final(s, run1), j, slot, x) && Got(Final(Final(s, run1), run2), k, slot, y)
    ensures x == y && x.descriptor == slot.provider
  {
    InvRun(s, run1);
    InvRun(Final(s, run1), run2);
    assert Answers(Final(s, run1), slot, x) && Answers(Final(Final(s, run1), run2), slot, y);
  }

  /** Only an accepted construction ever enters the cache: a failed or mismatched one changes nothing. */
  lemma OnlyAcceptedCached(s: State, a: Action, slot: Slot)
    requires Inv(s) && Enabled(s, a) && slot in Apply(s, a).cache && slot !in s.cache
    ensures a.Settle? && s.calls[a.k].slot == slot && Apply(s, a).cache[slot] == s.calls[a.k].phase.i
    ensures Apply(s, a).cache[slot].descriptor == slot.provider
  {
    InvStep(s, a);
  }

  /** A call is answered at once exactly if its provider is unknown, single, or already has the account's instance. */
  lemma FastPathIff(s: State, a: Action)
    requires Enabled(s, a) && a.FastPath?
    ensures var slot, phase := s.calls[a.k].slot, Apply(s, a).calls[a.k].phase;
      && Apply(s, a).cache == s.cache && (forall j | j in s.calls && j != a.k :: Apply(s, a).calls[j] == s.calls[j])
      && (slot.provider !in s.providers <==> phase == Done(Err(NotFound(slot.provider))))
      && (slot.provider in s.providers && s.providers[slot.provider].Singleton? ==>
            phase == Done(Ok(s.providers[slot.provider].provider)))
      && (slot.provider in s.providers && s.providers[slot.provider].Factory? ==>
            phase == if slot in s.cache then Done(Ok(s.cache[slot])) else Building)
  {
  }

  /** A construction that fails, or builds for another provider, answers its own call so and touches nothing else. */
  lemma ConstructIff(s: State, a: Action)
    requires Enabled(s, a) && a.Construct?
    ensures var id, phase := s.calls[a.k].slot.provider, Apply(s, a).calls[a.k].phase;
      && Apply(s, a).cache == s.cache && (forall j | j in s.calls && j != a.k :: Apply(s, a).calls[j] == s.calls[j])
      && match a.built
         case Err(kind) => phase == Done(Err(InstanceFailed(id, kind)))
         case Ok(i) => phase == if i.descriptor == id then Built(i) else Done(Err(DescriptorMismatch(id, i.descriptor)))
  {
  }

  /** The first construction to settle is cached, and every later one is dropped in favour of it. */
  lemma SettleIff(s: State, a: Action)
    requires Enabled(s, a) && a.Settle?
    ensures var slot, i := s.calls[a.k].slot, s.calls[a.k].phase.i;
      && Apply(s, a).cache == (if slot in s.cache then s.cache else s.cache[slot := i])
      && Apply(s, a).calls[a.k].phase == Done(Ok(if slot in s.cache then s.cache[slot] else i))
  {
  }
}
