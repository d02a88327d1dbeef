/**
 * Interactive login driven against an arbitrary daemon: the protocol its requests keep, as a law over the whole trace
 * of exchanges, and the driver itself, every request of which obeys that law.
 */
module LoginDriver {
  import opened Basics
  import opened Characters
  import opened LoginLabels
  import opened LoginAnswers

  // ---- What travels ----

  datatype Provider = Provider(id: string, authenticates: bool)

  /** `input` is whether a value must be pasted back, and if so whether it is secret. */
  datatype Challenge = Challenge(flow: string, browser: bool, deadline: Option<int>, input: Option<bool>)

  datatype AuthState = Authenticated(name: Option<string>) | Invalid | Pending | NotAuthenticated

  datatype Method = Browser | Device | Token

  datatype Command =
    | DaemonStatus
    | ListProviders
    | ListAccounts
    | AddAccount(provider: string, name: string)
    | ShowAccount(account: string)
    | SetLabel(account: string, name: string)
    | RemoveAccount(account: string)
    | StartAuth(provider: string, account: string, how: Option<Method>)
    | CompleteAuth(provider: string, account: string, flow: string, code: Option<string>, redirect: Option<string>)
    | AuthStatus(provider: string, account: string)
    | Logout(provider: string, account: string)
    | Probe(account: string)
    | RetireDuplicates(provider: string, account: string)

  datatype Refusal =
    | Duplicate | RateLimited | NetworkFailure | OtherProviderError | Missing(account: string)
    | UnknownProvider(provider: string) | InstanceError(provider: string)
    | Storage | Cancelled | Timeout | SelectorMissing | OtherRefusal

  datatype Reply =
    | Status | Providers(providers: seq<Provider>) | Accounts(accounts: seq<Account>) | AccountIs(account: Account)
    | Challenged(challenge: Challenge) | State(state: AuthState) | Probed(subject: string) | Ack
    | Mismatch | Refused(refusal: Refusal)

  /** What the socket brings back. `sound`: version, request id, diagnostics and characters all check out. */
  datatype Wire = Silent | Answered(sound: bool, reply: Reply)

  datatype Failure = Control(refusal: Refusal) | Transport

  datatype Exchange = Exchange(command: Command, outcome: Result<Reply, Failure>)

  type Trace = seq<Exchange>

  // ---- Which answers are believed ----

  predicate DistinctProviders(ps: seq<Provider>) {
    forall i, j | 0 <= i < j < |ps| :: ps[i].id != ps[j].id
  }

  predicate DistinctAccounts(accounts: seq<Account>) {
    forall i, j | 0 <= i < j < |accounts| :: accounts[i].id != accounts[j].id
  }

  /** `response_matches_command` for a reply that is no error. */
  predicate Accepts(c: Command, r: Reply) {
    match c
    case DaemonStatus => r.Status?
    case ListProviders => r.Providers? && DistinctProviders(r.providers)
    case ListAccounts => r.Accounts? && DistinctAccounts(r.accounts)
    case RetireDuplicates(_, _) => r.Accounts? && DistinctAccounts(r.accounts)
    case AddAccount(p, name) =>
      r.AccountIs? && r.account.provider == p && r.account.name == Some(name) && r.account.enabled
    case ShowAccount(a) => r.AccountIs? && r.account.id == a
    case SetLabel(a, name) => r.AccountIs? && r.account.id == a && r.account.name == Some(name)
    case RemoveAccount(_) => r.Ack?
    case Logout(_, _) => r.Ack?
    case StartAuth(_, _, _) => r.Challenged?
    case CompleteAuth(_, _, _, _, _) => r.State?
    case AuthStatus(_, _) => r.State?
    case Probe(a) => r.Probed? && r.subject == a
  }

  predicate AuthRefusal(p: string, a: string, e: Refusal) {
    match e
    case RateLimited => true
    case NetworkFailure => true
    case OtherProviderError => true
    case Missing(account) => account == a
    case UnknownProvider(provider) => provider == p
    case InstanceError(provider) => provider == p
    case _ => false
  }

  /**
   * `response_matches_command` for an error: it must be one this command can meet, about this command's own subject.
   */
  predicate AcceptsRefusal(c: Command, e: Refusal) {
    match c
    case DaemonStatus => false
    case ListProviders => false
    case ListAccounts => false
    case RetireDuplicates(_, _) => false
    case AddAccount(p, _) => e.Duplicate? || e.Storage? || e == UnknownProvider(p)
    case ShowAccount(a) => e == Missing(a)
    case SetLabel(a, _) => e.Duplicate? || e.Storage? || e == Missing(a)
    case RemoveAccount(a) => e.Cancelled? || e.Storage? || e == Missing(a)
    case StartAuth(p, a, _) => AuthRefusal(p, a, e)
    case CompleteAuth(p, a, _, _, _) => AuthRefusal(p, a, e)
    case AuthStatus(p, a) => AuthRefusal(p, a, e)
    case Logout(p, a) => AuthRefusal(p, a, e)
    case Probe(a) => e == Missing(a) || !(e.Missing? || e.Duplicate? || e.OtherRefusal?)
  }

  /** `Session::call_with`: what a caller sees of whatever the socket brought back. */
  function Judge(c: Command, w: Wire): (r: Result<Reply, Failure>)
    ensures Credible(Exchange(c, r))
  {
    match w
    case Silent => Err(Transport)
    case Answered(sound, reply) =>
      if !sound then Err(Transport) else
      match reply
      case Mismatch => Err(Transport)
      case Refused(e) => if AcceptsRefusal(c, e) then Err(Control(e)) else Err(Transport)
      case _ => if Accepts(c, reply) then Ok(reply) else Err(Transport)
  }

  predicate Credible(e: Exchange) {
    match e.outcome
    case Ok(reply) => Accepts(e.command, reply)
    case Err(Control(refusal)) => AcceptsRefusal(e.command, refusal)
    case Err(Transport) => true
  }

  /** Which commands a reply can answer, reply by reply. */
  lemma AcceptsIff(c: Command, r: Reply)
    ensures Accepts(c, r) <==>
              match r
              case Status => c == DaemonStatus
              case Providers(ps) => c == ListProviders && DistinctProviders(ps)
              case Accounts(accounts) => (c == ListAccounts || c.RetireDuplicates?) && DistinctAccounts(accounts)
              case AccountIs(x) =>
                || (x.enabled && x.name.Some? && c == AddAccount(x.provider, x.name.value))
                || c == ShowAccount(x.id)
                || (x.name.Some? && c == SetLabel(x.id, x.name.value))
              case Challenged(_) => c.StartAuth?
              case State(_) => c.CompleteAuth? || c.AuthStatus?
              case Probed(subject) => c == Probe(subject)
              case Ack => c.RemoveAccount? || c.Logout?
              case _ => false
  {
  }

  predicate AboutSignIn(c: Command) {
    c.StartAuth? || c.CompleteAuth? || c.AuthStatus? || c.Logout?
  }

  /** Which commands a refusal can answer, refusal by refusal; a probe can meet any other than a wrong account's. */
  lemma AcceptsRefusalIff(c: Command, e: Refusal)
    ensures AcceptsRefusal(c, e) <==>
              match e
              case Duplicate => c.AddAccount? || c.SetLabel?
              case Storage => c.AddAccount? || c.SetLabel? || c.RemoveAccount? || c.Probe?
              case Cancelled => c.RemoveAccount? || c.Probe?
              case Missing(a) =>
                (c.ShowAccount? || c.SetLabel? || c.RemoveAccount? || c.Probe? || AboutSignIn(c)) && c.account == a
              case UnknownProvider(p) => ((c.AddAccount? || AboutSignIn(c)) && c.provider == p) || c.Probe?
              case InstanceError(p) => (AboutSignIn(c) && c.provider == p) || c.Probe?
              case RateLimited => AboutSignIn(c) || c.Probe?
              case NetworkFailure => AboutSignIn(c) || c.Probe?
              case OtherProviderError => AboutSignIn(c) || c.Probe?
              case OtherRefusal => false
              case _ => c.Probe?
  {
  }

  /** A caller sees a reply, or a refusal, exactly if it came whole and fits the command; all else is one failure. */
  lemma JudgeIff(c: Command, w: Wire, r: Reply, e: Refusal)
    ensures Judge(c, w) == Ok(r) <==> w == Answered(true, r) && Accepts(c, r)
    ensures Judge(c, w) == Err(Control(e)) <==> w == Answered(true, Refused(e)) && AcceptsRefusal(c, e)
  {
  }

  // ---- The law of the trace ----

  predicate Answer(e: Exchange, s: AuthState) {
    e.outcome == Ok(State(s))
  }

  predicate SignedIn(e: Exchange) {
    e.outcome.Ok? && e.outcome.value.State? && e.outcome.value.state.Authenticated?
  }

  predicate SignedOut(e: Exchange) {
    e.outcome.Ok? && e.outcome.value.State? && !e.outcome.value.state.Authenticated?
  }

  /** The provider says the flow is complete. */
  predicate Completing(e: Exchange) {
    e.command.CompleteAuth? && SignedIn(e)
  }

  /** A poll that leaves the flow open. */
  predicate Unsettled(e: Exchange) {
    && e.command.CompleteAuth? && e.command.code.None?
    && (Answer(e, Pending) || e.outcome == Err(Control(RateLimited)) || e.outcome == Err(Control(NetworkFailure)))
  }

  /** What is polled again: an empty completion answered with pending, or refused for its rate or the network. */
  lemma UnsettledIff(e: Exchange)
    ensures Unsettled(e) <==>
              (e.command.CompleteAuth? && e.command.code == None
               && match e.outcome
                  case Ok(State(Pending)) => true
                  case Err(Control(NetworkFailure)) => true
                  case Err(Control(RateLimited)) => true
                  case _ => false)
  {
  }

  /** The account this login is about: the one it created, or the one it starts on. */
  function Target(t: Trace): Option<(string, string)> {
    if |t| < 4 then None else
    match t[3].command
    case AddAccount(p, _) =>
      if t[3].outcome.Ok? && t[3].outcome.value.AccountIs? then Some((p, t[3].outcome.value.account.id)) else None
    case StartAuth(p, a, _) => Some((p, a))
    case _ => None
  }

  predicate Created(t: Trace) {
    |t| >= 4 && t[3].command.AddAccount? && Target(t).Some?
  }

  /** The last request reads the status of an account that is about to be given up, or gives it up. */
  predicate Disposing(t: Trace) {
    && |t| >= 4
    && var last := t[|t| - 1];
    last.command.Logout? || last.command.RemoveAccount? || (last.command.AuthStatus? && !Completing(t[|t| - 2]))
  }

  /** What the driver owes after the exchanges `prev` and `last`. */
  function Owed(prev: Exchange, last: Exchange): Option<Command> {
    match last.command
    case CompleteAuth(p, a, _, _, _) => if SignedIn(last) then Some(AuthStatus(p, a)) else None
    case AuthStatus(p, a) =>
      if SignedIn(last) && Completing(prev) then Some(Probe(a))
      else if SignedOut(last) && !Completing(prev) then Some(Logout(p, a))
      else None
    case Probe(a) =>
      if last.outcome.Ok? && prev.command.AuthStatus? then Some(RetireDuplicates(prev.command.provider, a)) else None
    case Logout(p, a) => if last.outcome.Ok? then Some(RemoveAccount(a)) else None
    case _ => None
  }

  function Demanded(t: Trace): Option<Command> {
    if |t| < 4 then None else Owed(t[|t| - 2], t[|t| - 1])
  }

  /** These are sent only when owed. */
  predicate OnDemand(c: Command) {
    c.Probe? || c.RetireDuplicates? || c.Logout? || c.RemoveAccount?
  }

  predicate Offered(t: Trace, p: string) {
    |t| >= 2 && t[1].outcome.Ok? && t[1].outcome.value.Providers? && Provider(p, true) in t[1].outcome.value.providers
  }

  function AccountsOf(p: string, accounts: seq<Account>): (own: seq<Account>)
    ensures forall a | a in own :: a in accounts && a.provider == p
    ensures forall a | a in accounts && a.provider == p :: a in own
  {
    if accounts == [] then []
    else (if accounts[0].provider == p then [accounts[0]] else []) + AccountsOf(p, accounts[1..])
  }

  /** The accounts of `p` this login saw. */
  function Seen(t: Trace, p: string): seq<Account> {
    if |t| >= 3 && t[2].outcome.Ok? && t[2].outcome.value.Accounts? then AccountsOf(p, t[2].outcome.value.accounts)
        else []
  }

  /** The label account `a` is known to carry before this login names it. */
  predicate Carries(t: Trace, p: string, a: string, name: string) {
    if Created(t) then t[3].outcome.value.account.name == Some(name)
    else exists acc :: acc in Seen(t, p) && acc.id == a && acc.name == Some(name)
  }

  ghost predicate FreshName(p: string, accounts: seq<Account>, name: string) {
    exists n: nat :: n <= |accounts| + 1 && FirstFree(p, accounts, n) && name == Candidate(p, n)
  }

  /** A value is sent to the provider only as answered: trimmed, not empty, with nothing unsafe in it. */
  predicate Sendable(code: Option<string>, redirect: Option<string>) {
    match code
    case None => redirect.None?
    case Some(v) => v != "" && Trimmed(v) && !AnyUnsafe(v) && redirect == CallbackOrigin(v)
  }

  /** This completion answers the challenge just started, or polls it once more. */
  predicate Continues(last: Exchange, p: string, a: string, flow: string, code: Option<string>) {
    || (&& last.command.StartAuth? && last.command.provider == p && last.command.account == a
        && last.outcome.Ok? && last.outcome.value.Challenged?
        && var ch := last.outcome.value.challenge;
        && ch.flow == flow
        && (ch.input.Some? ==> code.Some?)
        && (ch.input.None? && !ch.browser ==> code.None?))
    || (&& Unsettled(last) && last.command.provider == p && last.command.account == a
        && last.command.flow == flow && code.None?)
  }

  /**
   * A sign-in may start, or start over, after this: the daemon was reached, and nothing beyond verification was tried.
   */
  predicate SigningIn(e: Exchange) {
    && e.outcome != Err(Transport)
    && (e.command.AddAccount? || e.command.StartAuth? || e.command.CompleteAuth? || e.command.AuthStatus?)
  }

  /** Every sign-in was started with this method. */
  predicate OneMethod(t: Trace, how: Option<Method>) {
    forall i | 0 <= i < |t| && t[i].command.StartAuth? :: t[i].command.how == how
  }

  predicate AfterRetiring(e: Exchange) {
    e.command.Probe? || e.command.RetireDuplicates?
  }

  /** What may be sent once an account has been settled on. */
  predicate PermittedLater(t: Trace, p: string, a: string, c: Command)
    requires |t| >= 4
  {
    var last := t[|t| - 1];
    match c
    case StartAuth(p', a', how) => p' == p && a' == a && SigningIn(last) && !Disposing(t) && OneMethod(t, how)
    case CompleteAuth(p', a', flow, code, redirect) =>
      p' == p && a' == a && Continues(last, p, a, flow, code) && Sendable(code, redirect)
    case AuthStatus(p', a') => p' == p && a' == a && (Completing(last) || (Created(t) && !Disposing(t)))
    case SetLabel(a', name) =>
      && a' == a
      && ((AfterRetiring(last) && !Carries(t, p, a, name))
         || (last.command.SetLabel? && last.outcome == Err(Control(Duplicate))))
    case ShowAccount(a') => a' == a && AfterRetiring(last)
    case _ => OnDemand(c) && Demanded(t) == Some(c)
  }

  /** What may be sent next after a trace. */
  ghost predicate Permitted(t: Trace, c: Command) {
    if |t| == 0 then c.DaemonStatus?
    else if |t| == 1 then c.ListProviders? && t[0].outcome.Ok?
    else if |t| == 2 then c.ListAccounts? && t[1].outcome.Ok?
    else if |t| == 3 then
      && t[2].outcome.Ok?
      && match c
         case AddAccount(p, name) => Offered(t, p) && FreshName(p, Seen(t, p), name)
         case StartAuth(p, a, _) => Offered(t, p) && exists acc :: acc in Seen(t, p) && acc.id == a
         case _ => false
    else
      && Target(t).Some?
      && (Demanded(t).Some? ==> c == Demanded(t).value)
      && PermittedLater(t, Target(t).value.0, Target(t).value.1, c)
  }

  /** Every request was permitted by what came before it, and every answer is one the driver would believe. */
  ghost predicate Lawful(t: Trace) {
    t == [] || (var n := |t| - 1; Lawful(t[..n]) && Permitted(t[..n], t[n].command) && Credible(t[n]))
  }

  lemma Extend(t: Trace, e: Exchange)
    requires Lawful(t) && Permitted(t, e.command) && Credible(e)
    ensures Lawful(t + [e])
  {
    assert (t + [e])[..|t|] == t;
  }

  // ---- Callback values ----

  predicate Stops(c: char) {
    c == '?' || c == '#'
  }

  function FirstStop(s: string): (n: nat)
    ensures n <= |s| && (forall i | 0 <= i < n :: !Stops(s[i])) && (n < |s| ==> Stops(s[n]))
  {
    if s == "" || Stops(s[0]) then 0 else 1 + FirstStop(s[1..])
  }

  const HTTP := "http://"
  const HTTPS := "https://"

  /** `callback_origin`. */
  function CallbackOrigin(v: string): Option<string> {
    if HTTP <= v then
      var n := FirstStop(v[|HTTP|..]);
      if n == 0 then None else Some(HTTP + v[|HTTP|..][..n])
    else if HTTPS <= v then
      var n := FirstStop(v[|HTTPS|..]);
      if n == 0 then None else Some(HTTPS + v[|HTTPS|..][..n])
    else None
  }

  predicate OriginWith(scheme: string, v: string, o: string) {
    && scheme <= o <= v && |o| > |scheme|
    && (forall i | |scheme| <= i < |o| :: !Stops(o[i]))
    && (|o| < |v| ==> Stops(v[|o|]))
  }

  /** A redirect origin is the part of a web address before its query and fragment, and only a web address has one. */
  lemma CallbackOriginIff(v: string, o: string)
    ensures CallbackOrigin(v) == Some(o) <==> OriginWith("http://", v, o) || OriginWith("https://", v, o)
  {
    assert HTTP[4] != HTTPS[4];
    if HTTP <= v {
      OriginOf(HTTP, v, o);
    } else if HTTPS <= v {
      OriginOf(HTTPS, v, o);
    }
  }

  lemma OriginOf(scheme: string, v: string, o: string)
    requires scheme <= v
    ensures var n := FirstStop(v[|scheme|..]); OriginWith(scheme, v, o) <==> n > 0 && o == scheme + v[|scheme|..][..n]
  {
    var rest := v[|scheme|..];
    var n := FirstStop(rest);
    assert scheme + rest[..n] == v[..|scheme| + n];
    if OriginWith(scheme, v, o) {
      var k := |o| - |scheme|;
      assert forall i | 0 <= i < k :: rest[i] == o[|scheme| + i];
      assert k < |rest| ==> rest[k] == v[|o|];
      assert k == n;
      assert o == v[..|o|];
    }
    if n > 0 && o == scheme + rest[..n] {
      assert forall i | |scheme| <= i < |o| :: o[i] == rest[i - |scheme|];
      assert |o| < |v| ==> v[|o|] == rest[n];
    }
  }

  // ---- The driver ----

  datatype FlowKind = Unsupported | RegistryError | TimedOut | AuthenticationInvalid | AuthenticationPending

  datatype LoginError = CallFailed(failure: Failure) | Aborted | Flow(kind: FlowKind) | EchoUnavailable

  predicate Retryable(e: LoginError) {
    e.Flow? || (e.CallFailed? && e.failure.Control?)
  }

  /** Nothing is retried after an answer that ends the login, or when the daemon could not be reached. */
  lemma RetryableIff(e: LoginError)
    ensures Retryable(e) <==> e != Aborted && e != EchoUnavailable && e != CallFailed(Transport)
  {
  }

  const MAXIMUM_ATTEMPTS := 5
  const DEVICE_POLL_INTERVAL := 5
  const DEVICE_POLL_LIMIT := 60
  const DEVICE_POLL_DURATION_LIMIT := 900

  /** The candidates a person may choose from. */
  function Selectable(ps: seq<Provider>): (r: seq<Provider>)
    ensures forall p | p in r :: p in ps && p.authenticates
  {
    if ps == [] then [] else (if ps[0].authenticates then [ps[0]] else []) + Selectable(ps[1..])
  }

  /** The candidates are the providers that authenticate, in the order listed. */
  lemma {:induction false} SelectableSplits(p: Provider, ps: seq<Provider>, qs: seq<Provider>)
    ensures Selectable([p]) == if p.authenticates then [p] else []
    ensures Selectable(ps + qs) == Selectable(ps) + Selectable(qs)
  {
    if ps == [] {
      assert ps + qs == qs;
    } else {
      assert (ps + qs)[1..] == ps[1..] + qs;
      SelectableSplits(p, ps[1..], qs);
    }
  }

  lemma {:induction false} AccountsSplit(id: string, a: Account, xs: seq<Account>, ys: seq<Account>)
    ensures AccountsOf(id, [a]) == if a.provider == id then [a] else []
    ensures AccountsOf(id, xs + ys) == AccountsOf(id, xs) + AccountsOf(id, ys)
  {
    if xs == [] {
      assert xs + ys == ys;
    } else {
      assert (xs + ys)[1..] == xs[1..] + ys;
      AccountsSplit(id, a, xs[1..], ys);
    }
  }

  function WithId(ps: seq<Provider>, id: string): (r: Option<Provider>)
    ensures r.Some? ==> r.value in ps && r.value.id == id
    ensures r.None? ==> forall p | p in ps :: p.id != id
  {
    if ps == [] then None else if ps[0].id == id then Some(ps[0]) else WithId(ps[1..], id)
  }

  /** The provider settled on, if any, and the answers left. */
  function ProviderPick(ps: seq<Provider>, hint: Option<string>, answers: seq<Input>)
    : (Result<Provider, LoginError>, seq<Input>)
  {
    var own := Selectable(ps);
    if own == [] then (Err(Flow(Unsupported)), answers)
    else if hint.Some? then
      var found := WithId(own, hint.value);
      (if found.Some? then Ok(found.value) else Err(Flow(RegistryError)), answers)
    else if |own| == 1 then (Ok(own[0]), answers)
    else
      var (index, rest) := Menu(answers, |own|, 0, 5);
      (if index.Some? then Ok(own[index.value]) else Err(Aborted), rest)
  }

  /** A provider named on the command line is used exactly if it is listed and authenticates; nobody is asked. */
  lemma HintedProvider(ps: seq<Provider>, id: string, p: Provider, answers: seq<Input>)
    requires DistinctProviders(ps)
    ensures ProviderPick(ps, Some(id), answers).0 == Ok(p) <==> p in ps && p.id == id && p.authenticates
    ensures ProviderPick(ps, Some(id), answers).1 == answers
  {
    SelectableHas(ps, p);
  }

  lemma {:induction false} SelectableHas(ps: seq<Provider>, p: Provider)
    ensures p in Selectable(ps) <==> p in ps && p.authenticates
  {
    if ps != [] {
      SelectableHas(ps[1..], p);
      assert ps == [ps[0]] + ps[1..];
    }
  }

  /** With no name given, a single candidate is used unasked, and of several the one whose number is typed. */
  lemma TypedProvider(ps: seq<Provider>, index: nat, rest: seq<Input>)
    requires index < |Selectable(ps)| <= LARGEST_USIZE
    ensures |Selectable(ps)| == 1 ==> ProviderPick(ps, None, rest) == (Ok(Selectable(ps)[0]), rest)
    ensures |Selectable(ps)| > 1 ==>
              ProviderPick(ps, None, [Typed(Decimal(index + 1))] + rest) == (Ok(Selectable(ps)[index]), rest)
  {
    PrintedNumberPicks(index, rest, |Selectable(ps)|, 0, 5);
  }

  /** The entry chosen, 0 for a new account, if any, and the answers left. */
  function AccountPick(own: seq<Account>, answers: seq<Input>): (r: (Option<nat>, seq<Input>))
    ensures r.0.Some? ==> r.0.value <= |own|
  {
    if own == [] then (Some(0), answers) else Menu(answers, |own| + 1, 0, 5)
  }

  predicate Blank(name: Option<string>) {
    name.None? || Trim(name.value) == ""
  }

  /** The name proposed first: what the provider reports for a new account, what an old account already carries. */
  function DefaultName(created: bool, reported: Option<string>, current: Option<string>, fallback: string): string {
    if created then
      if !Blank(reported) then reported.value else if current.Some? then current.value else fallback
    else
      if !Blank(current) then current.value else if !Blank(reported) then reported.value else fallback
  }

  /** A name with something in it comes first: of a new account the reported one, of an old one the one it carries. */
  lemma DefaultNameIs(reported: string, current: string, fallback: string)
    ensures Trim(reported) != "" ==> DefaultName(true, Some(reported), Some(current), fallback) == reported
    ensures Trim(reported) != "" ==> DefaultName(true, Some(reported), None, fallback) == reported
    ensures Trim(reported) == "" ==> DefaultName(true, Some(reported), Some(current), fallback) == current
    ensures Trim(reported) == "" ==> DefaultName(true, Some(reported), None, fallback) == fallback
    ensures DefaultName(true, None, Some(current), fallback) == current
    ensures DefaultName(true, None, None, fallback) == fallback
    ensures Trim(current) != "" ==> DefaultName(false, Some(reported), Some(current), fallback) == current
    ensures Trim(current) != "" ==> DefaultName(false, None, Some(current), fallback) == current
    ensures Trim(current) == "" && Trim(reported) != "" ==>
              DefaultName(false, Some(reported), Some(current), fallback) == reported
    ensures Trim(current) == "" ==> DefaultName(false, None, Some(current), fallback) == fallback
    ensures Trim(reported) != "" ==> DefaultName(false, Some(reported), None, fallback) == reported
    ensures Trim(reported) == "" && Trim(current) == "" ==>
              DefaultName(false, Some(reported), Some(current), fallback) == fallback
    ensures Trim(reported) == "" ==> DefaultName(false, Some(reported), None, fallback) == fallback
    ensures DefaultName(false, None, None, fallback) == fallback
  {
  }

  /** How many explicit yes answers are still to come. */
  function Agreements(answers: seq<Input>): nat {
    if answers == [] then 0 else (if Agrees(answers[0]) then 1 else 0) + Agreements(answers[1..])
  }

  /** How many times a sign-in was started. */
  function Starts(t: Trace): nat {
    if t == [] then 0 else Starts(t[..|t| - 1]) + if t[|t| - 1].command.StartAuth? then 1 else 0
  }

  lemma StartsExtend(t: Trace, e: Exchange)
    ensures Starts(t + [e]) == Starts(t) + if e.command.StartAuth? then 1 else 0
  {
    assert (t + [e])[..|t|] == t;
  }

  /** Nothing is owed and the account has not been given up. */
  predicate Open(t: Trace) {
    Demanded(t).None? && !Disposing(t)
  }

  /** A sign-in on account `a` of `p` may start, or start over. */
  predicate MayStart(t: Trace, p: string, a: string) {
    if |t| == 3 then t[2].outcome.Ok? && Offered(t, p) && exists acc :: acc in Seen(t, p) && acc.id == a
    else |t| > 3 && Target(t) == Some((p, a)) && SigningIn(t[|t| - 1]) && Open(t)
  }

  predicate SignInCommand(c: Command) {
    c.StartAuth? || c.CompleteAuth? || c.AuthStatus?
  }

  /** A sign-in attempt that failed: it may start over exactly if the failure is worth retrying. */
  predicate Stopped(t: Trace, p: string, a: string, e: LoginError) {
    && |t| > 3 && SignInCommand(t[|t| - 1].command) && Target(t) == Some((p, a)) && Open(t) && !Completing(t[|t| - 1])
    && (Retryable(e) ==> MayStart(t, p, a))
  }

  /** `current` is the label the account is known to carry. */
  ghost predicate Known(t: Trace, p: string, a: string, current: Option<string>) {
    forall name :: Carries(t, p, a, name) ==> current == Some(name)
  }

  /** What has been settled stays settled as the trace grows. */
  lemma Settled(t: Trace, u: Trace, p: string, a: string, current: Option<string>)
    requires 3 <= |t| < |u| && t <= u && Known(t, p, a, current)
    requires |t| == 3 ==> u[3].command.StartAuth?
    ensures Created(u) == Created(t) && Known(u, p, a, current)
    ensures |t| > 3 ==> Target(u) == Target(t)
  {
    assert u[2] == t[2];
    assert Seen(u, p) == Seen(t, p);
    if |t| > 3 { assert u[3] == t[3]; }
  }

  /** A poll that failed, or left the flow open, owes nothing and may be followed by a fresh start. */
  lemma Polled(t: Trace, e: Exchange, p: string, a: string, flow: string)
    requires |t| >= 4 && Permitted(t, e.command) && e.command == CompleteAuth(p, a, flow, None, None) && !SignedIn(e)
    ensures Open(t + [e]) && Target(t + [e]) == Some((p, a))
        && (e.outcome != Err(Transport) ==> MayStart(t + [e], p, a))
    ensures Unsettled(e) ==> Permitted(t + [e], e.command)
  {
    var u := t + [e];
    assert u[3] == t[3] && Target(u) == Target(t);
    assert u[|u| - 1] == e;
  }

  /**
   * From exchange `i` to the end an account is given up: its status, its logout if that says it holds no sign-in, and
   * its removal if the logout was acknowledged.
   */
  predicate GivenUp(t: Trace, i: nat, p: string, a: string) {
    && i < |t| && t[i].command == AuthStatus(p, a)
    && if t[i].outcome.Err? || SignedIn(t[i]) then |t| == i + 1 else
       && |t| > i + 1 && t[i + 1].command == Logout(p, a)
       && if t[i + 1].outcome.Err? then |t| == i + 2 else |t| == i + 3 && t[i + 2].command == RemoveAccount(a)
  }

  /** The error a last exchange that did not sign in stands for. */
  function FailureOf(e: Exchange): LoginError {
    match e.outcome
    case Err(failure) => CallFailed(failure)
    case Ok(State(Pending)) => Flow(if e.command.CompleteAuth? then AuthenticationPending else AuthenticationInvalid)
    case Ok(_) => Flow(AuthenticationInvalid)
  }

  lemma FailureOfIs(c: Command, state: AuthState, f: Failure)
    ensures FailureOf(Exchange(c, Err(f))) == CallFailed(f)
    ensures c.CompleteAuth? ==> FailureOf(Exchange(c, Ok(State(Pending)))) == Flow(AuthenticationPending)
    ensures !c.CompleteAuth? || state != Pending ==>
              FailureOf(Exchange(c, Ok(State(state)))) == Flow(AuthenticationInvalid)
  {
  }

  /** The first completion of challenge `ch`: what was pasted with its redirect, or an empty poll. */
  predicate Completes(c: Command, p: string, a: string, ch: Challenge, answers: seq<Input>) {
    match Pasted(ch.input, ch.browser, answers)
    case Send(code) => c == CompleteAuth(p, a, ch.flow, Some(code), CallbackOrigin(code))
    case Poll => c == CompleteAuth(p, a, ch.flow, None, None)
    case _ => false
  }

  /** Account `a` is named by what `read` answers to the proposal, or shown if that is its name already. */
  predicate NamedFrom(t: Trace, i: nat, a: string, current: Option<string>, proposed: string, read: seq<Input>) {
    match LabelRead(read, proposed, 5).0
    case None => |t| == i
    case Some(name) => i < |t| && t[i].command == if current == Some(name) then ShowAccount(a) else SetLabel(a, name)
  }

  /**
   * One attempt to sign in, from exchange `i` on: what was asked and sent after the challenge, and what is reported of
   * the exchange it ended with.
   */
  predicate AttemptFrom(t: Trace, i: nat, p: string, a: string, answers: seq<Input>, later: seq<Input>,
                        r: Result<Option<string>, LoginError>)
  {
    && i < |t|
    && if t[i].outcome.Err? then |t| == i + 1 && later == answers && r == Err(CallFailed(t[i].outcome.error)) else
       && t[i].outcome.value.Challenged? && later == Rest(answers)
       && var ch := t[i].outcome.value.challenge;
       && (|t| > i + 1 ==> Completes(t[i + 1].command, p, a, ch, answers))
       && (Pasted(ch.input, ch.browser, answers) == Abandon ==> |t| == i + 1 && r == Err(Aborted))
       && (Pasted(ch.input, ch.browser, answers) == NoHiding ==> |t| == i + 1 && r == Err(EchoUnavailable))
       && (Pasted(ch.input, ch.browser, answers).Send? ==> |t| > i + 1 && r != Err(Flow(TimedOut)))
       && (r.Err? && |t| > i + 1 && r.error != Flow(TimedOut) ==> r.error == FailureOf(t[|t| - 1]))
  }

  lemma AttemptReads(t: Trace, i: nat, p: string, a: string, answers: seq<Input>, later: seq<Input>,
                     r: Result<Option<string>, LoginError>)
    requires AttemptFrom(t, i, p, a, answers, later, r)
    ensures Suffix(later, answers)
  {
    hide Completes, Pasted, FailureOf;
  }

  lemma MayPermit(t: Trace, p: string, a: string, how: Option<Method>)
    requires |t| >= 3 && MayStart(t, p, a) && OneMethod(t, how)
    ensures Permitted(t, StartAuth(p, a, how))
  {
  }

  lemma JustStarted(t: Trace, u: Trace, p: string, a: string, how: Option<Method>)
    requires |t| >= 3 && MayStart(t, p, a) && OneMethod(t, how)
    requires t <= u && |u| == |t| + 1 && u[|t|].command == StartAuth(p, a, how)
    ensures Target(u) == Some((p, a)) && OneMethod(u, how)
    ensures u[|t|].outcome.Err? ==> Stopped(u, p, a, CallFailed(u[|t|].outcome.error))
  {
    hide Offered, Seen, OneMethod;
    StillOneMethod(t, u, how);
    if |t| > 3 { assert u[3] == t[3]; }
  }

  lemma StillOneMethod(t: Trace, u: Trace, how: Option<Method>)
    requires OneMethod(t, how) && t <= u && |u| == |t| + 1
    requires u[|t|].command.StartAuth? ==> u[|t|].command.how == how
    ensures OneMethod(u, how)
  {
  }

  lemma TargetStays(t: Trace, u: Trace)
    requires 4 <= |t| && t <= u
    ensures Target(u) == Target(t)
  {
    assert u[3] == t[3];
  }

  /** What follows from the provider's decision. */
  lemma Decided(t: Trace, p: string, a: string, s: AuthState)
    requires |t| > 4 && Target(t) == Some((p, a)) && Answer(t[|t| - 1], s) && t[|t| - 1].command.CompleteAuth?
    requires t[|t| - 1].command.provider == p && t[|t| - 1].command.account == a
    ensures s.Authenticated? ==> Completing(t[|t| - 1]) && Demanded(t) == Some(AuthStatus(p, a))
    ensures !s.Authenticated? ==>
              Stopped(t, p, a, Flow(AuthenticationPending)) && Stopped(t, p, a, Flow(AuthenticationInvalid))
  {
  }

  /** What naming returns after its last exchange. */
  predicate NamingEnds(outcome: Result<Reply, Failure>, r: Result<Account, LoginError>) {
    match outcome
    case Ok(reply) => reply.AccountIs? && r == Ok(reply.account)
    case Err(failure) => r == Err(if failure == Control(Duplicate) then Aborted else CallFailed(failure))
  }

  /**
   * From exchange `i` on, account `a` is named `chosen`, and after each refusal of a name as taken what the person
   * answers next; `tries` are the answers ahead at each of these requests.
   */
  ghost predicate Renames(t: Trace, i: nat, a: string, chosen: string, answers: seq<Input>, tries: seq<seq<Input>>) {
    && |tries| >= 1 && |t| == i + |tries| && t[i].command == SetLabel(a, chosen) && tries[0] == answers
    && (forall j | i <= j < |t| :: t[j].command.SetLabel? && t[j].command.account == a)
    && (forall j | i < j < |t| :: Renamed(t[j - 1], t[j], tries[j - 1 - i], tries[j - i]))
  }

  /** The name was taken, and the next one asked for is what the person answered. */
  predicate Renamed(e: Exchange, next: Exchange, answers: seq<Input>, later: seq<Input>)
    requires e.command.SetLabel? && next.command.SetLabel?
  {
    && e.outcome == Err(Control(Duplicate))
    && LabelRead(answers, e.command.name, 5) == (Some(next.command.name), later)
  }

  ghost predicate AboutToName(t: Trace, i: nat, a: string, chosen: string, start: seq<Input>, tries: seq<seq<Input>>,
                              name: string, answers: seq<Input>)
  {
    if tries == [] then |t| == i && name == chosen && answers == start else
    && Renames(t, i, a, chosen, start, tries) && t[|t| - 1].outcome == Err(Control(Duplicate))
    && t[|t| - 1].command.SetLabel?
    && LabelRead(tries[|tries| - 1], t[|t| - 1].command.name, 5) == (Some(name), answers)
  }

  lemma OneMoreName(t: Trace, u: Trace, i: nat, a: string, chosen: string, start: seq<Input>, tries: seq<seq<Input>>,
                    name: string, answers: seq<Input>)
    requires AboutToName(t, i, a, chosen, start, tries, name, answers)
    requires t <= u && |u| == |t| + 1 && u[|t|].command == SetLabel(a, name)
    ensures Renames(u, i, a, chosen, start, tries + [answers])
  {
    hide LabelRead;
    forall j | i <= j < |t| ensures u[j] == t[j] {
    }
  }

  lemma TargetLong(t: Trace)
    requires Target(t).Some?
    ensures |t| > 3
  {
  }

  lemma NamedOnce(t: Trace, u: Trace, p: string, a: string)
    requires |t| > 3 && Target(t) == Some((p, a)) && t <= u && |u| == |t| + 1
    requires u[|t|].command.SetLabel? && u[|t|].command.account == a
    ensures Target(u) == Some((p, a)) && Open(u)
    ensures u[|t|].outcome == Err(Control(Duplicate)) ==> forall name :: Permitted(u, SetLabel(a, name))
  {
    assert u[3] == t[3];
  }

  /**
   * The sign-in was verified at `v` and duplicates retired; then the account was named as `read` answers to the default
   * name for what the provider reported, what the account carried and the first free name.
   */
  ghost predicate NamedAfter(t: Trace, v: nat, p: string, a: string, created: bool, current: Option<string>,
                             accounts: seq<Account>, read: seq<Input>)
  {
    && 0 < v && v + 1 < |t|
    && Completing(t[v - 1]) && t[v].command == AuthStatus(p, a) && SignedIn(t[v]) && t[v + 1].command == Probe(a)
    && exists fallback :: FreshName(p, accounts, fallback) &&
         var proposed := DefaultName(created, t[v - 1].outcome.value.state.name, current, fallback);
         NamedFrom(t, v + if t[v + 1].outcome.Ok? then 3 else 2, a, current, proposed, read)
  }

  /** The name account `a` carried before this login named it. */
  predicate Carried(t: Trace, p: string, a: string, current: Option<string>) {
    if Created(t) then t[3].outcome.value.account.name == current
    else exists acc :: acc in Seen(t, p) && acc.id == a && acc.name == current
  }

  ghost predicate NamedAsAnswered(t: Trace, p: string, answers: seq<Input>) {
    && Target(t).Some?
    && exists v: nat, read: seq<Input>, current: Option<string> ::
         && NamedAfter(t, v, p, Target(t).value.1, Created(t), current, Seen(t, p), read)
         && Carried(t, p, Target(t).value.1, current) && Suffix(read, answers)
  }

  lemma Named(t: Trace, v: nat, p: string, a: string, current: Option<string>, read: seq<Input>, answers: seq<Input>)
    requires Target(t) == Some((p, a)) && Carried(t, p, a, current) && Suffix(read, answers)
    requires NamedAfter(t, v, p, a, Created(t), current, Seen(t, p), read)
    ensures NamedAsAnswered(t, p, answers)
  {
    hide NamedAfter;
  }

  lemma StoppedOpen(t: Trace, p: string, a: string, e: LoginError)
    requires Stopped(t, p, a, e)
    ensures Open(t) && SignInCommand(t[|t| - 1].command)
  {
  }

  /** A verified sign-in leaves the probe to be sent. */
  lemma SignInVerified(t: Trace, u: Trace, p: string, a: string, current: Option<string>)
    requires 3 <= |t| < |u| && t <= u && Known(t, p, a, current) && (|t| == 3 ==> u[3].command.StartAuth?)
    requires Demanded(u) == Some(Probe(a)) && u[|u| - 1].command == AuthStatus(p, a)
    ensures |u| > 4 && Completing(u[|u| - 2]) && SignedIn(u[|u| - 1]) && Known(u, p, a, current)
    ensures u[|u| - 2].command.CompleteAuth?
  {
    Settled(t, u, p, a, current);
  }

  lemma SettledStays(t: Trace, u: Trace, p: string, a: string, current: Option<string>)
    requires 3 < |t| < |u| && t <= u && Known(t, p, a, current)
    ensures Known(u, p, a, current) && Target(u) == Target(t) && Created(u) == Created(t)
  {
    Settled(t, u, p, a, current);
  }

  lemma NamedLast(t: Trace, a: string, r: Result<Account, LoginError>)
    requires t != [] && (r == Err(Aborted) || NamingEnds(t[|t| - 1].outcome, r))
    ensures r.Ok? ==> t[|t| - 1].outcome == Ok(AccountIs(r.value))
  {
  }

  lemma ListedKnown(t: Trace, p: string, account: Account)
    requires Lawful(t) && |t| == 3 && t[2].outcome.Ok? && account in Seen(t, p)
    ensures Known(t, p, account.id, account.name)
  {
  }

  lemma ProposalNamed(t: Trace, v: nat, p: string, a: string, created: bool, current: Option<string>,
                      accounts: seq<Account>, read: seq<Input>, reported: Option<string>, fallback: string)
    requires 0 < v && v + 1 < |t| && t[v - 1].command.CompleteAuth? && Answer(t[v - 1], Authenticated(reported))
    requires t[v].command == AuthStatus(p, a) && SignedIn(t[v]) && t[v + 1].command == Probe(a)
    requires FreshName(p, accounts, fallback)
    requires NamedFrom(t, v + if t[v + 1].outcome.Ok? then 3 else 2, a, current,
                       DefaultName(created, reported, current, fallback), read)
    ensures NamedAfter(t, v, p, a, created, current, accounts, read)
  {
    hide DefaultName, NamedFrom;
  }

  lemma NoNewStarts(t: Trace, u: Trace, how: Option<Method>)
    requires t <= u && OneMethod(t, how) && Starts(u) == Starts(t)
    ensures OneMethod(u, how)
    decreases |u|
  {
    if |t| < |u| {
      var n := |u| - 1;
      StartsGrow(t, u[..n]);
      NoNewStarts(t, u[..n], how);
    }
  }

  lemma {:induction false} StartsGrow(t: Trace, u: Trace)
    requires t <= u
    ensures Starts(t) <= Starts(u)
    decreases |u|
  {
    if |t| < |u| {
      StartsGrow(t, u[..|u| - 1]);
    } else {
      assert t == u;
    }
  }

  /** Each of these exchanges was a poll that left the flow open. */
  ghost predicate AllOpen(t: Trace, from: nat, to: int) {
    forall i | from <= i < to && i < |t| :: Unsettled(t[i])
  }

  lemma OpenToTheLast(t: Trace, from: nat)
    requires AllOpen(t, from, |t|)
    ensures AllOpen(t, from, |t| - 1) && (|t| > from ==> Unsettled(t[|t| - 1]))
  {
    hide Unsettled;
  }

  lemma StillOpen(t: Trace, u: Trace, from: nat)
    requires AllOpen(t, from, |t|) && t <= u && |u| == |t| + 1
    ensures AllOpen(u, from, |t|) && (Unsettled(u[|t|]) ==> AllOpen(u, from, |u|))
  {
    hide Unsettled;
  }

  class Session {
    const daemon: (Trace, Command) -> Wire
    /** Seconds on a wall clock that may jump, and how long each call takes on a clock that does not. */
    const wall: nat -> int
    const latency: nat -> nat
    var now: nat
    var answers: seq<Input>
    var trace: Trace

    constructor (daemon: (Trace, Command) -> Wire, wall: nat -> int, latency: nat -> nat, answers: seq<Input>)
      ensures trace == [] && this.answers == answers
    {
      this.daemon, this.wall, this.latency, this.answers := daemon, wall, latency, answers;
      trace, now := [], 0;
    }

    method Call(c: Command) returns (r: Result<Reply, Failure>)
      modifies this`trace, this`now
      ensures r == Judge(c, daemon(old(trace), c)) && trace == old(trace) + [Exchange(c, r)]
      ensures now == old(now) + latency(|old(trace)|)
      ensures Starts(trace) == Starts(old(trace)) + if c.StartAuth? then 1 else 0
      ensures |old(trace)| >= 4 ==>
                && Target(trace) == Target(old(trace)) && Created(trace) == Created(old(trace))
                && Demanded(trace) == Owed(old(trace)[|old(trace)| - 1], Exchange(c, r))
      ensures Lawful(old(trace)) && Permitted(old(trace), c) ==> Lawful(trace)
    {
      r := Judge(c, daemon(trace, c));
      if Lawful(trace) && Permitted(trace, c) {
        Extend(trace, Exchange(c, r));
      }
      StartsExtend(trace, Exchange(c, r));
      now := now + latency(|trace|);
      trace := trace + [Exchange(c, r)];
    }

    method Ask() returns (answer: Option<string>)
      modifies this`answers
      ensures answers == Rest(old(answers))
      ensures Agreements(old(answers)) == Agreements(answers) + if old(answers) != [] && Agrees(old(answers)[0]) then 1
          else 0
      ensures answer == if old(answers) != [] && old(answers)[0].Typed? then Some(old(answers)[0].text) else None
    {
      answer := None;
      if answers != [] {
        if answers[0].Typed? { answer := Some(answers[0].text); }
        answers := answers[1..];
      }
    }

    /** Asks without echo; a value comes back as typed. */
    method AskSecret() returns (value: Result<string, LoginError>)
      modifies this`answers
      ensures answers == Rest(old(answers)) && Agreements(answers) <= Agreements(old(answers))
      ensures value ==
              if Answers(old(answers)) then Ok(old(answers)[0].text)
              else if old(answers) != [] && old(answers)[0].NoEcho? then Err(EchoUnavailable)
              else Err(Aborted)
    {
      if answers != [] && answers[0].NoEcho? {
        answers := answers[1..];
        return Err(EchoUnavailable);
      }
      var answer := Ask();
      value := if answer.Some? then Ok(answer.value) else Err(Aborted);
    }

    /** `confirm`: only an explicit yes confirms a question whose default is no, and end of input never does. */
    method Confirm(default: bool) returns (yes: bool)
      modifies this`answers
      ensures answers == Rest(old(answers))
      ensures yes <==>
              Answers(old(answers)) && (Agrees(old(answers)[0]) || (default && Trim(old(answers)[0].text) == ""))
      ensures Agreements(old(answers)) ==
              Agreements(answers) + if old(answers) != [] && Agrees(old(answers)[0]) then 1 else 0
    {
      var answer := Ask();
      if answer.None? { return false; }
      var text := Lower(Trim(answer.value));
      yes := if text == "" then default else text == "y" || text == "yes";
    }

    /** `choose`: at most five tries, for the option of a printed number, or the default for a blank answer. */
    method Choose(count: nat, fallback: nat) returns (index: Option<nat>)
      requires fallback < count
      modifies this`answers
      ensures (index, answers) == Menu(old(answers), count, fallback, 5)
      ensures Suffix(answers, old(answers)) && Agreements(answers) <= Agreements(old(answers))
    {
      hide Trim, ParseNumber, Agrees;
      for k := 0 to MAXIMUM_ATTEMPTS
        invariant Menu(old(answers), count, fallback, 5) == Menu(answers, count, fallback, 5 - k)
        invariant Suffix(answers, old(answers)) && Agreements(answers) <= Agreements(old(answers))
      {
        var answer := Ask();
        if answer.None? { return None; }
        var text := Trim(answer.value);
        if text == "" { return Some(fallback); }
        var choice := ParseNumber(text);
        if choice.Some? && 1 <= choice.value <= count { return Some(choice.value - 1); }
      }
      return None;
    }

    /** `ask_label`: the default, or what was typed, trimmed, not empty and with nothing unsafe in it. */
    method AskLabel(default: string) returns (name: Result<string, LoginError>)
      modifies this`answers
      ensures var read := LabelRead(old(answers), default, 5);
        answers == read.1 && name == if read.0.Some? then Ok(read.0.value) else Err(Aborted)
      ensures Suffix(answers, old(answers)) && Agreements(answers) <= Agreements(old(answers))
    {
      hide Trim, AnyUnsafe, Agrees;
      for k := 0 to MAXIMUM_ATTEMPTS
        invariant LabelRead(old(answers), default, 5) == LabelRead(answers, default, 5 - k)
        invariant Suffix(answers, old(answers)) && Agreements(answers) <= Agreements(old(answers))
      {
        var answer := Ask();
        if answer.None? { return Err(Aborted); }
        var text := Trim(answer.value);
        if text == "" { return Ok(default); }
        if !AnyUnsafe(text) { return Ok(text); }
      }
      return Err(Aborted);
    }

    /** `select_provider`. */
    method SelectProvider(hint: Option<string>) returns (r: Result<Provider, LoginError>)
      requires Lawful(trace) && |trace| == 1 && trace[0].outcome.Ok?
      modifies this`trace, this`now, this`answers
      ensures Lawful(trace) && |trace| == 2 && trace[..1] == old(trace)
      ensures trace[1].outcome.Err? ==> r == Err(CallFailed(trace[1].outcome.error)) && answers == old(answers)
      ensures trace[1].outcome.Ok? ==>
                trace[1].outcome.value.Providers?
                && (r, answers) == ProviderPick(trace[1].outcome.value.providers, hint, old(answers))
      ensures r.Ok? ==> trace[1].outcome.Ok? && r.value.authenticates && Offered(trace, r.value.id)
      ensures r.Ok? && hint.Some? ==> r.value.id == hint.value
      ensures Starts(trace) == Starts(old(trace)) && Agreements(answers) <= Agreements(old(answers))
      ensures Suffix(answers, old(answers))
    {
      var reply := Call(ListProviders);
      if reply.Err? { return Err(CallFailed(reply.error)); }
      hide Lawful, Permitted, Accepts, Menu, Starts, Agreements, Judge;
      var candidates := Selectable(reply.value.providers);
      if candidates == [] { return Err(Flow(Unsupported)); }
      if hint.Some? {
        r := Find(candidates, hint.value);
        return;
      }
      assert forall k | 0 <= k < |candidates| :: candidates[k] in candidates;
      if |candidates| == 1 { return Ok(candidates[0]); }
      var index := Choose(|candidates|, 0);
      r := if index.None? then Err(Aborted) else Ok(candidates[index.value]);
    }

    method Find(candidates: seq<Provider>, id: string) returns (r: Result<Provider, LoginError>)
      ensures var found := WithId(candidates, id);
        r == if found.Some? then Ok(found.value) else Err(Flow(RegistryError))
    {
      assert candidates == candidates[0..];
      for k := 0 to |candidates|
        invariant WithId(candidates, id) == WithId(candidates[k..], id)
      {
        if candidates[k].id == id { return Ok(candidates[k]); }
        assert candidates[k..][1..] == candidates[k + 1..];
      }
      return Err(Flow(RegistryError));
    }

    /** When exchange `i` is sent, if every exchange since `first` was a poll with a pause of five seconds after it. */
    ghost function PollTime(started: nat, first: nat, i: nat): nat {
      if i <= first then started else PollTime(started, first, i - 1) + latency(i - 1) + 5
    }

    /** Poll number `polls` may still be sent at this time: the flow has not expired and no limit is reached. */
    predicate Due(deadline: Option<int>, polls: int, started: nat, at: nat) {
      (deadline.Some? ==> wall(at) < deadline.value) && at < started + 900 && (deadline.None? ==> polls < 60)
    }

    /** The exchanges from `first` on are polls, each sent while one was due; the first could be sent at `started`. */
    ghost predicate Polls(t: Trace, first: nat, poll: Command, deadline: Option<int>, started: nat) {
      forall i | first <= i < |t| ::
        t[i].command == poll && Due(deadline, i - first, started, PollTime(started, first, i))
    }

    lemma OneMorePoll(t: Trace, u: Trace, first: nat, poll: Command, deadline: Option<int>, started: nat)
      requires Polls(t, first, poll, deadline, started) && first <= |t|
      requires t <= u && |u| == |t| + 1 && u[|t|].command == poll
      requires Due(deadline, |t| - first, started, PollTime(started, first, |t|))
      ensures Polls(u, first, poll, deadline, started)
      ensures PollTime(started, first, |t| + 1) == PollTime(started, first, |t|) + latency(|t|) + 5
    {
      hide Due;
    }

    lemma BeforePolls(p: string, a: string, flow: string, deadline: Option<int>)
      requires Permitted(trace, CompleteAuth(p, a, flow, None, None)) && |trace| >= 4 && MayStart(trace, p, a)
      ensures Stopped(trace, p, a, Flow(TimedOut)) && Target(trace) == Some((p, a))
      ensures Polls(trace, |trace|, CompleteAuth(p, a, flow, None, None), deadline, now)
      ensures PollTime(now, |trace|, |trace|) == now && AllOpen(trace, |trace|, |trace|)
    {
    }

    method PollingOver(deadline: Option<int>, attempts: nat, started: nat) returns (over: bool)
      requires started <= now
      ensures over <==> !Due(deadline, attempts, started, now)
      ensures !over ==> now - started < 900 && (deadline.None? ==> attempts < 60)
    {
      over := (deadline.Some? && deadline.value <= wall(now))
        || now - started >= DEVICE_POLL_DURATION_LIMIT
        || (deadline.None? && attempts >= DEVICE_POLL_LIMIT);
    }

    /** One poll: the provider decides, or it has not decided yet and the flow stays open. */
    method PollOnce(p: string, a: string, flow: string) returns (r: Option<Result<AuthState, LoginError>>)
      requires Lawful(trace) && Permitted(trace, CompleteAuth(p, a, flow, None, None)) && |trace| >= 4
          && Target(trace) == Some((p, a))
      modifies this`trace, this`now
      ensures |trace| == |old(trace)| + 1 && old(trace) <= trace && Lawful(trace)
      ensures trace[|old(trace)|].command == CompleteAuth(p, a, flow, None, None)
      ensures now == old(now) + latency(|old(trace)|) && Starts(trace) == Starts(old(trace))
      ensures r.None? <==> Unsettled(trace[|old(trace)|])
      ensures r.None? ==> Permitted(trace, CompleteAuth(p, a, flow, None, None)) && Target(trace) == Some((p, a))
      ensures r.None? ==> Stopped(trace, p, a, Flow(TimedOut))
      ensures r.Some? && r.value.Ok? ==> Answer(trace[|old(trace)|], r.value.value) && !r.value.value.Pending?
      ensures r.Some? && r.value.Err? ==>
                && r.value.error.CallFailed? && trace[|old(trace)|].outcome == Err(r.value.error.failure)
                && Stopped(trace, p, a, r.value.error)
    {
      hide Lawful, Starts, PermittedLater, Created;
      ghost var before := trace;
      var reply := Call(CompleteAuth(p, a, flow, None, None));
      if !SignedIn(trace[|before|]) { Polled(before, trace[|before|], p, a, flow); }
      if reply.Err? {
        return if reply.error == Control(RateLimited) || reply.error == Control(NetworkFailure) then None
               else Some(Err(CallFailed(reply.error)));
      }
      return if reply.value.state.Pending? then None else Some(Ok(reply.value.state));
    }

    /**
     * `poll_device_flow`: polls every five seconds until the provider decides, for at most a quarter of an hour, and
     * for at most 60 polls when no expiry is known.
     */
    method PollDeviceFlow(p: string, a: string, flow: string, deadline: Option<int>)
      returns (r: Result<AuthState, LoginError>)
      requires Lawful(trace) && Permitted(trace, CompleteAuth(p, a, flow, None, None)) && |trace| >= 4
          && MayStart(trace, p, a)
      modifies this`trace, this`now
      ensures Lawful(trace) && old(trace) <= trace && |trace| - |old(trace)| <= 180
      ensures Polls(trace, |old(trace)|, CompleteAuth(p, a, flow, None, None), deadline, old(now))
      ensures AllOpen(trace, |old(trace)|, |trace| - 1)
      ensures r.Ok? ==> |trace| > |old(trace)| && Answer(trace[|trace| - 1], r.value) && !r.value.Pending?
      ensures r.Err? && r.error != Flow(TimedOut) ==>
                && |trace| > |old(trace)| && !Unsettled(trace[|trace| - 1])
                && r.error.CallFailed? && trace[|trace| - 1].outcome == Err(r.error.failure)
      ensures r == Err(Flow(TimedOut)) ==>
                && (|trace| > |old(trace)| ==> Unsettled(trace[|trace| - 1]))
                && now == PollTime(old(now), |old(trace)|, |trace|)
                && !Due(deadline, |trace| - |old(trace)|, old(now), now)
      ensures r.Err? ==> Stopped(trace, p, a, r.error)
      ensures Starts(trace) == Starts(old(trace))
    {
      hide Lawful, Starts, Agreements, Permitted, Target, Stopped, MayStart, Unsettled, Polls, Answer, PollTime;
      hide AllOpen, Due;
      var started := now;
      ghost var was := trace;
      var attempts: nat := 0;
      BeforePolls(p, a, flow, deadline);
      while true
        invariant Lawful(trace) && was <= trace && |trace| == |was| + attempts
        invariant Permitted(trace, CompleteAuth(p, a, flow, None, None)) && Target(trace) == Some((p, a))
        invariant Stopped(trace, p, a, Flow(TimedOut)) && Starts(trace) == Starts(was)
        invariant now == PollTime(started, |was|, |trace|) && now >= started + 5 * attempts && attempts <= 180
        invariant deadline.None? ==> attempts <= 60
        invariant Polls(trace, |was|, CompleteAuth(p, a, flow, None, None), deadline, started)
        invariant AllOpen(trace, |was|, |trace|)
        decreases 180 - attempts
      {
        var over := PollingOver(deadline, attempts, started);
        OpenToTheLast(trace, |was|);
        if over { return Err(Flow(TimedOut)); }
        ghost var before := trace;
        var decided := PollOnce(p, a, flow);
        StillOpen(before, trace, |was|);
        OneMorePoll(before, trace, |was|, CompleteAuth(p, a, flow, None, None), deadline, started);
        if decided.Some? { return decided.value; }
        attempts := attempts + 1;
        now := now + DEVICE_POLL_INTERVAL;
      }
    }

    /** What a pasted or typed value, or its absence, sends back to the provider. */
    method AskCompletion(ch: Challenge) returns (r: Result<Option<string>, LoginError>)
      modifies this`answers
      ensures answers == Rest(old(answers)) && Agreements(answers) <= Agreements(old(answers))
      ensures r == match Pasted(ch.input, ch.browser, old(answers))
                   case Send(value) => Ok(Some(value))
                   case Poll => Ok(None)
                   case Abandon => Err(Aborted)
                   case NoHiding => Err(EchoUnavailable)
      ensures r.Ok? && r.value.Some? ==>
                Sendable(r.value, CallbackOrigin(r.value.value)) && (ch.input.Some? || ch.browser)
      ensures r.Ok? && r.value.None? ==> ch.input.None?
    {
      hide Trim, AnyUnsafe, Trimmed, CallbackOrigin;
      if ch.input.Some? {
        var typed: string;
        if ch.input.value {
          var secret := AskSecret();
          if secret.Err? { return Err(secret.error); }
          typed := secret.value;
        } else {
          var answer := Ask();
          if answer.None? { return Err(Aborted); }
          typed := answer.value;
        }
        TrimTrims(typed);
        var value := Trim(typed);
        return if AnyUnsafe(value) || value == "" then Err(Aborted) else Ok(Some(value));
      }
      var answer := Ask();
      if answer.None? { return Err(Aborted); }
      if !ch.browser { return Ok(None); }
      TrimTrims(answer.value);
      var value := Trim(answer.value);
      return if value == "" then Ok(None) else if AnyUnsafe(value) then Err(Aborted) else Ok(Some(value));
    }

    /** `verify`: only an `Authenticated` status of this very account passes. */
    method Verify(p: string, a: string) returns (r: Result<(), LoginError>)
      requires Lawful(trace) && Target(trace) == Some((p, a)) && Demanded(trace) == Some(AuthStatus(p, a))
      requires Completing(trace[|trace| - 1])
      modifies this`trace, this`now
      ensures Lawful(trace) && |trace| == |old(trace)| + 1 && old(trace) <= trace
      ensures trace[|old(trace)|].command == AuthStatus(p, a) && (r.Ok? <==> SignedIn(trace[|old(trace)|]))
      ensures r.Err? ==> r.error == FailureOf(trace[|old(trace)|])
      ensures r.Ok? ==> Demanded(trace) == Some(Probe(a))
      ensures r.Err? ==> Stopped(trace, p, a, r.error)
      ensures Starts(trace) == Starts(old(trace))
    {
      var reply := Call(AuthStatus(p, a));
      if reply.Err? { return Err(CallFailed(reply.error)); }
      r := if reply.value.state.Authenticated? then Ok(()) else Err(Flow(AuthenticationInvalid));
    }

    /** The middle of `authenticate_once`: what is pasted is sent once, and otherwise the provider is polled. */
    method CompleteFlow(p: string, a: string, ch: Challenge) returns (r: Result<AuthState, LoginError>)
      requires Lawful(trace) && |trace| >= 4 && Target(trace) == Some((p, a))
      requires trace[|trace| - 1].command.StartAuth? && trace[|trace| - 1].outcome == Ok(Challenged(ch))
      requires trace[|trace| - 1].command.provider == p && trace[|trace| - 1].command.account == a
      modifies this`trace, this`now, this`answers
      ensures Lawful(trace) && old(trace) <= trace && answers == Rest(old(answers))
      ensures match Pasted(ch.input, ch.browser, old(answers))
              case Send(_) =>
                && |trace| == |old(trace)| + 1
                && (r.Err? ==> r.error.CallFailed? && trace[|trace| - 1].outcome == Err(r.error.failure))
              case Poll =>
                && Polls(trace, |old(trace)|, CompleteAuth(p, a, ch.flow, None, None), ch.deadline, old(now))
                && AllOpen(trace, |old(trace)|, |trace| - 1) && (r.Ok? ==> !r.value.Pending?)
                && (r.Err? && r.error != Flow(TimedOut) ==>
                      old(trace) < trace && r.error.CallFailed? && trace[|trace| - 1].outcome == Err(r.error.failure))
              case Abandon => trace == old(trace) && r == Err(Aborted)
              case NoHiding => trace == old(trace) && r == Err(EchoUnavailable)
      ensures old(trace) < trace ==> Completes(trace[|old(trace)|].command, p, a, ch, old(answers))
      ensures r.Ok? ==>
                old(trace) < trace && Answer(trace[|trace| - 1], r.value) && trace[|trace| - 1].command.CompleteAuth?
      ensures r.Ok? ==> trace[|trace| - 1].command.provider == p && trace[|trace| - 1].command.account == a
      ensures r.Err? ==> Stopped(trace, p, a, r.error)
      ensures Starts(trace) == Starts(old(trace)) && Agreements(answers) <= Agreements(old(answers))
    {
      hide Lawful, Starts, Agreements, Due, PollTime, AllOpen, Pasted, Trimmed, AnyUnsafe;
      var completion := AskCompletion(ch);
      if completion.Err? { return Err(completion.error); }
      if completion.value.None? {
        assert Permitted(trace, CompleteAuth(p, a, ch.flow, None, None));
        r := PollDeviceFlow(p, a, ch.flow, ch.deadline);
        return;
      }
      var code := completion.value.value;
      var c := CompleteAuth(p, a, ch.flow, Some(code), CallbackOrigin(code));
      assert Permitted(trace, c);
      var reply := Call(c);
      r := if reply.Ok? then Ok(reply.value.state) else Err(CallFailed(reply.error));
    }

    /** `authenticate_once`. */
    method AuthenticateOnce(p: string, a: string, how: Option<Method>) returns (r: Result<Option<string>, LoginError>)
      requires Lawful(trace) && |trace| >= 3 && MayStart(trace, p, a) && OneMethod(trace, how)
      modifies this`trace, this`now, this`answers
      ensures Lawful(trace) && old(trace) < trace && trace[|old(trace)|].command == StartAuth(p, a, how)
      ensures Target(trace) == Some((p, a)) && OneMethod(trace, how)
      ensures AttemptFrom(trace, |old(trace)|, p, a, old(answers), answers, r)
      ensures r.Ok? ==> trace[|trace| - 1].command == AuthStatus(p, a)
      ensures r.Ok? ==> Demanded(trace) == Some(Probe(a)) && Answer(trace[|trace| - 2], Authenticated(r.value))
      ensures r.Err? ==> Stopped(trace, p, a, r.error)
      ensures Starts(trace) == Starts(old(trace)) + 1 && Agreements(answers) <= Agreements(old(answers))
    {
      hide Lawful, Starts, Agreements, MayStart, Permitted, Target, Demanded, Stopped, Completing, Pasted, Completes;
      hide OneMethod, Polls, AllOpen;
      MayPermit(trace, p, a, how);
      var reply := Call(StartAuth(p, a, how));
      JustStarted(old(trace), trace, p, a, how);
      ghost var begun := trace;
      if reply.Err? { return Err(CallFailed(reply.error)); }
      var state := CompleteFlow(p, a, reply.value.challenge);
      NoNewStarts(begun, trace, how);
      TargetStays(begun, trace);
      if state.Err? { return Err(state.error); }
      Decided(trace, p, a, state.value);
      match state.value
      case Authenticated(name) =>
        ghost var before := trace;
        var verified := Verify(p, a);
        NoNewStarts(before, trace, how);
        TargetStays(before, trace);
        r := if verified.Ok? then Ok(name) else Err(verified.error);
      case Pending => r := Err(Flow(AuthenticationPending));
      case _ => r := Err(Flow(AuthenticationInvalid));
    }

    /**
     * `authenticate`: each new start follows a failure worth retrying, in `failures`, and an explicit yes of its own;
     * and it stops at such a failure only if the answer, the next in `asked`, is no yes.
     */
    method Authenticate(p: string, a: string, how: Option<Method>)
      returns (r: Result<Option<string>, LoginError>, ghost failures: seq<LoginError>, ghost asked: seq<Input>)
      requires Lawful(trace) && |trace| >= 3 && MayStart(trace, p, a) && OneMethod(trace, how)
      modifies this`trace, this`now, this`answers
      ensures Lawful(trace) && old(trace) < trace && trace[|old(trace)|].command == StartAuth(p, a, how)
      ensures Suffix(answers, old(answers)) && Target(trace) == Some((p, a)) && OneMethod(trace, how)
      ensures r.Ok? ==> trace[|trace| - 1].command == AuthStatus(p, a)
      ensures r.Ok? ==> Demanded(trace) == Some(Probe(a)) && Answer(trace[|trace| - 2], Authenticated(r.value))
      ensures r.Err? ==> Stopped(trace, p, a, r.error)
      ensures r.Err? && Retryable(r.error) ==>
                Suffix(asked, old(answers)) && answers == Rest(asked) && !(Answers(asked) && Agrees(asked[0]))
      ensures Starts(trace) == Starts(old(trace)) + 1 + |failures| && forall e | e in failures :: Retryable(e)
      ensures |failures| + Agreements(answers) <= Agreements(old(answers))
    {
      hide Lawful, Starts, Agreements, Agrees, MayStart, Permitted, Target, Demanded, Completing, OneMethod;
      hide AttemptFrom;
      failures, asked := [], [];
      r := AuthenticateOnce(p, a, how);
      AttemptReads(trace, |old(trace)|, p, a, old(answers), answers, r);
      while r.Err?
        invariant Lawful(trace) && old(trace) < trace && trace[|old(trace)|].command == StartAuth(p, a, how)
        invariant Suffix(answers, old(answers)) && Target(trace) == Some((p, a)) && OneMethod(trace, how)
        invariant r.Ok? ==> trace[|trace| - 1].command == AuthStatus(p, a)
        invariant r.Ok? ==> Demanded(trace) == Some(Probe(a)) && Answer(trace[|trace| - 2], Authenticated(r.value))
        invariant r.Err? ==> Stopped(trace, p, a, r.error)
        invariant Starts(trace) == Starts(old(trace)) + 1 + |failures| && forall e | e in failures :: Retryable(e)
        invariant |failures| + Agreements(answers) <= Agreements(old(answers))
        decreases |answers|, r.Err?
      {
        if !Retryable(r.error) { return; }
        asked := answers;
        var again := Confirm(false);
        if !again { return; }
        ghost var before, left := trace, answers;
        failures := failures + [r.error];
        r := AuthenticateOnce(p, a, how);
        AttemptReads(trace, |before|, p, a, left, answers, r);
        SuffixOf(answers, left, old(answers));
        assert old(trace) < before < trace && trace[|old(trace)|] == before[|old(trace)|];
      }
    }

    /** `retire_duplicates`: nothing is retired before this account has answered a waiting probe. */
    method RetireOthers(p: string, a: string)
      requires Lawful(trace) && Target(trace) == Some((p, a)) && Demanded(trace) == Some(Probe(a))
      requires trace[|trace| - 1].command == AuthStatus(p, a)
      modifies this`trace, this`now
      ensures Lawful(trace) && old(trace) < trace && |trace| > 4 && Open(trace) && AfterRetiring(trace[|trace| - 1])
      ensures trace[|old(trace)|].command == Probe(a)
      ensures |trace| == |old(trace)| + if trace[|old(trace)|].outcome.Ok? then 2 else 1
      ensures trace[|old(trace)|].outcome.Ok? ==> trace[|old(trace)| + 1].command == RetireDuplicates(p, a)
      ensures Starts(trace) == Starts(old(trace))
    {
      hide Lawful, Starts, Agreements;
      var probed := Call(Probe(a));
      if probed.Ok? {
        var retired := Call(RetireDuplicates(p, a));
      }
    }

    /** `set_label`: asks for another name, with the answers in `tries`, while the daemon says the name is taken. */
    method NameAccount(p: string, a: string, chosen: string)
      returns (r: Result<Account, LoginError>, ghost tries: seq<seq<Input>>)
      requires Lawful(trace) && Target(trace) == Some((p, a)) && Open(trace) && Permitted(trace, SetLabel(a, chosen))
      modifies this`trace, this`now, this`answers
      ensures Lawful(trace) && old(trace) < trace && Open(trace)
      ensures Renames(trace, |old(trace)|, a, chosen, old(answers), tries) && |tries| <= 5
      ensures trace[|trace| - 1].outcome == Err(Control(Duplicate)) ==>
                |tries| == 5 || LabelRead(tries[|tries| - 1], trace[|trace| - 1].command.name, 5).0.None?
      ensures NamingEnds(trace[|trace| - 1].outcome, r)
      ensures Starts(trace) == Starts(old(trace))
    {
      hide Lawful, Starts, Agreements, LabelRead, Target, Demanded, Disposing, Permitted, Renames;
      var name := chosen;
      tries := [];
      TargetLong(trace);
      for k := 0 to MAXIMUM_ATTEMPTS
        invariant Lawful(trace) && old(trace) <= trace && Permitted(trace, SetLabel(a, name))
        invariant Target(trace) == Some((p, a)) && |trace| > 3 && Open(trace)
        invariant Starts(trace) == Starts(old(trace)) && |tries| == k && |trace| == |old(trace)| + k
        invariant AboutToName(trace, |old(trace)|, a, chosen, old(answers), tries, name, answers)
      {
        ghost var before := trace;
        var reply := Call(SetLabel(a, name));
        OneMoreName(before, trace, |old(trace)|, a, chosen, old(answers), tries, name, answers);
        NamedOnce(before, trace, p, a);
        tries := tries + [answers];
        if reply.Ok? { return Ok(reply.value.account), tries; }
        if reply.error != Control(Duplicate) { return Err(CallFailed(reply.error)), tries; }
        var retry := AskLabel(name);
        if retry.Err? { return Err(retry.error), tries; }
        name := retry.value;
      }
      return Err(Aborted), tries;
    }

    /**
     * `discard_account`: an account this login created goes only if the daemon says it holds no sign-in and logs it
     * out.
     */
    method DiscardAccount(p: string, a: string)
      requires Lawful(trace) && Target(trace) == Some((p, a)) && Created(trace) && Open(trace)
          && !Completing(trace[|trace| - 1])
      modifies this`trace, this`now
      ensures Lawful(trace) && old(trace) < trace && Disposing(trace) && Demanded(trace).None?
      ensures GivenUp(trace, |old(trace)|, p, a)
      ensures Starts(trace) == Starts(old(trace))
    {
      hide Lawful, Starts, Agreements;
      var status := Call(AuthStatus(p, a));
      if status.Err? || status.value.state.Authenticated? { return; }
      var logout := Call(Logout(p, a));
      if logout.Err? { return; }
      var removed := Call(RemoveAccount(a));
    }

    /** The end of `run`: a chosen name is set unless the account already carries it. */
    method SettleName(p: string, a: string, current: Option<string>, proposed: string)
      returns (r: Result<Account, LoginError>)
      requires Lawful(trace) && Target(trace) == Some((p, a)) && Open(trace) && AfterRetiring(trace[|trace| - 1])
      requires Known(trace, p, a, current)
      modifies this`trace, this`now, this`answers
      ensures Lawful(trace) && old(trace) <= trace && Open(trace) && !Completing(trace[|trace| - 1])
      ensures NamedFrom(trace, |old(trace)|, a, current, proposed, old(answers))
      ensures if trace == old(trace) then r == Err(Aborted)
              else NamesIt(trace[|trace| - 1].command, a) && NamingEnds(trace[|trace| - 1].outcome, r)
      ensures Starts(trace) == Starts(old(trace))
    {
      hide Lawful, Starts, Agreements, LabelRead;
      var chosen := AskLabel(proposed);
      if chosen.Err? { return Err(chosen.error); }
      if current != Some(chosen.value) {
        ghost var tries;
        r, tries := NameAccount(p, a, chosen.value);
      } else {
        var shown := Call(ShowAccount(a));
        r := if shown.Ok? then Ok(shown.value.account) else Err(CallFailed(shown.error));
      }
    }

    /**
     * What `run` does with an account settled on: sign in, retire duplicates, name it. A sign-in that was verified, at
     * exchange `v`, is followed by naming the account as `read` answers to the default.
     */
    method SignInAndName(p: string, a: string, current: Option<string>, accounts: seq<Account>, how: Option<Method>)
      returns (r: Result<Account, LoginError>, ghost v: nat, ghost read: seq<Input>)
      requires Lawful(trace) && |trace| >= 3 && MayStart(trace, p, a) && OneMethod(trace, how)
      requires Known(trace, p, a, current) && (|trace| > 3 ==> Created(trace))
      modifies this`trace, this`now, this`answers
      ensures Lawful(trace) && old(trace) < trace && Open(trace) && trace[|old(trace)|].command == StartAuth(p, a, how)
      ensures OneMethod(trace, how) && Suffix(read, old(answers))
      ensures r.Ok? || !SignInCommand(trace[|trace| - 1].command) ==>
                |old(trace)| < v && NamedAfter(trace, v, p, a, |old(trace)| > 3, current, accounts, read)
      ensures r.Ok? ==> NamesIt(trace[|trace| - 1].command, a) && trace[|trace| - 1].outcome == Ok(AccountIs(r.value))
      ensures Starts(trace) <= Starts(old(trace)) + 1 + Agreements(old(answers))
    {
      hide Lawful, Known, Target, Demanded, Disposing, Created, DefaultName, MayStart, OneMethod, Stopped, Starts;
      hide Agreements, NamedAfter, NamedFrom, Completing, SignedIn, Answer, Agrees, NamingEnds;
      ghost var was := trace;
      var created := |trace| > 3;
      var reported;
      ghost var failures, asked;
      v, read := 0, [];
      reported, failures, asked := Authenticate(p, a, how);
      if reported.Err? {
        StoppedOpen(trace, p, a, reported.error);
        return Err(reported.error), v, read;
      }
      ghost var signedIn := trace;
      v, read := |trace| - 1, answers;
      SignInVerified(was, trace, p, a, current);
      RetireOthers(p, a);
      ghost var retired := trace;
      SettledStays(signedIn, trace, p, a, current);
      var fallback := ProvisionalLabel(p, accounts);
      r := SettleName(p, a, current, DefaultName(created, reported.value, current, fallback));
      NoNewStarts(signedIn, trace, how);
      ProposalNamed(trace, v, p, a, created, current, accounts, read, reported.value, fallback);
      NamedLast(trace, a, r);
    }

    /** The new-account arm of `run`: an account created here and not finished is put up for removal. */
    method LoginNew(p: string, accounts: seq<Account>, how: Option<Method>) returns (r: Result<Account, LoginError>)
      requires Lawful(trace) && |trace| == 3 && trace[2].outcome.Ok? && Offered(trace, p) && accounts == Seen(trace, p)
      requires OneMethod(trace, how)
      modifies this`trace, this`now, this`answers
      ensures Lawful(trace) && |trace| > 3 && old(trace) <= trace && Ended(trace, p, r) && OneMethod(trace, how)
      ensures OpensNew(trace, p, how, r) && (r.Ok? ==> NamedAsAnswered(trace, p, old(answers)))
      ensures Starts(trace) <= Starts(old(trace)) + 1 + Agreements(old(answers))
    {
      hide Lawful, Starts, Agreements, NamedAfter;
      var name := ProvisionalLabel(p, accounts);
      assert FreshName(p, Seen(trace, p), name);
      var reply := Call(AddAccount(p, name));
      if reply.Err? { return Err(CallFailed(reply.error)); }
      var account := reply.value.account;
      assert Known(trace, p, account.id, account.name) && Created(trace);
      ghost var was := trace;
      ghost var v, read;
      r, v, read := SignInAndName(p, account.id, account.name, accounts, how);
      Settled(was, trace, p, account.id, account.name);
      if r.Err? {
        ghost var unfinished := trace;
        DiscardAccount(p, account.id);
        NoNewStarts(unfinished, trace, how);
        Settled(unfinished, trace, p, account.id, account.name);
      } else {
        Named(trace, v, p, account.id, account.name, read, old(answers));
      }
    }

    /** The other arm: an account listed before is never logged out or removed. */
    method LoginListed(p: string, accounts: seq<Account>, account: Account, how: Option<Method>)
      returns (r: Result<Account, LoginError>)
      requires Lawful(trace) && |trace| == 3 && trace[2].outcome.Ok? && Offered(trace, p)
      requires accounts == Seen(trace, p) && account in accounts && OneMethod(trace, how)
      modifies this`trace, this`now, this`answers
      ensures Lawful(trace) && |trace| > 3 && old(trace) <= trace && Ended(trace, p, r) && OneMethod(trace, how)
      ensures trace[3].command == StartAuth(p, account.id, how)
      ensures r.Ok? ==> NamedAsAnswered(trace, p, old(answers))
      ensures Starts(trace) <= Starts(old(trace)) + 1 + Agreements(old(answers))
    {
      hide Lawful, Starts, Agreements, NamedAfter;
      ListedKnown(trace, p, account);
      ghost var was := trace;
      ghost var v, read;
      r, v, read := SignInAndName(p, account.id, account.name, accounts, how);
      Settled(was, trace, p, account.id, account.name);
      if r.Ok? {
        Named(trace, v, p, account.id, account.name, read, old(answers));
      }
    }

    /** The part of `run` after the provider is settled: the account, and the sign-in on it. */
    method SignInOn(p: string, how: Option<Method>) returns (r: Result<Account, LoginError>)
      requires Lawful(trace) && |trace| == 2 && trace[1].outcome.Ok? && Offered(trace, p) && OneMethod(trace, how)
      modifies this`trace, this`now, this`answers
      ensures Lawful(trace) && old(trace) <= trace && OneMethod(trace, how)
      ensures OpensOn(trace, p, how, old(answers), r) && (|trace| <= 3 ==> r.Err?)
      ensures |trace| > 3 ==> Ended(trace, p, r) && (r.Ok? ==> NamedAsAnswered(trace, p, old(answers)))
      ensures Starts(trace) <= Starts(old(trace)) + 1 + Agreements(old(answers))
    {
      hide Starts, Agreements, Ended, Menu, OpensNew, Lawful, Permitted, NamedAsAnswered, Offered, OneMethod, Seen;
      ThirdRequest(trace);
      var reply := Call(ListAccounts);
      AccountsListed(old(trace), trace, p, how);
      if reply.Err? { return Err(CallFailed(reply.error)); }
      var accounts := AccountsOf(p, reply.value.accounts);
      var index := Some(0);
      if accounts != [] {
        index := Choose(|accounts| + 1, 0);
        if index.None? { return Err(Aborted); }
      }
      ghost var ahead := answers;
      if index.value > 0 {
        r := LoginListed(p, accounts, accounts[index.value - 1], how);
      } else {
        r := LoginNew(p, accounts, how);
      }
      if r.Ok? { NamedFromMore(trace, p, ahead, old(answers)); }
    }

    /** `run`. */
    method Run(hint: Option<string>, how: Option<Method>) returns (r: Result<Account, LoginError>)
      requires trace == []
      modifies this
      ensures Lawful(trace) && Finished(trace, hint, how, old(answers), r)
      ensures Starts(trace) <= 1 + Agreements(old(answers))
    {
      hide Agreements, ProviderPick, NamedAsAnswered, Ended, OpensOn, Lawful, Permitted, Finished, Offered, OneMethod;
      hide Starts, Opens;
      FirstRequest(hint, how, answers);
      var reply := Call(DaemonStatus);
      if reply.Err? {
        EndsEarly(trace, hint, how, answers, answers, Err(CallFailed(reply.error)));
        return Err(CallFailed(reply.error));
      }
      var provider := SelectProvider(hint);
      if provider.Err? {
        EndsEarly(trace, hint, how, old(answers), answers, provider);
        return Err(provider.error);
      }
      SecondRequest(trace, how);
      ghost var asked, ahead := trace, answers;
      r := SignInOn(provider.value.id, how);
      OpensWell(asked, trace, hint, how, old(answers), ahead, provider.value, r);
    }
  }

  predicate NamesIt(c: Command, a: string) {
    (c.SetLabel? || c.ShowAccount?) && c.account == a
  }

  /**
   * Nothing is owed; a success is the answer that named the target; an account created but not named was put up for
   * removal.
   */
  predicate Ended(t: Trace, p: string, r: Result<Account, LoginError>) {
    && Demanded(t).None?
    && (Target(t).Some? ==> Target(t).value.0 == p)
    && (r.Ok? ==>
          && |t| > 4 && Target(t).Some? && !Disposing(t)
          && NamesIt(t[|t| - 1].command, Target(t).value.1) && t[|t| - 1].outcome == Ok(AccountIs(r.value)))
    && (r.Err? && Created(t) <==> Disposing(t))
    && (r.Err? && Created(t) ==> exists i | 0 <= i < |t| :: GivenUp(t, i, p, Target(t).value.1))
  }

  /**
   * A login on a new account: a refusal to add it is final, and otherwise the sign-in that follows is on that account.
   */
  predicate OpensNew(t: Trace, p: string, how: Option<Method>, r: Result<Account, LoginError>) {
    && |t| > 3 && t[3].command.AddAccount? && t[3].command.provider == p
    && match t[3].outcome
       case Err(failure) => |t| == 4 && r == Err(CallFailed(failure))
       case Ok(reply) => reply.AccountIs? && |t| > 4 && t[4].command == StartAuth(p, reply.account.id, how)
  }

  /** With the provider settled, the account is the one picked from those listed for it. */
  predicate OpensOn(t: Trace, p: string, how: Option<Method>, answers: seq<Input>, r: Result<Account, LoginError>) {
    && |t| >= 3
    && match t[2].outcome
       case Err(failure) => |t| == 3 && r == Err(CallFailed(failure))
       case Ok(reply) =>
         && reply.Accounts?
         && var own := AccountsOf(p, reply.accounts);
            match AccountPick(own, answers).0
            case None => |t| == 3 && r == Err(Aborted)
            case Some(index) =>
              if index == 0 then OpensNew(t, p, how, r)
              else |t| > 3 && t[3].command == StartAuth(p, own[index - 1].id, how)
  }

  /** A login opens as answered: the provider and the account are the ones picked, or it ends where nothing was. */
  predicate Opens(t: Trace, hint: Option<string>, how: Option<Method>, answers: seq<Input>,
                  r: Result<Account, LoginError>)
  {
    && t != []
    && if t[0].outcome.Err? then |t| == 1 && r == Err(CallFailed(t[0].outcome.error)) else
       && |t| >= 2
       && match t[1].outcome
          case Err(failure) => |t| == 2 && r == Err(CallFailed(failure))
          case Ok(reply) =>
            && reply.Providers?
            && var pick := ProviderPick(reply.providers, hint, answers);
               if pick.0.Err? then |t| == 2 && r == Err(pick.0.error)
               else OpensOn(t, pick.0.value.id, how, pick.1, r)
  }

  /**
   * How a whole login goes: it opens on what was picked, and ends before it settled on an account, or properly, with
   * the account named as answered.
   */
  ghost predicate Finished(t: Trace, hint: Option<string>, how: Option<Method>, answers: seq<Input>,
                           r: Result<Account, LoginError>)
  {
    && Opens(t, hint, how, answers, r) && OneMethod(t, how) && (|t| <= 3 ==> r.Err?)
    && (|t| > 3 ==> exists p ::
             && Ended(t, p, r) && Offered(t, p) && (hint.Some? ==> p == hint.value)
             && (r.Ok? ==> NamedAsAnswered(t, p, answers)))
  }

  /** A login with its provider settled, in terms of all that was answered. */
  lemma OpensWell(t: Trace, u: Trace, hint: Option<string>, how: Option<Method>, answers: seq<Input>,
                  later: seq<Input>, p: Provider, r: Result<Account, LoginError>)
    requires |t| == 2 && t <= u && t[0].outcome.Ok? && t[1].outcome.Ok? && t[1].outcome.value.Providers?
    requires ProviderPick(t[1].outcome.value.providers, hint, answers) == (Ok(p), later) && Suffix(later, answers)
    requires Offered(t, p.id) && (hint.Some? ==> p.id == hint.value)
    requires OpensOn(u, p.id, how, later, r) && OneMethod(u, how) && (|u| <= 3 ==> r.Err?)
    requires |u| > 3 ==> Ended(u, p.id, r) && (r.Ok? ==> NamedAsAnswered(u, p.id, later))
    ensures Finished(u, hint, how, answers, r)
  {
    hide ProviderPick, NamedAsAnswered, Ended, OpensOn, OneMethod;
    assert u[0] == t[0] && u[1] == t[1] && Offered(u, p.id);
    if r.Ok? {
      NamedFromMore(u, p.id, later, answers);
    }
  }

  lemma NamedFromMore(t: Trace, p: string, later: seq<Input>, answers: seq<Input>)
    requires NamedAsAnswered(t, p, later) && Suffix(later, answers)
    ensures NamedAsAnswered(t, p, answers)
  {
    hide NamedAfter, Carried, Target;
    var v: nat, read: seq<Input>, current: Option<string> :|
      NamedAfter(t, v, p, Target(t).value.1, Created(t), current, Seen(t, p), read)
      && Carried(t, p, Target(t).value.1, current) && Suffix(read, later);
    SuffixOf(read, later, answers);
  }

  lemma FirstRequest(hint: Option<string>, how: Option<Method>, answers: seq<Input>)
    ensures Lawful([]) && Permitted([], DaemonStatus) && Starts([]) == 0
  {
  }

  lemma SecondRequest(t: Trace, how: Option<Method>)
    requires Lawful(t) && |t| == 2
    ensures OneMethod(t, how)
  {
  }

  lemma ThirdRequest(t: Trace)
    requires |t| == 2 && t[1].outcome.Ok?
    ensures Permitted(t, ListAccounts)
  {
  }

  lemma AccountsListed(t: Trace, u: Trace, p: string, how: Option<Method>)
    requires Offered(t, p) && OneMethod(t, how) && t <= u && |u| == 3 && |t| == 2 && u[2].command == ListAccounts
    ensures Offered(u, p) && OneMethod(u, how)
    ensures u[2].outcome.Ok? && u[2].outcome.value.Accounts? ==>
              Seen(u, p) == AccountsOf(p, u[2].outcome.value.accounts)
  {
    assert u[1] == t[1];
  }

  /** A login that ends before its provider is settled. */
  lemma EndsEarly(t: Trace, hint: Option<string>, how: Option<Method>, answers: seq<Input>, later: seq<Input>,
                  r: Result<Provider, LoginError>)
    requires Lawful(t) && 1 <= |t| <= 2 && r.Err?
    requires |t| == 1 ==> t[0].outcome.Err? && r == Err(CallFailed(t[0].outcome.error))
    requires |t| == 2 ==>
               && t[0].outcome.Ok?
               && match t[1].outcome
                  case Err(failure) => r == Err(CallFailed(failure))
                  case Ok(reply) => reply.Providers? && (r, later) == ProviderPick(reply.providers, hint, answers)
    ensures Finished(t, hint, how, answers, Err(r.error))
  {
    hide ProviderPick;
  }

  /** Against every daemon, both clocks and every sequence of answers, the whole login keeps the law. */
  method InteractiveLogin(daemon: (Trace, Command) -> Wire, wall: nat -> int, latency: nat -> nat, answers: seq<Input>,
                          hint: Option<string>, how: Option<Method>)
    returns (r: Result<Account, LoginError>, trace: Trace)
    ensures Lawful(trace) && Finished(trace, hint, how, answers, r)
    ensures Starts(trace) <= 1 + Agreements(answers)
  {
    var session := new Session(daemon, wall, latency, answers);
    r := session.Run(hint, how);
    trace := session.trace;
  }

  // ---- What the law means for a whole trace ----

  lemma {:induction false} LawfulAt(t: Trace, i: nat)
    requires Lawful(t) && i < |t|
    ensures Lawful(t[..i]) && Permitted(t[..i], t[i].command) && Credible(t[i])
  {
    hide Permitted, Credible;
    var n := |t| - 1;
    if i < n {
      LawfulAt(t[..n], i);
      assert t[..n][..i] == t[..i];
    }
  }

  /** A request in the middle of a trace, in terms of the exchanges around it. */
  lemma OwedAt(t: Trace, i: nat)
    requires Lawful(t) && 4 <= i < |t|
    ensures Target(t[..i]) == Target(t) && Target(t).Some? && Created(t[..i]) == Created(t)
    ensures Owed(t[i - 2], t[i - 1]).Some? ==> t[i].command == Owed(t[i - 2], t[i - 1]).value
    ensures OnDemand(t[i].command) ==> Owed(t[i - 2], t[i - 1]) == Some(t[i].command)
  {
    hide Lawful;
    LawfulAt(t, i);
    var before := t[..i];
    assert before[3] == t[3] && before[i - 1] == t[i - 1] && before[i - 2] == t[i - 2];
  }

  lemma PermittedAt(t: Trace, i: nat)
    requires Lawful(t) && 4 <= i < |t|
    ensures Target(t).Some? && Created(t[..i]) == Created(t)
    ensures PermittedLater(t[..i], Target(t).value.0, Target(t).value.1, t[i].command)
  {
    hide Lawful;
    LawfulAt(t, i);
    OwedAt(t, i);
  }

  /** The requests of a login about an account come after it has settled on one. */
  predicate Early(c: Command) {
    c.DaemonStatus? || c.ListProviders? || c.ListAccounts? || c.AddAccount? || c.StartAuth?
  }

  lemma NotEarly(t: Trace, j: nat)
    requires Lawful(t) && j < |t| && !Early(t[j].command)
    ensures j >= 4
  {
    hide Lawful;
    LawfulAt(t, j);
  }

  /** Every status read is of this login's account: it verifies a completion, or the account was created here. */
  lemma StatusEarned(t: Trace, j: nat)
    requires Lawful(t) && j < |t| && t[j].command.AuthStatus?
    ensures j >= 4 && Target(t) == Some((t[j].command.provider, t[j].command.account))
    ensures Completing(t[j - 1]) || Created(t)
  {
    hide Lawful;
    NotEarly(t, j);
    PermittedAt(t, j);
    assert t[..j][j - 1] == t[j - 1];
  }

  /** Everything owed is sent, and sent at once, in a login that has ended. */
  lemma DemandsMet(t: Trace, i: nat)
    requires Lawful(t) && Demanded(t).None? && 4 <= i <= |t| && Owed(t[i - 2], t[i - 1]).Some?
    ensures i < |t| && t[i].command == Owed(t[i - 2], t[i - 1]).value
  {
    if i < |t| {
      OwedAt(t, i);
    }
  }

  /** Once an account is being given up, nothing but giving it up follows. */
  lemma {:induction false} DisposingLasts(t: Trace, i: nat)
    requires Lawful(t) && i <= |t| && Disposing(t[..i])
    ensures Disposing(t) && Created(t) == Created(t[..i])
    ensures forall j | i <= j < |t| :: t[j].command.Logout? || t[j].command.RemoveAccount?
  {
    var n := |t| - 1;
    assert t[..|t|] == t;
    if i < |t| {
      PermittedAt(t, n);
      assert t[..n][..i] == t[..i];
      DisposingLasts(t[..n], i);
    }
  }

  /**
   * A logout is sent only for an account this login created, right after the daemon answered that it holds no sign-in.
   */
  lemma LogoutEarned(t: Trace, j: nat)
    requires Lawful(t) && j < |t| && t[j].command.Logout?
    ensures j > 4 && Created(t) && Target(t) == Some((t[j].command.provider, t[j].command.account))
    ensures t[j - 1].command == AuthStatus(t[j].command.provider, t[j].command.account) && SignedOut(t[j - 1])
  {
    hide Lawful;
    NotEarly(t, j);
    OwedAt(t, j);
    StatusEarned(t, j - 1);
  }

  lemma {:induction false} AfterLogout(t: Trace, j: nat, k: nat)
    requires Lawful(t) && 4 <= j < k < |t| && t[j].command.Logout?
    ensures k == j + 1 && t[k].command == RemoveAccount(t[j].command.account)
  {
    PermittedAt(t, k);
    assert t[..k][k - 1] == t[k - 1];
    if k > j + 1 {
      AfterLogout(t, j, k - 1);
    }
  }

  /**
   * `RemoveAccount` is sent only for the account this login itself created, as the last request of all, after a status
   * that is not `Authenticated` and a logout the daemon acknowledged.
   */
  lemma RemovalEarned(t: Trace, j: nat)
    requires Lawful(t) && j < |t| && t[j].command.RemoveAccount?
    ensures j == |t| - 1 && j > 5 && Created(t) && Target(t).Some?
    ensures t[3].command.AddAccount? && t[3].outcome.Ok? && t[3].outcome.value.account.id == t[j].command.account
    ensures var p := Target(t).value.0; var a := t[j].command.account;
            && t[j - 1] == Exchange(Logout(p, a), Ok(Ack))
            && t[j - 2].command == AuthStatus(p, a) && SignedOut(t[j - 2])
  {
    hide Lawful, Permitted, PermittedLater;
    NotEarly(t, j);
    OwedAt(t, j);
    LogoutEarned(t, j - 1);
    LawfulAt(t, j - 1);
    if j < |t| - 1 {
      AfterLogout(t, j - 1, j + 1);
    }
  }

  /** The daemon had listed this account, of whatever provider, before anything was created. */
  predicate ListedBefore(t: Trace, a: string) {
    && |t| > 2 && t[2].outcome.Ok? && t[2].outcome.value.Accounts?
    && exists acc :: acc in t[2].outcome.value.accounts && acc.id == a
  }

  /** The daemon gave the created account an id it had listed. */
  predicate ReusesId(t: Trace) {
    Created(t) && ListedBefore(t, Target(t).value.1)
  }

  predicate GivesUpAccount(c: Command) {
    c.Logout? || c.RemoveAccount?
  }

  /** An account listed before is logged out or removed exactly in a login that gives up one whose id was reused. */
  lemma RemovalHitsListedIff(t: Trace)
    requires Lawful(t)
    ensures (exists j | 0 <= j < |t| :: GivesUpAccount(t[j].command) && ListedBefore(t, t[j].command.account)) <==>
              ReusesId(t) && exists j | 0 <= j < |t| :: GivesUpAccount(t[j].command)
  {
    hide Lawful;
    forall j | 0 <= j < |t| && GivesUpAccount(t[j].command)
      ensures Created(t) && t[j].command.account == Target(t).value.1
    {
      if t[j].command.Logout? {
        LogoutEarned(t, j);
      } else {
        RemovalEarned(t, j);
      }
    }
  }

  /** Nothing checks that id, so a daemon that reuses one has a listed account logged out and removed. */
  lemma ReusedIdIsRemoved() returns (t: Trace)
    ensures Lawful(t) && Demanded(t).None? && |t| == 8
    ensures t[|t| - 1].command.RemoveAccount? && ListedBefore(t, t[|t| - 1].command.account)
    ensures t[|t| - 2].command.Logout? && ListedBefore(t, t[|t| - 2].command.account) && ReusesId(t)
  {
    hide Lawful;
    var listed := Account("x", "p", None, true);
    var name := Candidate("p", 1);
    var opening := [
      Exchange(DaemonStatus, Ok(Status)),
      Exchange(ListProviders, Ok(Providers([Provider("p", true)]))),
      Exchange(ListAccounts, Ok(Accounts([listed])))];
    OpeningLawful(opening);
    assert [listed][1..] == [];
    assert AccountsOf("p", [listed]) == [listed];
    assert Provider("p", true) in [Provider("p", true)];
    assert listed in [listed];
    assert FirstFree("p", [listed], 1);
    t := opening;
    t := Sent(t, Exchange(AddAccount("p", name), Ok(AccountIs(Account("x", "p", Some(name), true)))));
    assert Target(t) == Some(("p", "x"));
    var created := t;
    t := GivesUp(t, "p", "x");
    assert t[2] == created[2] == opening[2] && listed in t[2].outcome.value.accounts;
  }

  /** A sign-in the provider refuses, on an account just created, may go on to its removal. */
  lemma GivesUp(t: Trace, p: string, a: string) returns (longer: Trace)
    requires Lawful(t) && Created(t) && MayStart(t, p, a) && OneMethod(t, None)
    ensures Lawful(longer) && Demanded(longer).None? && |longer| == |t| + 4 && t <= longer
    ensures longer[|longer| - 2].command == Logout(p, a) && longer[|longer| - 1].command == RemoveAccount(a)
  {
    hide Lawful;
    longer := Sent(t, Exchange(StartAuth(p, a, None), Err(Control(OtherProviderError))));
    longer := Sent(longer, Exchange(AuthStatus(p, a), Ok(State(NotAuthenticated))));
    longer := Sent(longer, Exchange(Logout(p, a), Ok(Ack)));
    longer := Sent(longer, Exchange(RemoveAccount(a), Ok(Ack)));
  }

  lemma Sent(t: Trace, e: Exchange) returns (longer: Trace)
    requires Lawful(t) && Permitted(t, e.command) && Credible(e)
    ensures longer == t + [e] && Lawful(longer)
  {
    Extend(t, e);
    longer := t + [e];
  }

  lemma OpeningLawful(t: Trace)
    requires |t| == 3 && forall i | 0 <= i < 3 :: t[i].outcome.Ok? && Credible(t[i])
    requires t[0].command.DaemonStatus? && t[1].command.ListProviders? && t[2].command.ListAccounts?
    ensures Lawful(t)
  {
    Extend([], t[0]);
    assert [] + [t[0]] == [t[0]];
    Extend([t[0]], t[1]);
    assert [t[0]] + [t[1]] == [t[0], t[1]];
    Extend([t[0], t[1]], t[2]);
    assert [t[0], t[1]] + [t[2]] == t;
  }

  /** A login removes the account exactly when it read that status and the logout was acknowledged. */
  lemma RemovalExact(t: Trace)
    requires Lawful(t) && Demanded(t).None?
    ensures (exists j | 0 <= j < |t| :: t[j].command.RemoveAccount?) <==>
        (exists i | 0 <= i < |t| :: t[i].command.Logout? && t[i].outcome.Ok?)
  {
    hide Lawful;
    if j :| 0 <= j < |t| && t[j].command.RemoveAccount? {
      RemovalEarned(t, j);
    }
    if i :| 0 <= i < |t| && t[i].command.Logout? && t[i].outcome.Ok? {
      LogoutEarned(t, i);
      DemandsMet(t, i + 1);
    }
  }

  lemma ProbeEarned(t: Trace, j: nat)
    requires Lawful(t) && j < |t| && t[j].command.Probe?
    ensures j > 4 && Target(t).Some? && Target(t).value.1 == t[j].command.account
    ensures var p := Target(t).value.0; var a := t[j].command.account;
            && t[j - 1].command == AuthStatus(p, a) && SignedIn(t[j - 1])
            && Completing(t[j - 2]) && t[j - 2].command.provider == p && t[j - 2].command.account == a
  {
    hide Lawful;
    NotEarly(t, j);
    OwedAt(t, j);
    StatusEarned(t, j - 1);
    CompletionEarned(t, j - 2);
  }

  lemma CompletionEarned(t: Trace, j: nat)
    requires Lawful(t) && j < |t| && t[j].command.CompleteAuth?
    ensures j >= 4 && Target(t) == Some((t[j].command.provider, t[j].command.account))
  {
    NotEarly(t, j);
    PermittedAt(t, j);
  }

  /**
   * `RetireDuplicateAccounts` is sent only for the account being signed in, after the provider reported completion, an
   * independent status verified it and the account answered a waiting probe.
   */
  lemma RetirementEarned(t: Trace, j: nat)
    requires Lawful(t) && j < |t| && t[j].command.RetireDuplicates?
    ensures j > 5 && Target(t) == Some((t[j].command.provider, t[j].command.account))
    ensures var p := t[j].command.provider; var a := t[j].command.account;
            && t[j - 1] == Exchange(Probe(a), Ok(Probed(a)))
            && t[j - 2].command == AuthStatus(p, a) && SignedIn(t[j - 2])
            && Completing(t[j - 3]) && t[j - 3].command.provider == p && t[j - 3].command.account == a
  {
    hide Lawful;
    NotEarly(t, j);
    OwedAt(t, j);
    ProbeEarned(t, j - 1);
    LawfulAt(t, j - 1);
  }

  /**
   * An account is named only after it verified and was probed, and a probe that answered was followed by the
   * retirement.
   */
  lemma {:induction false} NamingEarned(t: Trace, j: nat)
    requires Lawful(t) && j < |t| && (t[j].command.SetLabel? || t[j].command.ShowAccount?)
    ensures Target(t).Some? && t[j].command.account == Target(t).value.1
    ensures exists k :: 4 < k < j && t[k].command == Probe(t[j].command.account) && SignedIn(t[k - 1])
                        && (t[k].outcome.Ok? ==>
                           t[k + 1].command == RetireDuplicates(Target(t).value.0, t[j].command.account))
  {
    hide Lawful;
    NotEarly(t, j);
    PermittedAt(t, j);
    OwedAt(t, j);
    assert t[..j][j - 1] == t[j - 1];
    var last := t[j - 1];
    match last.command
    case SetLabel(_, _) => NamingEarned(t, j - 1);
    case Probe(_) =>
      ProbeEarned(t, j - 1);
      assert t[..j][j - 2] == t[j - 2];
      assert last.outcome.Err?;
    case RetireDuplicates(_, _) =>
      RetirementEarned(t, j - 1);
      assert t[j - 2].command == Probe(t[j].command.account) && SignedIn(t[j - 3]);
    case _ => assert false;
  }

  lemma GivingUpShows(t: Trace, j: nat)
    requires Lawful(t) && j < |t| && (t[j].command.Logout? || t[j].command.RemoveAccount?)
    ensures Disposing(t)
  {
    hide Lawful;
    LawfulAt(t, j);
    assert t[..j + 1][j] == t[j];
    DisposingLasts(t, j + 1);
  }

  /** A login that succeeds returns the account it verified, and has logged out and removed nothing. */
  lemma SuccessKeepsAccounts(t: Trace, p: string, account: Account)
    requires Lawful(t) && Ended(t, p, Ok(account))
    ensures Target(t).Some? && account.id == Target(t).value.1
    ensures forall j | 0 <= j < |t| :: !t[j].command.Logout? && !t[j].command.RemoveAccount?
    ensures exists k | 0 <= k < |t| :: t[k].command == AuthStatus(Target(t).value.0, account.id) && SignedIn(t[k])
  {
    hide Lawful, Permitted, Owed, Demanded, Disposing, Early, PermittedLater, AcceptsRefusal;
    var n := |t| - 1;
    LawfulAt(t, n);
    NamingEarned(t, n);
    var k :| 4 < k < n && t[k].command == Probe(account.id) && SignedIn(t[k - 1]);
    ProbeEarned(t, k);
    forall j | 0 <= j < |t| ensures !t[j].command.Logout? && !t[j].command.RemoveAccount? {
      if t[j].command.Logout? || t[j].command.RemoveAccount? {
        GivingUpShows(t, j);
      }
    }
  }

  /** Typing the number printed beside a listed account signs in on that account. */
  lemma PickedAccountIsTarget(t: Trace, hint: Option<string>, how: Option<Method>, answers: seq<Input>,
                              r: Result<Account, LoginError>, p: Provider, index: nat, rest: seq<Input>)
    requires Opens(t, hint, how, answers, r) && |t| >= 3 && t[1].outcome.Ok? && t[2].outcome.Ok?
    requires t[1].outcome.value.Providers? && t[2].outcome.value.Accounts?
    requires var own := AccountsOf(p.id, t[2].outcome.value.accounts);
      index < |own| < LARGEST_USIZE
      && ProviderPick(t[1].outcome.value.providers, hint, answers) == (Ok(p), [Typed(Decimal(index + 2))] + rest)
    ensures var own := AccountsOf(p.id, t[2].outcome.value.accounts);
      |t| > 3 && t[3].command == StartAuth(p.id, own[index].id, how) && Target(t) == Some((p.id, own[index].id))
  {
    hide ProviderPick, Menu, AccountsOf, Decimal;
    var own := AccountsOf(p.id, t[2].outcome.value.accounts);
    PrintedNumberPicks(index + 1, rest, |own| + 1, 0, 5);
  }

  /** Entry 1, typed or left blank, adds an account; so does a provider that has none, with nothing asked. */
  lemma PickedNewIsAdded(t: Trace, hint: Option<string>, how: Option<Method>, answers: seq<Input>,
                         r: Result<Account, LoginError>, p: Provider, first: string, rest: seq<Input>)
    requires Opens(t, hint, how, answers, r) && |t| >= 3 && t[1].outcome.Ok? && t[2].outcome.Ok?
    requires t[1].outcome.value.Providers? && t[2].outcome.value.Accounts?
    requires var own := AccountsOf(p.id, t[2].outcome.value.accounts);
      && |own| < LARGEST_USIZE
      && ProviderPick(t[1].outcome.value.providers, hint, answers).0 == Ok(p)
      && (own == []
          || (ProviderPick(t[1].outcome.value.providers, hint, answers).1 == [Typed(first)] + rest
              && (first == Decimal(1) || Trim(first) == "")))
    ensures |t| > 3 && t[3].command.AddAccount? && t[3].command.provider == p.id
    ensures t[3].outcome.Ok? && t[3].outcome.value.AccountIs? ==>
              |t| > 4 && t[4].command == StartAuth(p.id, t[3].outcome.value.account.id, how)
  {
    hide ProviderPick, Trim;
    var own := AccountsOf(p.id, t[2].outcome.value.accounts);
    if own != [] {
      PrintedNumberPicks(0, rest, |own| + 1, 0, 5);
    }
  }

  /** At most one account is created, and under a name no account of that provider uses. */
  lemma CreatedOnce(t: Trace, j: nat)
    requires Lawful(t) && j < |t| && t[j].command.AddAccount?
    ensures j == 3 && FreshName(t[3].command.provider, Seen(t, t[3].command.provider), t[3].command.name)
    ensures Offered(t, t[3].command.provider)
  {
    LawfulAt(t, j);
    if j > 3 {
      PermittedAt(t, j);
    } else {
      assert t[..3][1] == t[1] && t[..3][2] == t[2];
    }
  }

  /**
   * Every completion answers a challenge of this account: a value is sent once, and only open polls come in between.
   */
  lemma {:induction false} CompletionAnswers(t: Trace, j: nat)
    requires Lawful(t) && j < |t| && t[j].command.CompleteAuth?
    ensures Sendable(t[j].command.code, t[j].command.redirect)
    ensures exists k :: 3 <= k < j && AnswersStart(t, k, j) && (t[j].command.code.Some? ==> k == j - 1)
  {
    NotEarly(t, j);
    PermittedAt(t, j);
    var last := t[j - 1];
    assert t[..j][j - 1] == last;
    if last.command.StartAuth? {
      assert AnswersStart(t, j - 1, j);
    } else {
      CompletionAnswers(t, j - 1);
      var k :| 3 <= k < j - 1 && AnswersStart(t, k, j - 1);
      assert AnswersStart(t, k, j);
    }
  }

  predicate AnswersStart(t: Trace, k: nat, j: nat)
    requires k < j < |t| && t[j].command.CompleteAuth?
  {
    var c := t[j].command;
    && t[k].command.StartAuth? && t[k].command.provider == c.provider && t[k].command.account == c.account
    && t[k].outcome.Ok? && t[k].outcome.value.Challenged? && t[k].outcome.value.challenge.flow == c.flow
    && forall i | k < i < j :: Unsettled(t[i]) && t[i].command.flow == c.flow
  }
}
