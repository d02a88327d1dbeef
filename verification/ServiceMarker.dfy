/** The Windows service: a task registered under a random name, and the marker file that remembers the name. */
module ServiceMarker {
  import opened Basics

  // ---- The marker file ----

  datatype Marker = Pending(task: string) | Installed(task: string)

  const MAX_MARKER: nat := 192

  predicate Hex(c: char) {
    '0' <= c <= '9' || 'a' <= c <= 'f'
  }

  /** `Ullage-<scope>-<nonce>`: the scope is a SHA-256 digest in hex, the nonce sixteen random bytes in hex. */
  predicate ValidTask(task: string, scope: string) {
    |task| == 8 + |scope| + 32 && task[..7] == "Ullage-" && task[7..7 + |scope|] == scope && task[7 + |scope|] == '-'
    && forall i | 8 + |scope| <= i < |task| :: Hex(task[i])
  }

  predicate ValidScope(scope: string) {
    |scope| == 64 && forall i | 0 <= i < |scope| :: Hex(scope[i])
  }

  function NewLineAt(s: string): (n: nat)
    ensures n <= |s| && (n < |s| ==> s[n] == '\n') && forall i | 0 <= i < n :: s[i] != '\n'
  {
    if s == "" || s[0] == '\n' then 0 else 1 + NewLineAt(s[1..])
  }

  /** `split_terminator('\n')`: a final newline ends the last line and starts no other. */
  function Lines(s: string): seq<string> {
    if s == "" then [] else
    var n := NewLineAt(s);
    if n == |s| then [s] else [s[..n]] + Lines(s[n + 1..])
  }

  function ParseMarker(contents: string, scope: string): Option<Marker> {
    if |contents| > MAX_MARKER then None else
    var lines := Lines(contents);
    if |lines| != 2 || !ValidTask(lines[1], scope) then None
    else if lines[0] == "0" then Some(Pending(lines[1]))
    else if lines[0] == "1" then Some(Installed(lines[1]))
    else None
  }

  function Printed(m: Marker): string {
    (if m.Pending? then "0" else "1") + "\n" + m.task + "\n"
  }

  lemma TaskHasNoNewLine(task: string, scope: string)
    requires ValidScope(scope) && ValidTask(task, scope)
    ensures forall i | 0 <= i < |task| :: task[i] != '\n'
  {
    forall i | 0 <= i < |task| ensures task[i] != '\n' {
      if i < 7 {
        assert task[i] == task[..7][i];
      } else if i < 7 + |scope| {
        assert task[i] == task[7..7 + |scope|][i - 7];
      }
    }
  }

  lemma LinesSplit(a: string, b: string)
    requires forall i | 0 <= i < |a| :: a[i] != '\n'
    ensures Lines(a + "\n" + b) == [a] + Lines(b)
    ensures a != "" ==> Lines(a) == [a]
  {
    var s := a + "\n" + b;
    assert s[|a|] == '\n';
    assert forall i | 0 <= i < |a| :: s[i] == a[i];
    assert NewLineAt(s) == |a|;
    assert s[..|a|] == a && s[|a| + 1..] == b;
    if a != "" {
      assert NewLineAt(a) == |a|;
    }
  }

  lemma LinesJoin(s: string)
    ensures Lines(s) == [] ==> s == ""
    ensures |Lines(s)| == 1 ==> s == Lines(s)[0] || s == Lines(s)[0] + "\n"
    ensures |Lines(s)| == 2 ==> s == Lines(s)[0] + "\n" + Lines(s)[1] || s == Lines(s)[0] + "\n" + Lines(s)[1] + "\n"
  {
    if s != "" {
      var n := NewLineAt(s);
      if n < |s| {
        var rest := s[n + 1..];
        assert s == s[..n] + "\n" + rest;
        if rest != "" && NewLineAt(rest) < |rest| {
          var k := NewLineAt(rest);
          assert rest == rest[..k] + "\n" + rest[k + 1..];
          assert Lines(rest) == [rest[..k]] + Lines(rest[k + 1..]);
        }
      }
    }
  }

  lemma PrintedParses(m: Marker, scope: string, last: string)
    requires ValidScope(scope) && ValidTask(m.task, scope) && (last == "" || last == "\n")
    ensures ParseMarker((if m.Pending? then "0" else "1") + "\n" + (m.task + last), scope) == Some(m)
  {
    TaskHasNoNewLine(m.task, scope);
    LinesSplit(if m.Pending? then "0" else "1", m.task + last);
    LinesSplit(m.task, "");
    assert m.task + "\n" + "" == m.task + "\n" && m.task + "" == m.task;
  }

  /** The marker parser accepts exactly the printed forms, with or without the final newline. */
  lemma ParseMarkerIff(contents: string, scope: string, m: Marker)
    requires ValidScope(scope)
    ensures ParseMarker(contents, scope) == Some(m) <==>
            ValidTask(m.task, scope) && (contents == Printed(m) || contents + "\n" == Printed(m))
  {
    var digit := if m.Pending? then "0" else "1";
    if ValidTask(m.task, scope) && contents == Printed(m) {
      PrintedParses(m, scope, "\n");
      assert contents == digit + "\n" + (m.task + "\n");
    } else if ValidTask(m.task, scope) && contents + "\n" == Printed(m) {
      PrintedParses(m, scope, "");
      assert contents == (contents + "\n")[..|contents|] == digit + "\n" + (m.task + "");
    }
    if ParseMarker(contents, scope) == Some(m) {
      LinesJoin(contents);
    }
  }

  predicate Nonce(s: string) {
    |s| == 32 && forall i | 0 <= i < 32 :: s[i] in "0123456789abcdef"
  }

  lemma TaskText(task: string, scope: string)
    ensures ValidTask(task, scope) <==> exists nonce :: Nonce(nonce) && task == "Ullage-" + scope + "-" + nonce
  {
    var n := 8 + |scope|;
    if ValidTask(task, scope) {
      var nonce := task[n..];
      assert Nonce(nonce);
      assert task == task[..7] + task[7..n - 1] + [task[n - 1]] + nonce;
    }
    if nonce :| Nonce(nonce) && task == "Ullage-" + scope + "-" + nonce {
      assert task[n..] == nonce;
      assert forall i | n <= i < |task| :: task[i] == nonce[i - n];
    }
  }

  /** The marker as text: `0` or `1`, and a task of this user, each on a line of its own; the last may be open. */
  lemma MarkerText(contents: string, scope: string, task: string)
    requires ValidScope(scope)
    ensures ParseMarker(contents, scope) == Some(Pending(task)) <==>
              ((exists nonce :: Nonce(nonce) && task == "Ullage-" + scope + "-" + nonce)
               && (contents == "0\n" + task || contents == "0\n" + task + "\n"))
    ensures ParseMarker(contents, scope) == Some(Installed(task)) <==>
              ((exists nonce :: Nonce(nonce) && task == "Ullage-" + scope + "-" + nonce)
               && (contents == "1\n" + task || contents == "1\n" + task + "\n"))
  {
    hide ParseMarker, ValidTask, Nonce;
    TaskText(task, scope);
    ParseMarkerIff(contents, scope, Pending(task));
    ParseMarkerIff(contents, scope, Installed(task));
    OneNewLine(contents, "0\n" + task);
    OneNewLine(contents, "1\n" + task);
  }

  lemma OneNewLine(s: string, t: string)
    ensures s + "\n" == t + "\n" <==> s == t
  {
    if s + "\n" == t + "\n" {
      assert s == (s + "\n")[..|s|] && t == (t + "\n")[..|t|];
    }
  }

  /** Finalizing overwrites one byte, and turns a pending marker into an installed one for the same task. */
  lemma FinalizeFlips(contents: string, scope: string, task: string)
    requires ValidScope(scope) && ParseMarker(contents, scope) == Some(Pending(task))
    ensures contents != "" && ParseMarker("1" + contents[1..], scope) == Some(Installed(task))
  {
    hide ParseMarker, ValidTask;
    ParseMarkerIff(contents, scope, Pending(task));
    ParseMarkerIff("1" + contents[1..], scope, Installed(task));
    assert Printed(Pending(task))[1..] == Printed(Installed(task))[1..];
    if contents == Printed(Pending(task)) {
      assert "1" + contents[1..] == Printed(Installed(task));
    } else {
      assert (contents + "\n")[1..] == contents[1..] + "\n";
      assert "1" + contents[1..] + "\n" == Printed(Installed(task));
    }
  }

  // ---- What one command does ----

  /**
   * What one step meets. It works; it fails without effect; it misreports, which for an action means it takes effect
   * and reports failure, and for a query that an existing task is not found; or the process dies before it.
   */
  datatype Fate = Works | Fails | Misreports | Dies

  datatype Outcome = Completed | Failed | Crashed

  /** The marker and the registered Ullage tasks of this user, with the executable each one runs. */
  datatype Service = Service(marker: Option<Marker>, tasks: map<string, string>)

  /** Whatever is registered is named by the marker. */
  ghost predicate Named(s: Service) {
    forall t | t in s.tasks :: s.marker.Some? && s.marker.value.task == t
  }

  /** The fate of step `i`; past the end of the script every step works. */
  function At(script: seq<Fate>, i: nat): Fate {
    if i < |script| then script[i] else Works
  }

  function Report(f: Fate): Outcome {
    match f
    case Works => Completed
    case Dies => Crashed
    case _ => Failed
  }

  predicate TakesEffect(f: Fate) {
    f.Works? || f.Misreports?
  }

  /** `task_definition_exists`: any failure exit of the query counts as absence. */
  function Query(s: Service, task: string, f: Fate): (Outcome, bool) {
    match f
    case Works => (Completed, task in s.tasks)
    case Misreports => (Completed, false)
    case _ => (Report(f), false)
  }

  /** A step that leaves `t` if it takes effect. */
  function Acted(s: Service, t: Service, f: Fate): (Service, Outcome) {
    (if TakesEffect(f) then t else s, Report(f))
  }

  /** A creation fails where the task exists, unless it may replace it. */
  function Registered(s: Service, task: string, executable: string, replace: bool, f: Fate): (Service, Outcome) {
    if task in s.tasks && !replace && !f.Dies? then (s, Failed)
    else Acted(s, s.(tasks := s.tasks[task := executable]), f)
  }

  function Deleted(s: Service, task: string, f: Fate): (Service, Outcome) {
    if task !in s.tasks && !f.Dies? then (s, Failed) else Acted(s, s.(tasks := s.tasks - {task}), f)
  }

  function Marked(s: Service, task: string, script: seq<Fate>, i: nat): (Service, Outcome) {
    if At(script, i) != Works then (s, Report(At(script, i)))
    else if s.marker.Some? then (s, Failed)
    else Acted(s, s.(marker := Some(Pending(task))), At(script, i + 1))
  }

  function Unmarked(s: Service, script: seq<Fate>, i: nat): (Service, Outcome) {
    if At(script, i) != Works then (s, Report(At(script, i)))
    else if s.marker.None? then (s, Completed)
    else Acted(s, s.(marker := None), At(script, i + 1))
  }

  function Finalized(s: Service, task: string, f: Fate): (Service, Outcome) {
    Acted(s, s.(marker := Some(Installed(task))), f)
  }

  function Freshly(s: Service, task: string, executable: string, script: seq<Fate>, i: nat): (Service, Outcome) {
    var (s1, o1) := Marked(s, task, script, i);
    if !o1.Completed? then (s1, o1) else
    var (s2, o2) := Registered(s1, task, executable, false, At(script, i + 2));
    match o2
    case Completed => Finalized(s2, task, At(script, i + 3))
    case Crashed => (s2, Crashed)
    case Failed => var (s3, o3) := Unmarked(s2, script, i + 3); (s3, if o3.Crashed? then Crashed else Failed)
  }

  function Recovered(s: Service, task: string, executable: string, script: seq<Fate>, i: nat): (Service, Outcome) {
    var (o0, found) := Query(s, task, At(script, i));
    if !o0.Completed? then (s, o0)
    else if found then
      var (o1, again) := Query(s, task, At(script, i + 1));
      if !o1.Completed? then (s, o1) else if !again then (s, Failed) else Finalized(s, task, At(script, i + 2))
    else
      var (s1, o1) := Registered(s, task, executable, false, At(script, i + 1));
      if !o1.Completed? then (s1, o1) else Finalized(s1, task, At(script, i + 2))
  }

  function Refreshed(s: Service, task: string, executable: string, script: seq<Fate>, i: nat): (Service, Outcome) {
    var (o0, found) := Query(s, task, At(script, i));
    if !o0.Completed? then (s, o0) else if !found then (s, Failed) else
    var (o1, again) := Query(s, task, At(script, i + 1));
    if !o1.Completed? then (s, o1) else if !again then (s, Failed) else
    Registered(s, task, executable, true, At(script, i + 2))
  }

  /** `manage(Install)` with a freshly drawn task name. */
  function Installing(s: Service, task: string, executable: string, script: seq<Fate>, i: nat): (Service, Outcome) {
    if At(script, i) != Works then (s, Report(At(script, i))) else
    match s.marker
    case None => Freshly(s, task, executable, script, i + 1)
    case Some(Pending(t)) => Recovered(s, t, executable, script, i + 1)
    case Some(Installed(t)) => Refreshed(s, t, executable, script, i + 1)
  }

  /** `manage(Uninstall)`. */
  function Uninstalling(s: Service, script: seq<Fate>, i: nat): (Service, Outcome) {
    if At(script, i) != Works then (s, Report(At(script, i)))
    else if s.marker.None? then (s, Completed) else
    var t := s.marker.value.task;
    var (o1, found) := Query(s, t, At(script, i + 1));
    if !o1.Completed? then (s, o1)
    else if !found then
      if s.marker.value.Installed? then (s, Failed) else Unmarked(s, script, i + 2)
    else
      var (s2, o2) := Deleted(s, t, At(script, i + 2));
      if !o2.Completed? then (s2, o2) else Unmarked(s2, script, i + 3)
  }

  // ---- The service manager, step by step ----

  class Host {
    const scope: string
    var contents: Option<string> // the marker file
    var tasks: map<string, string> // the registered Ullage tasks of this user, and what they run
    var script: seq<Fate> // what the steps of this command meet
    var step: nat

    constructor (scope: string, contents: Option<string>, tasks: map<string, string>, script: seq<Fate>)
      requires ValidScope(scope) && (contents.Some? ==> ParseMarker(contents.value, scope).Some?)
      ensures Valid() && this.scope == scope && this.contents == contents && this.tasks == tasks
          && this.script == script
      ensures step == 0
    {
      this.scope, this.contents, this.tasks, this.script, this.step := scope, contents, tasks, script, 0;
    }

    ghost predicate Valid()
      reads this
    {
      ValidScope(scope) && (contents.Some? ==> ParseMarker(contents.value, scope).Some?)
    }

    function Marker(): Option<Marker>
      reads this
    {
      if contents.None? then None else ParseMarker(contents.value, scope)
    }

    function Now(): Service
      reads this
    {
      Service(Marker(), tasks)
    }

    method Draw() returns (f: Fate)
      modifies this`step
      ensures f == At(script, old(step)) && step == old(step) + 1
    {
      f := At(script, step);
      step := step + 1;
    }

    method TaskMarkerState() returns (o: Outcome, m: Option<Marker>)
      requires Valid()
      modifies this`step
      ensures step == old(step) + 1 && o == Report(At(script, old(step))) && (o.Completed? ==> m == Marker())
    {
      var f := Draw();
      o, m := Report(f), if f.Works? then Marker() else None;
    }

    /** `task_definition_exists` */
    method TaskExists(task: string) returns (o: Outcome, found: bool)
      modifies this`step
      ensures step == old(step) + 1 && (o, found) == Query(Now(), task, At(script, old(step)))
    {
      var f := Draw();
      match f
      case Works => o, found := Completed, task in tasks;
      case Fails => o, found := Failed, false;
      case Misreports => o, found := Completed, false;
      case Dies => o, found := Crashed, false;
    }

    method RegisterTask(task: string, executable: string, replace: bool) returns (o: Outcome)
      modifies this`step, this`tasks
      ensures step == old(step) + 1
      ensures (Now(), o) == Registered(old(Now()), task, executable, replace, At(script, old(step)))
    {
      var f := Draw();
      if f.Dies? { return Crashed; }
      if f.Fails? || (task in tasks && !replace) { return Failed; }
      tasks := tasks[task := executable];
      o := Report(f);
    }

    method DeleteTask(task: string) returns (o: Outcome)
      modifies this`step, this`tasks
      ensures step == old(step) + 1 && (Now(), o) == Deleted(old(Now()), task, At(script, old(step)))
    {
      var f := Draw();
      if f.Dies? { return Crashed; }
      if f.Fails? || task !in tasks { return Failed; }
      tasks := tasks - {task};
      o := Report(f);
    }

    /** Written to a temporary file and renamed into place, so it appears whole or not at all. */
    method CreatePendingMarker(task: string) returns (o: Outcome)
      requires Valid() && ValidTask(task, scope)
      modifies this`step, this`contents
      ensures Valid() && (Now(), o) == Marked(old(Now()), task, script, old(step))
      ensures o.Completed? ==> step == old(step) + 2
    {
      var m;
      o, m := TaskMarkerState();
      if !o.Completed? { return; }
      if m.Some? { return Failed; }
      var f := Draw();
      if TakesEffect(f) {
        ParseMarkerIff(Printed(Pending(task)), scope, Pending(task));
        contents := Some(Printed(Pending(task)));
      }
      o := Report(f);
    }

    /** Overwrites the first byte of the marker. */
    method FinalizeMarker() returns (o: Outcome)
      requires Valid() && Marker().Some? && Marker().value.Pending?
      modifies this`step, this`contents
      ensures Valid() && (Now(), o) == Finalized(old(Now()), old(Marker()).value.task, At(script, old(step)))
    {
      var f := Draw();
      if TakesEffect(f) {
        FinalizeFlips(contents.value, scope, Marker().value.task);
        contents := Some("1" + contents.value[1..]);
      }
      o := Report(f);
    }

    method RemoveMarker() returns (o: Outcome)
      requires Valid()
      modifies this`step, this`contents
      ensures Valid() && (Now(), o) == Unmarked(old(Now()), script, old(step))
    {
      var m;
      o, m := TaskMarkerState();
      if !o.Completed? || m.None? { return; }
      var f := Draw();
      if TakesEffect(f) {
        contents := None;
      }
      o := Report(f);
    }

    method RecoverPendingInstall(task: string, executable: string) returns (o: Outcome)
      requires Valid() && Marker() == Some(Pending(task))
      modifies this`step, this`contents, this`tasks
      ensures Valid() && (Now(), o) == Recovered(old(Now()), task, executable, script, old(step))
    {
      var found;
      o, found := TaskExists(task);
      if !o.Completed? { return; }
      if found {
        o, found := TaskExists(task);
        if !o.Completed? { return; }
        if !found { return Failed; }
      } else {
        o := RegisterTask(task, executable, false);
        if !o.Completed? { return; }
      }
      o := FinalizeMarker();
    }

    method FreshInstall(task: string, executable: string) returns (o: Outcome)
      requires Valid() && ValidTask(task, scope) && Marker().None?
      modifies this`step, this`contents, this`tasks
      ensures Valid() && (Now(), o) == Freshly(old(Now()), task, executable, script, old(step))
    {
      o := CreatePendingMarker(task);
      if !o.Completed? { return; }
      o := RegisterTask(task, executable, false);
      if o.Crashed? { return; }
      if o.Failed? {
        var rollback := RemoveMarker();
        return if rollback.Crashed? then Crashed else Failed;
      }
      o := FinalizeMarker();
    }

    /** `manage(Install)`. A crash can end it before any of its steps. */
    method Install(task: string, executable: string) returns (o: Outcome)
      requires Valid() && ValidTask(task, scope)
      modifies this`step, this`contents, this`tasks
      ensures Valid() && (Now(), o) == Installing(old(Now()), task, executable, script, old(step))
    {
      var m;
      o, m := TaskMarkerState();
      if !o.Completed? { return; }
      match m
      case None => o := FreshInstall(task, executable);
      case Some(Pending(t)) => o := RecoverPendingInstall(t, executable);
      case Some(Installed(t)) =>
        var found;
        o, found := TaskExists(t);
        if !o.Completed? { return; }
        if !found { return Failed; }
        o, found := TaskExists(t);
        if !o.Completed? { return; }
        if !found { return Failed; }
        o := RegisterTask(t, executable, true);
    }

    /** `manage(Uninstall)`. */
    method Uninstall() returns (o: Outcome)
      requires Valid()
      modifies this`step, this`contents, this`tasks
      ensures Valid() && (Now(), o) == Uninstalling(old(Now()), script, old(step))
    {
      var m;
      o, m := TaskMarkerState();
      if !o.Completed? || m.None? { return; }
      var t := m.value.task;
      var found;
      o, found := TaskExists(t);
      if !o.Completed? { return; }
      if m.value.Installed? && !found { return Failed; }
      if found {
        o := DeleteTask(t);
        if !o.Completed? { return; }
      }
      o := RemoveMarker();
    }
  }

  // ---- Main results: one command ----

  /** A creation that took effect but reported failure, and a rollback that removed the marker all the same. */
  predicate RollbackOrphans(script: seq<Fate>, i: nat) {
    && At(script, i) == Works && At(script, i + 1) == Works && At(script, i + 2) == Misreports
    && At(script, i + 3) == Works && TakesEffect(At(script, i + 4))
  }

  /** A query that overlooked the task of a pending marker, and a marker that was then removed. */
  predicate OversightOrphans(script: seq<Fate>, i: nat) {
    At(script, i) == Works && At(script, i + 1) == Misreports && At(script, i + 2) == Works
      && TakesEffect(At(script, i + 3))
  }

  /** A first install leaves a task that no marker names exactly in that one way. */
  lemma FreshOrphansIff(s: Service, task: string, executable: string, script: seq<Fate>, i: nat)
    requires s.marker.None? && Named(s)
    ensures !Named(Freshly(s, task, executable, script, i).0) <==> RollbackOrphans(script, i)
  {
    var after := Freshly(s, task, executable, script, i).0;
    assert s.tasks == map[];
    if after.tasks != map[] {
      assert task in after.tasks;
    }
  }

  /** Recovering a pending install and refreshing an installed task never do, whatever their steps meet. */
  lemma RecoveryNeverOrphans(s: Service, executable: string, script: seq<Fate>, i: nat)
    requires s.marker.Some? && Named(s)
    ensures Named(Recovered(s, s.marker.value.task, executable, script, i).0)
        && Named(Refreshed(s, s.marker.value.task, executable, script, i).0)
  {
  }

  lemma InstallOrphansIff(s: Service, task: string, executable: string, script: seq<Fate>)
    requires Named(s)
    ensures !Named(Installing(s, task, executable, script, 0).0) <==>
            s.marker.None? && At(script, 0) == Works && RollbackOrphans(script, 1)
  {
    if s.marker.None? {
      FreshOrphansIff(s, task, executable, script, 1);
    } else {
      RecoveryNeverOrphans(s, executable, script, 1);
    }
  }

  /** A named state has the one task its marker names, or none. */
  lemma OneTask(s: Service)
    requires Named(s)
    ensures s.tasks == map[] || (s.marker.Some? && s.marker.value.task in s.tasks
                                 && s.tasks == map[s.marker.value.task := s.tasks[s.marker.value.task]])
  {
    if s.tasks != map[] {
      var t :| t in s.tasks;
    }
  }

  lemma UninstallOrphansIff(s: Service, script: seq<Fate>)
    requires Named(s)
    ensures !Named(Uninstalling(s, script, 0).0) <==>
            s.marker.Some? && s.marker.value.Pending? && s.tasks != map[] && OversightOrphans(script, 0)
  {
    OneTask(s);
  }

  /**
   * A completed install ends installed, with exactly the task the marker named or, without one, the new one, and that
   * task runs this executable. Only a pending task found registered is kept as it was.
   */
  lemma InstallCompletes(s: Service, task: string, executable: string, script: seq<Fate>)
    requires Named(s) && Installing(s, task, executable, script, 0).1.Completed?
    ensures var t := if s.marker.Some? then s.marker.value.task else task;
      Installing(s, task, executable, script, 0).0 ==
      Service(Some(Installed(t)),
              if s.marker == Some(Pending(t)) && t in s.tasks then s.tasks else map[t := executable])
  {
    OneTask(s);
    assert s.tasks != map[] ==> s.tasks[s.marker.value.task := executable] == map[s.marker.value.task := executable];
  }

  predicate AllWork(script: seq<Fate>, steps: nat) {
    forall i | 0 <= i < steps :: At(script, i) == Works
  }

  /** A query that an absent task passes. */
  predicate Absent(f: Fate) {
    f.Works? || f.Misreports?
  }

  /** Which steps have to work for an install to complete. */
  lemma InstallCompletesIff(s: Service, task: string, executable: string, script: seq<Fate>)
    requires Named(s)
    ensures Installing(s, task, executable, script, 0).1.Completed? <==>
              match s.marker
              case None => AllWork(script, 5)
              case Some(Pending(t)) =>
                if t in s.tasks then AllWork(script, 4)
                else At(script, 0) == Works && Absent(At(script, 1)) && At(script, 2) == Works && At(script, 3) == Works
              case Some(Installed(t)) => t in s.tasks && AllWork(script, 4)
  {
    OneTask(s);
    Five(script);
  }

  lemma Five(script: seq<Fate>)
    ensures AllWork(script, 4) <==>
              At(script, 0) == Works && At(script, 1) == Works && At(script, 2) == Works && At(script, 3) == Works
    ensures AllWork(script, 5) <==> AllWork(script, 4) && At(script, 4) == Works
  {
  }

  /** Which steps have to work for an uninstall to complete. */
  lemma UninstallCompletesIff(s: Service, script: seq<Fate>)
    requires Named(s)
    ensures Uninstalling(s, script, 0).1.Completed? <==>
              match s.marker
              case None => At(script, 0) == Works
              case Some(Pending(t)) =>
                || (t in s.tasks && AllWork(script, 5))
                || ((t !in s.tasks || At(script, 1) == Misreports)
                    && At(script, 0) == Works && Absent(At(script, 1))
                    && At(script, 2) == Works && At(script, 3) == Works)
              case Some(Installed(t)) => t in s.tasks && AllWork(script, 5)
  {
    OneTask(s);
    Five(script);
  }

  /** A completed uninstall ends with no marker, and with no task unless a query overlooked one. */
  lemma UninstallCompletes(s: Service, script: seq<Fate>)
    requires Named(s) && Uninstalling(s, script, 0).1.Completed?
    ensures Uninstalling(s, script, 0).0.marker.None?
    ensures Uninstalling(s, script, 0).0.tasks == map[] <==>
            !(s.marker.Some? && s.marker.value.Pending? && s.tasks != map[] && At(script, 1) == Misreports)
  {
    OneTask(s);
  }

  /** Undisturbed commands complete from every named state but one: an installed marker whose task is gone. */
  lemma UndisturbedCompletes(s: Service, task: string, executable: string)
    requires Named(s)
    ensures Installing(s, task, executable, [], 0).1.Completed? <==>
            !(s.marker.Some? && s.marker.value.Installed? && s.tasks == map[])
    ensures Uninstalling(s, [], 0).1.Completed? <==>
            !(s.marker.Some? && s.marker.value.Installed? && s.tasks == map[])
  {
    OneTask(s);
  }

  // ---- Main results: whole runs ----

  datatype Command = DoInstall(task: string, executable: string, fates: seq<Fate>) | DoUninstall(fates: seq<Fate>)

  predicate ValidCommand(c: Command, scope: string) {
    c.DoInstall? ==> ValidTask(c.task, scope)
  }

  function After(s: Service, c: Command): Service {
    match c
    case DoInstall(task, executable, fates) => Installing(s, task, executable, fates, 0).0
    case DoUninstall(fates) => Uninstalling(s, fates, 0).0
  }

  function AfterAll(s: Service, commands: seq<Command>): Service
    decreases |commands|
  {
    if commands == [] then s else AfterAll(After(s, commands[0]), commands[1..])
  }

  /** The two ways in which a command leaves a task unnamed. */
  predicate Orphans(s: Service, c: Command) {
    match c
    case DoInstall(_, _, fates) => s.marker.None? && At(fates, 0) == Works && RollbackOrphans(fates, 1)
    case DoUninstall(fates) =>
      s.marker.Some? && s.marker.value.Pending? && s.tasks != map[] && OversightOrphans(fates, 0)
  }

  lemma StepOrphansIff(s: Service, c: Command)
    requires Named(s)
    ensures !Named(After(s, c)) <==> Orphans(s, c)
  {
    match c
    case DoInstall(task, executable, fates) => InstallOrphansIff(s, task, executable, fates);
    case DoUninstall(fates) => UninstallOrphansIff(s, fates);
  }

  ghost predicate NamedThroughout(s: Service, commands: seq<Command>)
    decreases |commands|
  {
    Named(s) && (commands == [] || NamedThroughout(After(s, commands[0]), commands[1..]))
  }

  predicate NeverOrphans(s: Service, commands: seq<Command>)
    decreases |commands|
  {
    commands == [] || (!Orphans(s, commands[0]) && NeverOrphans(After(s, commands[0]), commands[1..]))
  }

  /**
   * Over any sequence of commands, failing or dying anywhere, tasks stay named exactly while no command orphans one.
   */
  lemma {:induction false} NamedThroughoutIff(s: Service, commands: seq<Command>)
    requires Named(s)
    ensures NamedThroughout(s, commands) <==> NeverOrphans(s, commands)
    decreases |commands|
  {
    if commands != [] {
      StepOrphansIff(s, commands[0]);
      if Named(After(s, commands[0])) {
        NamedThroughoutIff(After(s, commands[0]), commands[1..]);
      }
    }
  }

  predicate Honest(script: seq<Fate>) {
    forall i | 0 <= i < |script| :: !script[i].Misreports?
  }

  /** Failures and crashes alone never orphan a task: something has to misreport. */
  lemma {:induction false} HonestNeverOrphans(s: Service, commands: seq<Command>)
    requires forall i | 0 <= i < |commands| :: Honest(commands[i].fates)
    ensures NeverOrphans(s, commands)
    decreases |commands|
  {
    if commands != [] {
      assert Honest(commands[0].fates);
      HonestNeverOrphans(After(s, commands[0]), commands[1..]);
    }
  }

  /** What a marker file and the tasks there are say. */
  function Found(contents: Option<string>, tasks: map<string, string>, scope: string): Service {
    Service(if contents.None? then None else ParseMarker(contents.value, scope), tasks)
  }

  /** From any marker file the program can read and any tasks: file and tasks end up as the commands say. */
  method Replay(scope: string, contents: Option<string>, start: map<string, string>, commands: seq<Command>)
    returns (marker: Option<Marker>, tasks: map<string, string>)
    requires ValidScope(scope) && forall i | 0 <= i < |commands| :: ValidCommand(commands[i], scope)
    requires contents.Some? ==> ParseMarker(contents.value, scope).Some?
    ensures Service(marker, tasks) == AfterAll(Found(contents, start, scope), commands)
    ensures Named(Found(contents, start, scope)) && NeverOrphans(Found(contents, start, scope), commands) ==>
              Named(Service(marker, tasks))
    ensures marker.Some? ==> ValidTask(marker.value.task, scope)
  {
    var host := new Host(scope, contents, start, []);
    ghost var first := host.Now();
    assert commands[0..] == commands;
    for k := 0 to |commands|
      invariant host.Valid() && host.scope == scope && fresh(host)
      invariant AfterAll(first, commands) == AfterAll(host.Now(), commands[k..])
      invariant Named(first) && NeverOrphans(first, commands) ==>
                  NeverOrphans(host.Now(), commands[k..]) && Named(host.Now())
    {
      assert commands[k..][1..] == commands[k + 1..];
      StepOrphansNamed(host.Now(), commands[k]);
      host.script, host.step := commands[k].fates, 0;
      var outcome;
      match commands[k] {
        case DoInstall(task, executable, _) => outcome := host.Install(task, executable);
        case DoUninstall(_) => outcome := host.Uninstall();
      }
    }
    marker, tasks := host.Marker(), host.tasks;
    if marker.Some? {
      ParseMarkerIff(host.contents.value, scope, marker.value);
    }
  }

  lemma StepOrphansNamed(s: Service, c: Command)
    ensures Named(s) && !Orphans(s, c) ==> Named(After(s, c))
  {
    if Named(s) {
      StepOrphansIff(s, c);
    }
  }

  /** Both ways are real: one lying creation, or one lying query, leaves a registered task that no marker names. */
  method MisreportsOrphan(scope: string, task: string, executable: string, query: bool)
    returns (marker: Option<Marker>, tasks: map<string, string>)
    requires ValidScope(scope) && ValidTask(task, scope)
    ensures marker.None? && tasks == map[task := executable] && !Named(Service(marker, tasks))
  {
    // the second way starts from a process that died between creating the task and finalizing the marker
    var commands := if query
      then [DoInstall(task, executable, [Works, Works, Works, Works, Dies]), DoUninstall([Works, Misreports])]
      else [DoInstall(task, executable, [Works, Works, Works, Misreports])];
    marker, tasks := Replay(scope, None, map[], commands);
    ghost var start := Service(None, map[]);
    ghost var first := After(start, commands[0]);
    ghost var left := map[task := executable];
    assert map[][task := executable] == left;
    if query {
      assert first == Service(Some(Pending(task)), left);
      assert commands[1..] == [commands[1]] && commands[1..][1..] == [];
      assert After(first, commands[1]) == Service(None, left);
      assert AfterAll(After(first, commands[1]), []) == Service(None, left);
    } else {
      assert first == Service(None, left);
      assert commands[1..] == [];
    }
    assert task in tasks;
  }
}
