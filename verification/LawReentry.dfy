/** Runs in which what a coroutine saw has changed when it takes the write lock: two
    calls enter the same law one after the other, and the watchdog's failsafe runs
    under a law that is not REMOTE. */
module LawReentry {
  import opened Wrappers
  import opened Laws
  import opened Admission
  import opened LawProtocol
  import opened LawSafety
  import opened LawProgress
  import opened LawAlone
  import opened LawTheorems
  import ShippedLaws

  // ----- continuing a run -----

  /** Some continuation of `run` leads to `state`. */
  ghost predicate Continues(s: Setup, table: Table, run: seq<Action>, state: State)
    requires BASE in s.book
  {
    && Execute(s, table, run).Some? && |Execute(s, table, run).value.log| <= |state.log|
    && exists more :: Execute(s, table, run + more) == Some(state)
  }

  lemma ContinuesItself(s: Setup, table: Table, run: seq<Action>)
    requires BASE in s.book && Execute(s, table, run).Some?
    ensures Continues(s, table, run, Execute(s, table, run).value)
  {
    assert run + [] == run;
  }

  lemma LogGrows(s: Setup, state: State, a: Action)
    requires BASE in s.book && LawProtocol.Next(s, state, a).Some?
    ensures |state.log| <= |LawProtocol.Next(s, state, a).value.log|
  {}

  lemma ContinueStep(s: Setup, table: Table, run: seq<Action>, state: State, a: Action, after: State)
    requires BASE in s.book && Continues(s, table, run, state) && LawProtocol.Next(s, state, a) == Some(after)
    ensures Continues(s, table, run, after)
  {
    var more :| Execute(s, table, run + more) == Some(state);
    LogGrows(s, state, a);
    LawProgress.ExecuteSnoc(s, table, run + more, a);
    assert (run + more) + [a] == run + (more + [a]);
  }

  lemma {:induction false} ContinueSolo(step: Mover, s: Setup, table: Table, run: seq<Action>, state: State, t: nat,
                                     replies: nat -> Reply, n: nat)
    requires BASE in s.book && IsSolo(step, s, t, replies) && Continues(s, table, run, state)
    requires Iterate(step, state, n).Some?
    ensures Continues(s, table, run, Iterate(step, state, n).value)
    decreases n
  {
    if n > 0 {
      assert step(state) == SoloStep(s, state, t, replies);
      var a := Step(Who(state, t), Answer(state.tasks[t], replies));
      ContinueStep(s, table, run, state, a, step(state).value);
      ContinueSolo(step, s, table, run, step(state).value, t, replies, n - 1);
    }
  }

  lemma ContinuedInv(s: Setup, table: Table, run: seq<Action>, state: State)
    requires BASE in s.book && Continues(s, table, run, state)
    ensures LogInOrder(s, state.log) && LawFollows(s, state.shared, state.log) && Numbered(state)
  {
    var more :| Execute(s, table, run + more) == Some(state);
    RunsKeepInv(s, table, run + more);
  }

  // ----- other coroutines -----

  /** The steps of `t` leave alone whoever `t` does not wait for. */
  lemma {:induction false} SoloLeavesOthers(step: Mover, s: Setup, state: State, t: nat, replies: nat -> Reply,
          n: nat, u: nat)
    requires BASE in s.book && IsSolo(step, s, t, replies) && Iterate(step, state, n).Some?
    requires t in state.tasks && u in state.tasks && u != t && u < state.next && ChildOf(state.tasks[t]) != Some(u)
    ensures var end := Iterate(step, state, n).value; u in end.tasks && end.tasks[u] == state.tasks[u]
    decreases n
  {
    if n > 0 {
      OneSoloLeavesOthers(s, state, t, replies, u);
      assert step(state) == SoloStep(s, state, t, replies);
      SoloLeavesOthers(step, s, step(state).value, t, replies, n - 1, u);
    }
  }

  lemma OneSoloLeavesOthers(s: Setup, state: State, t: nat, replies: nat -> Reply, u: nat)
    requires BASE in s.book && t in state.tasks && SoloStep(s, state, t, replies).Some?
    requires u in state.tasks && u != t && u < state.next && ChildOf(state.tasks[t]) != Some(u)
    ensures var end := SoloStep(s, state, t, replies).value;
      && u in end.tasks && end.tasks[u] == state.tasks[u] && u < end.next
      && t in end.tasks && ChildOf(end.tasks[t]) != Some(u)
  {
    var w := Who(state, t);
    WaitsForWhatItStarted(s, w, state.tasks[w], state.shared, EnvOf(state, w, Answer(state.tasks[t], replies)));
  }

  // ----- from the arrival to the wish for a law -----

  ghost predicate FreeLock(state: State) {
    state.shared.readers == 0 && !state.shared.writer
  }

  lemma ToWantLaw(s: Setup, table: Table, run: seq<Action>, state: State, t: nat, call: Call, target: string,
                  replies: nat -> Reply)
    returns (end: State)
    requires BASE in s.book && Continues(s, table, run, state) && FreeLock(state)
    requires t in state.tasks && state.tasks[t] == Arrived(call)
    requires state.shared.law.Some? && state.shared.law.value in s.book
    requires Permits(s.matches, s.book[state.shared.law.value], s.book[BASE], call)
    requires NextState(s, state.shared.law, call) == Some(target)
    ensures Continues(s, table, run, end) && end.shared == state.shared
    ensures t in end.tasks && end.tasks[t].WantLaw? && end.tasks[t].origin.FromCall? && end.tasks[t].target == target
    ensures forall u :: u in state.tasks && u != t ==> u in end.tasks && end.tasks[u] == state.tasks[u]
  {
    var sh, c := state.shared, |state.log|;
    var s1 := Moved(s, table, run, state, t, replies(0), Effect(Checking(call), sh.(readers := 1), []));
    var s2 := Moved(s, table, run, s1, t, replies(0), Effect(Permitted(call, c), sh, [Checked(t, call, true)]));
    var s3 := Moved(s, table, run, s2, t, replies(0), Effect(Matching(call, c), sh.(readers := 1), []));
    end := Moved(s, table, run, s3, t, replies(0),
                 Effect(WantLaw(FromCall(call, c, |s3.log|), target), sh, [Matched(t, call, target)]));
  }

  /** One step with its effect, if it starts nothing. */
  lemma Moved(s: Setup, table: Table, run: seq<Action>, state: State, t: nat, answer: Reply, e: Effect)
    returns (after: State)
    requires BASE in s.book && Continues(s, table, run, state) && t in state.tasks && e.spawn.None?
    requires Advance(s, t, state.tasks[t], state.shared, EnvOf(state, t, answer)) == Some(e)
    ensures after == State(e.shared, state.tasks[t := e.pc], state.next, state.log + e.events)
    ensures Continues(s, table, run, after)
  {
    after := State(e.shared, state.tasks[t := e.pc], state.next, state.log + e.events);
    StepsTo(s, state, t, answer, e, after);
    ContinueStep(s, table, run, state, Step(t, answer), after);
  }

  // ----- two callers -----

  /** `run` can continue so that, in what comes after it, a call enters `law` although
      it is in force. */
  ghost predicate EntersAgain(s: Setup, table: Table, run: seq<Action>, law: string)
    requires BASE in s.book
  {
    exists state: State, i: nat ::
      && Continues(s, table, run, state) && |Execute(s, table, run).value.log| <= i < |state.log|
      && state.log[i].Committed? && state.log[i].origin.FromCall? && state.log[i].law == law && Reenters(state.log, i)
  }

  /** The second caller, which already wants the law that the first has entered. */
  lemma SecondEnters(s: Setup, table: Table, run: seq<Action>, state: State, t: nat, replies: nat -> Reply)
    requires BASE in s.book && s.sender == AUTHORITY && Continues(s, table, run, state) && FreeLock(state)
    requires t in state.tasks && state.tasks[t].WantLaw? && state.tasks[t].origin.FromCall?
    requires var law := Effective(s.book, state.tasks[t].target);
      && law in s.book && AllCompleted(Results(s.known, s.book[law].enter, replies))
      && state.shared.law == Some(law)
    ensures EntersAgain(s, table, run, Effective(s.book, state.tasks[t].target))
  {
    var o, law := state.tasks[t].origin, Effective(s.book, state.tasks[t].target);
    var step := Solo(s, t, replies);
    ContinuedInv(s, table, run, state);
    var n := BatchAlone(step, s, state, t, o, state.tasks[t].target, replies);
    ContinueSolo(step, s, table, run, state, t, replies, n);
    var s1 := Iterate(step, state, n).value;
    var end := Commits(s, table, run, s1, t, o, law, |state.log|, replies);
    ContinuedInv(s, table, run, s1);
    var i := |s1.log|;
    assert end.log[..i] == s1.log;
    assert Reenters(end.log, i);
  }

  /** The commit, as the next event of the log. */
  lemma Commits(s: Setup, table: Table, run: seq<Action>, state: State, t: nat, o: Origin, law: string, since: nat,
                replies: nat -> Reply)
    returns (end: State)
    requires BASE in s.book && law in s.book && Continues(s, table, run, state)
    requires EntersAt(s, state, t, o, law, since, replies, |s.book[law].enter|)
    requires AllCompleted(Results(s.known, s.book[law].enter, replies))
    ensures Continues(s, table, run, end) && end.shared == state.shared.(law := Some(law), writer := false)
    ensures |end.log| > |state.log| && end.log[..|state.log|] == state.log
    ensures end.log[|state.log|] == Committed(t, o, law, since)
    ensures forall u :: u in state.tasks && u != t ==> u in end.tasks && end.tasks[u] == state.tasks[u]
  {
    var results := Results(s.known, s.book[law].enter, replies);
    assert results[..|results|] == results;
    var (after, began) := AfterLaw(t, o);
    end := Moved(s, table, run, state, t, replies(0),
                 Effect(after, state.shared.(law := Some(law), writer := false),
                   [Committed(t, o, law, since)] + began));
  }

  /** Two calls arrive and are matched before either takes the write lock. */
  lemma BothWantLaw(s: Setup, table: Table, run: seq<Action>, state: State, call: Call, target: string,
                    replies: nat -> Reply)
    returns (end: State)
    requires BASE in s.book && Continues(s, table, run, state) && FreeLock(state)
    requires state.shared.law.Some? && state.shared.law.value in s.book
    requires Permits(s.matches, s.book[state.shared.law.value], s.book[BASE], call)
    requires NextState(s, state.shared.law, call) == Some(target)
    ensures Continues(s, table, run, end) && end.shared == state.shared
    ensures forall u :: u == state.next || u == state.next + 1 ==>
              u in end.tasks && end.tasks[u].WantLaw? && end.tasks[u].origin.FromCall? && end.tasks[u].target == target
  {
    var a, b := state.next, state.next + 1;
    var s1 := Spawned(state, Arrived(call));
    ContinueStep(s, table, run, state, Spawn(Arrived(call)), s1);
    var s2 := Spawned(s1, Arrived(call));
    ContinueStep(s, table, run, s1, Spawn(Arrived(call)), s2);
    var s3 := ToWantLaw(s, table, run, s2, a, call, target, replies);
    end := ToWantLaw(s, table, run, s3, b, call, target, replies);
  }

  /** The lock is free, `call` is permitted and asks for a change, and the change would
      be made. */
  ghost predicate CanChangeLaw(s: Setup, state: State, call: Call, target: string, replies: nat -> Reply)
    requires BASE in s.book
  {
    && FreeLock(state)
    && state.shared.law.Some? && state.shared.law.value in s.book
    && Permits(s.matches, s.book[state.shared.law.value], s.book[BASE], call)
    && NextState(s, state.shared.law, call) == Some(target)
    && Effective(s.book, target) in s.book
    && AllCompleted(Results(s.known, s.book[Effective(s.book, target)].enter, replies))
  }

  /** Main result: two calls that ask for the same law are enough. Whatever law is in
      force and whatever the laws are, every run after which a permitted call can change
      the law has a continuation in which two of them are matched one after the other
      and the second enters the law, with its whole batch, that the first has entered. */
  lemma TwoCallersEnterTwice(s: Setup, table: Table, run: seq<Action>, call: Call, target: string,
                             replies: nat -> Reply)
    requires BASE in s.book && s.sender == AUTHORITY && Execute(s, table, run).Some?
    requires CanChangeLaw(s, Execute(s, table, run).value, call, target, replies)
    ensures EntersAgain(s, table, run, Effective(s.book, target))
  {
    var state := Execute(s, table, run).value;
    ContinuesItself(s, table, run);
    var s1 := BothWantLaw(s, table, run, state, call, target, replies);
    var s2 := FirstEnters(s, table, run, s1, state.next, replies);
    SecondEnters(s, table, run, s2, state.next + 1, replies);
  }

  /** One caller enters the law; all others stay where they are. */
  lemma FirstEnters(s: Setup, table: Table, run: seq<Action>, state: State, a: nat, replies: nat -> Reply)
    returns (end: State)
    requires BASE in s.book && s.sender == AUTHORITY && Continues(s, table, run, state) && FreeLock(state)
    requires a in state.tasks && state.tasks[a].WantLaw?
    requires var law := Effective(s.book, state.tasks[a].target);
      law in s.book && AllCompleted(Results(s.known, s.book[law].enter, replies))
    ensures Continues(s, table, run, end) && FreeLock(end) && end.shared.table == state.shared.table
    ensures end.shared.law == Some(Effective(s.book, state.tasks[a].target))
    ensures forall u :: u in state.tasks && u != a ==> u in end.tasks && end.tasks[u] == state.tasks[u]
  {
    var o, law, step := state.tasks[a].origin, Effective(s.book, state.tasks[a].target), Solo(s, a, replies);
    ContinuedInv(s, table, run, state);
    var n := BatchAlone(step, s, state, a, o, state.tasks[a].target, replies);
    ContinueSolo(step, s, table, run, state, a, replies, n);
    var s1 := Iterate(step, state, n).value;
    forall u | u in state.tasks && u != a ensures u in s1.tasks && s1.tasks[u] == state.tasks[u] {
      SoloLeavesOthers(step, s, state, a, replies, n, u);
    }
    end := Commits(s, table, run, s1, a, o, law, |state.log|, replies);
  }

  // ----- the watchdog and a caller -----

  /** `run` can continue so that, in what comes after it, the watchdog, having read
      that the law is REMOTE, runs failsafe `name` under `law`. */
  ghost predicate WatchdogFires(s: Setup, table: Table, run: seq<Action>, name: string, law: string)
    requires BASE in s.book
  {
    exists state: State, i: nat ::
      && Continues(s, table, run, state) && |Execute(s, table, run).value.log| <= i < |state.log|
      && state.log[i].Fired? && state.log[i].seenAt.Some? && state.log[i].name == name && state.log[i].law == law
  }

  /** The watchdog takes the read lock. */
  lemma AsksForLaw(s: Setup, table: Table, run: seq<Action>, state: State, name: string, answer: Reply)
    returns (end: State)
    requires BASE in s.book && Continues(s, table, run, state) && FreeLock(state)
    ensures Continues(s, table, run, end) && end.shared == state.shared.(readers := 1) && end.log == state.log
    ensures end.next == state.next + 1 && end.tasks == state.tasks[state.next := Reading(Some(name))]
  {
    var t := state.next;
    var s1 := Spawned(state, WantRead(Some(name)));
    ContinueStep(s, table, run, state, Spawn(WantRead(Some(name))), s1);
    end := Moved(s, table, run, s1, t, answer, Effect(Reading(Some(name)), state.shared.(readers := 1), []));
  }

  lemma ReadsRemote(s: Setup, t: nat, name: string, sh: Shared, env: Env)
    requires BASE in s.book && sh.law == Some(REMOTE)
    ensures Advance(s, t, Reading(Some(name)), sh, env)
         == Some(Effect(WantFailsafe(name, Some(env.now)), sh.(readers := sh.readers - 1), [Read(t, Some(REMOTE))]))
  {}

  /** It reads that the law is REMOTE and goes on to the failsafe. */
  lemma SeesRemote(s: Setup, table: Table, run: seq<Action>, state: State, name: string, answer: Reply)
    returns (end: State)
    requires BASE in s.book && Continues(s, table, run, state) && FreeLock(state) && state.shared.law == Some(REMOTE)
    ensures Continues(s, table, run, end) && end.shared == state.shared && end.next == state.next + 1
    ensures end.tasks == state.tasks[state.next := WantFailsafe(name, Some(|state.log|))]
  {
    var t := state.next;
    var s1 := AsksForLaw(s, table, run, state, name, answer);
    ReadsRemote(s, t, name, s1.shared, EnvOf(s1, t, answer));
    end := Moved(s, table, run, s1, t, answer,
                 Effect(WantFailsafe(name, Some(|state.log|)), state.shared, [Read(t, Some(REMOTE))]));
  }

  /** The failsafe takes the lock, under whatever law is in force by then. */
  lemma FailsafeFires(s: Setup, table: Table, run: seq<Action>, state: State, t: nat, answer: Reply)
    requires BASE in s.book && Continues(s, table, run, state) && FreeLock(state) && state.shared.law.Some?
    requires t in state.tasks && state.tasks[t].WantFailsafe? && state.tasks[t].seenAt.Some?
    requires HasList(state.shared.table, BASE, state.tasks[t].name)
    ensures WatchdogFires(s, table, run, state.tasks[t].name, state.shared.law.value)
  {
    var sh, name, law := state.shared, state.tasks[t].name, state.shared.law.value;
    var cmds := FailsafeCommands(sh.table, law, name);
    var end := Moved(s, table, run, state, t, answer,
                     Effect(Failsafing(|state.log|, Batch(cmds, [], Ready)),
                            sh.(table := FailsafeTable(sh.table, law, name), writer := true),
                            [Locked(t), Fired(t, law, name, cmds, state.tasks[t].seenAt)]));
    assert end.log[|state.log| + 1].Fired?;
  }

  /** Main result: under REMOTE, a call that can change the law is enough to make the
      watchdog run a failsafe under the law the call asks for. */
  lemma CallOvertakesWatchdog(s: Setup, table: Table, run: seq<Action>, name: string, call: Call, target: string,
                              replies: nat -> Reply)
    requires BASE in s.book && s.sender == AUTHORITY && Execute(s, table, run).Some?
    requires CanChangeLaw(s, Execute(s, table, run).value, call, target, replies)
    requires Execute(s, table, run).value.shared.law == Some(REMOTE)
    requires HasList(Execute(s, table, run).value.shared.table, BASE, name)
    ensures WatchdogFires(s, table, run, name, Effective(s.book, target))
  {
    var state := Execute(s, table, run).value;
    var w, c := state.next, state.next + 1;
    ContinuesItself(s, table, run);
    var s1 := SeesRemote(s, table, run, state, name, replies(0));
    var s2 := Spawned(s1, Arrived(call));
    ContinueStep(s, table, run, s1, Spawn(Arrived(call)), s2);
    var s3 := ToWantLaw(s, table, run, s2, c, call, target, replies);
    var s4 := FirstEnters(s, table, run, s3, c, replies);
    FailsafeFires(s, table, run, s4, w, replies(0));
  }

  // ----- with the shipped laws -----

  /** `run` is a start of the vehicle that has entered the base law. */
  ghost predicate HasStarted(s: Setup, table: Table, run: seq<Action>)
    requires BASE in s.book
  {
    && Execute(s, table, run).Some? && FreeLock(Execute(s, table, run).value)
    && Execute(s, table, run).value.shared.law == Some(BASE)
  }

  /** The start of the vehicle, undisturbed, up to the base law. */
  lemma VehicleStarts(s: Setup, table: Table, replies: nat -> Reply) returns (run: seq<Action>)
    requires BASE in s.book && s.sender == AUTHORITY
    requires AllCompleted(Results(s.known, s.book[BASE].enter, replies))
    ensures HasStarted(s, table, run)
  {
    var s0 := LawProtocol.Start(table);
    assert Execute(s, table, []) == Some(s0);
    ContinuesItself(s, table, []);
    var starting := Starting(Batch([], [], Ready));
    var s1 := Spawned(s0, starting);
    ContinueStep(s, table, [], s0, Spawn(starting), s1);
    var s2 := Moved(s, table, [], s1, 0, replies(0), Effect(WantLaw(FromStart([]), BASE), s1.shared, []));
    var end := FirstEnters(s, table, [], s2, 0, replies);
    run :| Execute(s, table, [] + run) == Some(end);
    assert [] + run == run;
  }

  lemma MissionStartAsksForLocal(m: Matcher, known: string -> bool, call: Call)
    requires ShippedLaws.ReadsPatterns(m, call) && call.name == ShippedLaws.MISSION_START
    ensures Permits(m, ShippedLaws.BOOK[BASE], ShippedLaws.BOOK[BASE], call)
    ensures NextState(ShippedLaws.Shipped(m, known), Some(BASE), call) == Some(ShippedLaws.LOCAL)
  {
    ShippedLaws.DecidersAreServerCommands(call.name);
    ShippedLaws.Target(m, BASE, call);
    ShippedLaws.AllowedByBase(m, call);
    assert !(ShippedLaws.SERVER_CONTROL <= call.name) by {
      assert ShippedLaws.SERVER_CONTROL[7] == 'C' && ShippedLaws.MISSION_START[7] == 'M';
    }
  }

  lemma EnterBatchesComplete(s: Setup, law: string, replies: nat -> Reply)
    requires law in s.book && (forall i :: 0 <= i < |s.book[law].enter| ==> s.known(s.book[law].enter[i]))
    requires forall i: nat :: replies(i) == Response(COMPLETED)
    ensures AllCompleted(Results(s.known, s.book[law].enter, replies))
  {}

  lemma StartedTwice(m: Matcher, known: string -> bool, table: Table, call: Call)
    requires ShippedLaws.ReadsPatterns(m, call) && call.name == ShippedLaws.MISSION_START
    requires known(ShippedLaws.BASE_LAW.enter[0])
    ensures exists run ::
      && HasStarted(ShippedLaws.Shipped(m, known), table, run)
      && EntersAgain(ShippedLaws.Shipped(m, known), table, run, ShippedLaws.LOCAL)
  {
    var s := ShippedLaws.Shipped(m, known);
    var ok: nat -> Reply := _ => Response(COMPLETED);
    MissionStartAsksForLocal(m, known, call);
    EnterBatchesComplete(s, BASE, ok);
    EnterBatchesComplete(s, ShippedLaws.LOCAL, ok);
    var run := VehicleStarts(s, table, ok);
    TwoCallersEnterTwice(s, table, run, call, ShippedLaws.LOCAL, ok);
  }

  /** Main result: with the laws as shipped, two Mission.Start commands from the server
      can, once the vehicle has started, enter LOCAL twice, the second time while it is
      in force. */
  lemma MissionStartedTwice(parse: string -> Option<Payload>, known: string -> bool, table: Table)
    requires known(ShippedLaws.BASE_LAW.enter[0])
    ensures exists run ::
      && HasStarted(ShippedLaws.Shipped(ShippedLaws.Matching(parse), known), table, run)
      && EntersAgain(ShippedLaws.Shipped(ShippedLaws.Matching(parse), known), table, run, ShippedLaws.LOCAL)
  {
    var call := Call(ShippedLaws.MISSION_START, map[]);
    ShippedLaws.MatchingReadsPatterns(parse, call);
    StartedTwice(ShippedLaws.Matching(parse), known, table, call);
  }
}
