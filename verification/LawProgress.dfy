/** Why the law protocol never gets stuck, what it owes to the identity of the
    authority's own commands, and that every run of it can only end. */
module LawProgress {
  import opened Wrappers
  import opened Laws
  import opened Admission
  import opened LawProtocol
  import opened LawSafety

  /** The interceptor lets the authority's own commands pass, or refuses them, without
      asking the law. */
  predicate Bypasses(s: Setup) {
    s.sender == "" || s.sender == AUTHORITY
  }

  // ----- the coroutines of commands that are sent -----

  /** A command that is waited for needs no lock any more. */
  ghost predicate ChildrenOk(tasks: map<nat, Pc>) {
    forall t :: t in tasks && ChildOf(tasks[t]).Some? ==>
      ChildOf(tasks[t]).value in tasks && NeedsNoLock(tasks[ChildOf(tasks[t]).value])
  }

  predicate NeedsNoLock(pc: Pc) { pc.Serving? || Ended(pc) }

  /** Who waits for a coroutine has just started it. */
  lemma WaitsForWhatItStarted(s: Setup, t: nat, pc: Pc, sh: Shared, env: Env)
    requires BASE in s.book && Advance(s, t, pc, sh, env).Some?
    ensures var e := Advance(s, t, pc, sh, env).value;
            && (ChildOf(e.pc).Some? ==> ChildOf(e.pc).value == env.next && e.spawn.Some?)
            && (e.spawn.Some? && Bypasses(s) ==> NeedsNoLock(e.spawn.value))
            && (e.spawn.Some? ==> ChildOf(e.spawn.value).None?)
            && (NeedsNoLock(pc) ==> NeedsNoLock(e.pc))
  {}

  /** Replacing one coroutine, or adding one, by a step of its own. */
  lemma ChildrenAfter(tasks: map<nat, Pc>, t: nat, pc: Pc)
    requires ChildrenOk(tasks) && (t in tasks && NeedsNoLock(tasks[t]) ==> NeedsNoLock(pc))
    requires ChildOf(pc).Some? ==>
      ChildOf(pc).value != t && ChildOf(pc).value in tasks && NeedsNoLock(tasks[ChildOf(pc).value])
    ensures ChildrenOk(tasks[t := pc])
  {}

  lemma StepKeepsChildren(s: Setup, table: Table, state: State, t: nat, answer: Reply)
    requires BASE in s.book && Bypasses(s) && NumbersOk(state.tasks, state.next, state.log) && ChildrenOk(state.tasks)
    requires t in state.tasks
    ensures var e := Advance(s, t, state.tasks[t], state.shared, EnvOf(state, t, answer));
            e.Some? ==> ChildrenOk(Apply(state, t, e.value).tasks)
  {
    var env := EnvOf(state, t, answer);
    var e := Advance(s, t, state.tasks[t], state.shared, env);
    if e.Some? {
      WaitsForWhatItStarted(s, t, state.tasks[t], state.shared, env);
      if e.value.spawn.Some? {
        ChildrenAfter(state.tasks, state.next, e.value.spawn.value);
        ChildrenAfter(state.tasks[state.next := e.value.spawn.value], t, e.value.pc);
        assert state.tasks[state.next := e.value.spawn.value][t := e.value.pc]
            == state.tasks[t := e.value.pc][state.next := e.value.spawn.value];
      } else {
        ChildrenAfter(state.tasks, t, e.value.pc);
      }
    }
  }

  lemma NextKeepsChildren(s: Setup, table: Table, state: State, a: Action)
    requires BASE in s.book && Bypasses(s) && NumbersOk(state.tasks, state.next, state.log) && ChildrenOk(state.tasks)
    requires Next(s, state, a).Some?
    ensures ChildrenOk(Next(s, state, a).value.tasks)
  {
    match a
    case Spawn(pc) => ChildrenAfter(state.tasks, state.next, pc);
    case Step(t, answer) => StepKeepsChildren(s, table, state, t, answer);
    case Interrupt(t) => ChildrenAfter(state.tasks, t, Crashed);
  }

  lemma {:induction false} RunsKeepChildren(s: Setup, table: Table, actions: seq<Action>)
    requires BASE in s.book && Bypasses(s) && Execute(s, table, actions).Some?
    ensures Inv(s, table, Execute(s, table, actions).value) && ChildrenOk(Execute(s, table, actions).value.tasks)
  {
    RunsKeepInv(s, table, actions);
    if actions != [] {
      var before := actions[..|actions| - 1];
      RunsKeepChildren(s, table, before);
      NextKeepsChildren(s, table, Execute(s, table, before).value, actions[|actions| - 1]);
    }
  }

  // ----- no deadlock -----

  /** A coroutine that cannot step waits for the lock, and holds none itself, or it
      waits for the command it sent. */
  lemma WaitsForLockOrChild(s: Setup, log: seq<Event>, t: nat, pc: Pc, sh: Shared, env: Env)
    requires BASE in s.book && TaskOk(s, log, t, pc) && !Ended(pc)
    requires Advance(s, t, pc, sh, env).None?
    ensures || ((sh.writer || sh.readers != 0) && !HoldsRead(pc) && !HoldsWrite(pc) && ChildOf(pc).None?)
            || (ChildOf(pc).Some? && (env.child.None? || !Ended(env.child.value)))
  {}

  lemma HolderExists(sh: Shared, tasks: map<nat, Pc>) returns (u: nat)
    requires LockOk(sh, tasks) && (sh.writer || sh.readers != 0)
    ensures u in tasks && (HoldsRead(tasks[u]) || HoldsWrite(tasks[u]))
  {
    if sh.writer {
      assert Writers(tasks) != {};
      u :| u in Writers(tasks);
    } else {
      assert Readers(tasks) != {};
      u :| u in Readers(tasks);
    }
  }

  ghost predicate CanGoOn(s: Setup, state: State, u: nat, answer: Reply)
    requires BASE in s.book
  {
    Next(s, state, Step(u, answer)).Some?
  }

  /** A coroutine that does not wait for the lock can go on, or its command can. */
  lemma GoesOnOrChildDoes(s: Setup, state: State, t: nat, answer: Reply) returns (u: nat)
    requires BASE in s.book && TasksOk(s, state.log, state.tasks) && ChildrenOk(state.tasks)
    requires t in state.tasks && !Ended(state.tasks[t])
    requires ChildOf(state.tasks[t]).Some? || HoldsRead(state.tasks[t]) || HoldsWrite(state.tasks[t])
             || CanGoOn(s, state, t, answer)
    ensures u in state.tasks && CanGoOn(s, state, u, answer)
  {
    var env := EnvOf(state, t, answer);
    u := t;
    if Advance(s, t, state.tasks[t], state.shared, env).None? {
      assert TaskOk(s, state.log, t, state.tasks[t]);
      WaitsForLockOrChild(s, state.log, t, state.tasks[t], state.shared, env);
      u := ChildOf(state.tasks[t]).value;
      assert state.tasks[u].Serving?;
    }
  }

  /** Main result: no reachable state is deadlocked. If a coroutine has not ended, some
      coroutine can go on: itself, the command it sent, or a holder of the lock it
      waits for. This holds because the authority's own commands need no lock. */
  lemma NoDeadlock(s: Setup, table: Table, actions: seq<Action>, t: nat, answer: Reply)
    requires BASE in s.book && Bypasses(s) && Execute(s, table, actions).Some?
    requires t in Execute(s, table, actions).value.tasks && !Ended(Execute(s, table, actions).value.tasks[t])
    ensures exists u ::
      u in Execute(s, table, actions).value.tasks && CanGoOn(s, Execute(s, table, actions).value, u, answer)
  {
    RunsKeepChildren(s, table, actions);
    var u := SomeoneGoesOn(s, Execute(s, table, actions).value, t, answer);
  }

  lemma SomeoneGoesOn(s: Setup, state: State, t: nat, answer: Reply) returns (u: nat)
    requires BASE in s.book && LockOk(state.shared, state.tasks) && TasksOk(s, state.log, state.tasks)
    requires ChildrenOk(state.tasks)
    requires t in state.tasks && !Ended(state.tasks[t])
    ensures u in state.tasks && CanGoOn(s, state, u, answer)
  {
    var env := EnvOf(state, t, answer);
    u := t;
    if Advance(s, t, state.tasks[t], state.shared, env).None? {
      assert TaskOk(s, state.log, t, state.tasks[t]);
      WaitsForLockOrChild(s, state.log, t, state.tasks[t], state.shared, env);
      if ChildOf(state.tasks[t]).None? {
        u := HolderExists(state.shared, state.tasks);
      }
      u := GoesOnOrChildDoes(s, state, u, answer);
    }
  }

  // ----- any other identity deadlocks -----

  /** `t` holds the write lock and waits for `c`, which waits for the read lock. */
  ghost predicate Stuck(state: State, t: nat, c: nat) {
    && LockOk(state.shared, state.tasks)
    && t in state.tasks && c in state.tasks && t != c
    && HoldsWrite(state.tasks[t]) && ChildOf(state.tasks[t]) == Some(c) && state.tasks[c].Arrived?
  }

  lemma FirstCommandArrives(s: Setup, b: Batch, env: Env)
    requires !Bypasses(s) && b.phase.Ready? && b.Ok() && !b.Done() && s.known(b.cmds[|b.results|])
    ensures BatchStep(s, b, env).Some?
    ensures var next := BatchStep(s, b, env).value;
            next.batch.phase == Waiting(env.next) && next.sent.None? && next.spawn.Some? && next.spawn.value.Arrived?
  {}

  /** Sent under an identity that must be admitted, the first command of a batch is
      stuck with the lock its own batch holds. */
  lemma OtherIdentitiesGetStuck(s: Setup, state: State, t: nat, answer: Reply)
    requires BASE in s.book && !Bypasses(s) && LockOk(state.shared, state.tasks)
    requires NumbersOk(state.tasks, state.next, state.log) && t in state.tasks && HoldsWrite(state.tasks[t])
    requires var b := state.tasks[t].batch; b.phase.Ready? && b.Ok() && !b.Done() && s.known(b.cmds[|b.results|])
    ensures Next(s, state, Step(t, answer)).Some? && Stuck(Next(s, state, Step(t, answer)).value, t, state.next)
  {
    var env := EnvOf(state, t, answer);
    FirstCommandArrives(s, state.tasks[t].batch, env);
    LockOkAfterStep(s, state, t, env);
    var e := Advance(s, t, state.tasks[t], state.shared, env).value;
    HoldersAfter(state.tasks[t := e.pc], state.next, e.spawn.value);
  }

  /** Neither of the two ever steps again, and nothing else frees them: only
      cancelling one of them does. */
  lemma StuckStaysStuck(s: Setup, state: State, t: nat, c: nat, a: Action)
    requires BASE in s.book && Stuck(state, t, c) && Next(s, state, a).Some?
    requires forall u :: u in state.tasks ==> u < state.next
    requires !(a.Interrupt? && a.task in {t, c})
    ensures !(a.Step? && a.task in {t, c})
    ensures Stuck(Next(s, state, a).value, t, c)
  {
    HolderIsCounted(state.shared, state.tasks, t);
    match a
    case Spawn(pc) => HoldersAfter(state.tasks, state.next, pc);
    case Step(u, answer) =>
      assert u != t && u != c;
      OthersStep(s, state, t, u, answer);
    case Interrupt(u) =>
      WriterIsAlone(state.shared, state.tasks, t, u);
      CancelKeepsLock(state.shared, state.tasks, u);
  }

  /** A step of a coroutine other than the writer leaves the lock with the writer. */
  lemma OthersStep(s: Setup, state: State, t: nat, u: nat, answer: Reply)
    requires BASE in s.book && LockOk(state.shared, state.tasks) && t in state.tasks && u in state.tasks && u != t
    requires HoldsWrite(state.tasks[t]) && (forall v :: v in state.tasks ==> v < state.next)
    ensures var e := Advance(s, u, state.tasks[u], state.shared, EnvOf(state, u, answer));
            e.Some? ==>
              LockOk(e.value.shared, Apply(state, u, e.value).tasks)
                && Apply(state, u, e.value).shared == e.value.shared
  {
    var env := EnvOf(state, u, answer);
    LockOkAfterStep(s, state, u, env);
    var e := Advance(s, u, state.tasks[u], state.shared, env);
    if e.Some? && e.value.spawn.Some? {
      OnlyNestedIsSpawned(s, u, state.tasks[u], state.shared, env);
      HoldersAfter(state.tasks[u := e.value.pc], state.next, e.value.spawn.value);
    }
  }

  /** The start of the vehicle up to the first enter command of the base law. */
  function StartUp(): seq<Action> {
    [Spawn(Starting(Batch([], [], Ready))), Step(0, Response(0)), Step(0, Response(0)), Step(0, Response(0))]
  }

  lemma ExecuteSnoc(s: Setup, table: Table, actions: seq<Action>, a: Action)
    requires BASE in s.book && Execute(s, table, actions).Some?
    ensures Execute(s, table, actions + [a]) == Next(s, Execute(s, table, actions).value, a)
  {
    assert (actions + [a])[..|actions|] == actions;
  }

  /** One step from a state that is written out. */
  lemma StepsTo(s: Setup, state: State, t: nat, answer: Reply, e: Effect, after: State)
    requires BASE in s.book && t in state.tasks && e.spawn.None?
    requires Advance(s, t, state.tasks[t], state.shared, EnvOf(state, t, answer)) == Some(e)
    requires after == State(e.shared, state.tasks[t := e.pc], state.next, state.log + e.events)
    ensures Next(s, state, Step(t, answer)) == Some(after)
  {}

  lemma StartUpRuns(s: Setup, table: Table)
    requires BASE in s.book && s.book[BASE].enter != [] && s.known(s.book[BASE].enter[0])
    ensures var b := Batch(s.book[BASE].enter, [], Waiting(1));
            Execute(s, table, StartUp()) == Some(State(Shared(None, table, 0, true),
              map[0 := Entering(FromStart([]), BASE, 0, b), 1 := NestedPc(s, s.book[BASE].enter[0])], 2, [Locked(0)]))
  {
    var run, cmds, sh, ok := StartUp(), s.book[BASE].enter, Shared(None, table, 0, false), Response(0);
    var s1 := State(sh, map[0 := Starting(Batch([], [], Ready))], 1, []);
    var s2 := State(sh, map[0 := WantLaw(FromStart([]), BASE)], 1, []);
    var s3 := State(sh.(writer := true), map[0 := Entering(FromStart([]), BASE, 0, Batch(cmds, [], Ready))], 1,
        [Locked(0)]);
    assert Execute(s, table, []) == Some(LawProtocol.Start(table));
    ExecuteSnoc(s, table, [], run[0]);
    assert run[..1] == [] + [run[0]];
    assert Execute(s, table, run[..1]) == Some(s1);
    StepsTo(s, s1, 0, ok, Effect(WantLaw(FromStart([]), BASE), sh, []), s2);
    ExecuteSnoc(s, table, run[..1], run[1]);
    assert run[..2] == run[..1] + [run[1]];
    StepsTo(s, s2, 0, ok,
      Effect(Entering(FromStart([]), BASE, 0, Batch(cmds, [], Ready)), sh.(writer := true), [Locked(0)]), s3);
    ExecuteSnoc(s, table, run[..2], run[2]);
    assert run[..3] == run[..2] + [run[2]];
    SendsFirst(s, s3, cmds, sh.(writer := true));
    ExecuteSnoc(s, table, run[..3], run[3]);
    assert run == run[..3] + [run[3]];
  }

  lemma SendsFirst(s: Setup, state: State, cmds: seq<string>, sh: Shared)
    requires BASE in s.book && cmds != [] && s.known(cmds[0])
    requires state == State(sh, map[0 := Entering(FromStart([]), BASE, 0, Batch(cmds, [], Ready))], 1, [Locked(0)])
    ensures Next(s, state, Step(0, Response(0))) == Some(State(sh,
      map[0 := Entering(FromStart([]), BASE, 0, Batch(cmds, [], Waiting(1))), 1 := NestedPc(s, cmds[0])], 2,
        [Locked(0)]))
  {
    var pc := Entering(FromStart([]), BASE, 0, Batch(cmds, [], Waiting(1)));
    assert state.log + [] == state.log;
    assert state.tasks[0 := pc][1 := NestedPc(s, cmds[0])] == map[0 := pc, 1 := NestedPc(s, cmds[0])];
  }

  /** Main result: so the identity matters. Under any other one the vehicle does not
      even start: some reachable state is deadlocked, for every answer. */
  lemma OtherIdentitiesDeadlock(s: Setup, table: Table, u: nat, answer: Reply)
    requires BASE in s.book && s.book[BASE].enter != [] && s.known(s.book[BASE].enter[0]) && !Bypasses(s)
    ensures Execute(s, table, StartUp()).Some? && Execute(s, table, StartUp()).value.tasks.Keys == {0, 1}
    ensures !Ended(Execute(s, table, StartUp()).value.tasks[0])
    ensures !CanGoOn(s, Execute(s, table, StartUp()).value, u, answer)
  {
    StartUpRuns(s, table);
  }

  // ----- every run ends -----

  /** How far a coroutine still has to go, leaving its batch aside. */
  function Stage(pc: Pc): nat {
    match pc
    case Arrived(_) => 12
    case Checking(_) => 11
    case Permitted(_, _) => 10
    case Starting(_) => 9
    case Matching(_, _) => 9
    case WantLaw(_, _) => 8
    case WantFailsafe(_, _) => 8
    case Entering(_, _, _, _) => 7
    case Failsafing(_, _) => 7
    case Handling(_, _) => 6
    case WantRead(_) => 10
    case Reading(_) => 9
    case Serving => 0
    case Rejected(_) => 0
    case Finished => 0
    case Crashed => 0
  }

  /** What is left of its batch, or of the handler of a command that was sent. */
  function Left(pc: Pc): nat {
    if pc.Serving? then 1
    else if BatchOf(pc).Some? && BatchOf(pc).value.Ok() then BatchLeft(BatchOf(pc).value)
    else 0
  }

  function BatchLeft(b: Batch): (n: nat)
    requires b.Ok()
  {
    3 * (|b.cmds| - |b.results|) - (if b.phase.Waiting? then 2 else 0)
  }

  /** A step moves its coroutine to a later stage, or keeps the stage and leaves less
      to do, also counting the coroutine it starts. */
  lemma StepMakesProgress(s: Setup, t: nat, pc: Pc, sh: Shared, env: Env)
    requires BASE in s.book && Bypasses(s) && Advance(s, t, pc, sh, env).Some?
    ensures var e := Advance(s, t, pc, sh, env).value;
            var spawned := if e.spawn.Some? then Left(e.spawn.value) else 0;
            && (e.spawn.Some? ==> Stage(e.spawn.value) == 0)
            && (Stage(e.pc) < Stage(pc) || (Stage(e.pc) == Stage(pc) && Left(e.pc) + spawned < Left(pc)))
  {
    if BatchOf(pc).Some? && BatchOf(pc).value.Ok() && !BatchOf(pc).value.Done() {
      BatchMakesProgress(s, BatchOf(pc).value, env);
    }
  }

  lemma BatchMakesProgress(s: Setup, b: Batch, env: Env)
    requires Bypasses(s) && b.Ok() && !b.Done() && BatchStep(s, b, env).Some?
    ensures var next := BatchStep(s, b, env).value;
            && next.batch.Ok() && (next.spawn.Some? ==> Left(next.spawn.value) <= 1 && Stage(next.spawn.value) == 0)
            && BatchLeft(next.batch) + (if next.spawn.Some? then 1 else 0) < BatchLeft(b)
  {}

  function Sum(f: Pc -> nat, tasks: map<nat, Pc>, n: nat): nat {
    if n == 0 then 0 else Sum(f, tasks, n - 1) + (if n - 1 in tasks then f(tasks[n - 1]) else 0)
  }

  lemma {:induction false} SumAfter(f: Pc -> nat, tasks: map<nat, Pc>, t: nat, pc: Pc, n: nat)
    ensures Sum(f, tasks[t := pc], n)
         == Sum(f, tasks, n) + (if t < n then f(pc) - (if t in tasks then f(tasks[t]) else 0) else 0)
  {
    if n > 0 {
      SumAfter(f, tasks, t, pc, n - 1);
    }
  }

  function TotalStage(state: State): nat { Sum(Stage, state.tasks, state.next) }
  function TotalLeft(state: State): nat { Sum(Left, state.tasks, state.next) }

  ghost predicate LessWork(after: State, before: State) {
    TotalStage(after) < TotalStage(before)
      || (TotalStage(after) == TotalStage(before) && TotalLeft(after) < TotalLeft(before))
  }

  lemma TotalsAfter(f: Pc -> nat, state: State, t: nat, e: Effect)
    requires t in state.tasks && t < state.next && state.next !in state.tasks
    ensures Sum(f, Apply(state, t, e).tasks, Apply(state, t, e).next)
         == Sum(f, state.tasks, state.next) + f(e.pc) - f(state.tasks[t])
           + (if e.spawn.Some? then f(e.spawn.value) else 0)
  {
    SumAfter(f, state.tasks, t, e.pc, state.next);
    if e.spawn.Some? {
      SumAfter(f, state.tasks[t := e.pc], state.next, e.spawn.value, state.next + 1);
      SumAfter(f, state.tasks[t := e.pc], state.next, e.spawn.value, state.next);
    }
  }

  /** Main result: whatever steps, or is cancelled, there is less to do afterwards. */
  lemma ActionsLeaveLessWork(s: Setup, state: State, a: Action)
    requires BASE in s.book && Bypasses(s) && NumbersOk(state.tasks, state.next, state.log)
    requires !a.Spawn? && Next(s, state, a).Some?
    ensures LessWork(Next(s, state, a).value, state)
  {
    var t := a.task;
    var e := if a.Step? then Advance(s, t, state.tasks[t], state.shared, EnvOf(state, t, a.answer)).value
             else Cancel(state.tasks[t], state.shared);
    if a.Step? {
      StepMakesProgress(s, t, state.tasks[t], state.shared, EnvOf(state, t, a.answer));
    }
    TotalsAfter(Stage, state, t, e);
    TotalsAfter(Left, state, t, e);
  }

  ghost predicate AllEnded(state: State) {
    forall t :: t in state.tasks ==> Ended(state.tasks[t])
  }

  /** `choose` says what happens next: a step or a cancellation that is possible, as
      long as there is one. No new coroutines arrive from outside. */
  ghost predicate IsSchedule(s: Setup, choose: State -> Action)
    requires BASE in s.book
  {
    forall state: State, u: nat, answer: Reply :: CanGoOn(s, state, u, answer) ==>
      !choose(state).Spawn? && Next(s, state, choose(state)).Some?
  }

  /** Main result: from every reachable state every schedule brings all coroutines to
      their end. The recursion is the run; that it terminates is part of the claim. */
  lemma {:induction false} EveryScheduleEnds(s: Setup, table: Table, state: State, choose: State -> Action)
    returns (actions: seq<Action>, end: State)
    requires BASE in s.book && Bypasses(s) && Inv(s, table, state) && ChildrenOk(state.tasks) && IsSchedule(s, choose)
    ensures FollowsSchedule(s, state, choose, actions, end) && AllEnded(end)
    decreases TotalStage(state), TotalLeft(state)
  {
    if AllEnded(state) {
      actions, end := [], state;
    } else {
      var t :| t in state.tasks && !Ended(state.tasks[t]);
      var u := SomeoneGoesOn(s, state, t, Response(0));
      assert CanGoOn(s, state, u, Response(0));
      var a := choose(state);
      var after := Next(s, state, a).value;
      NextKeepsInv(s, table, state, a);
      NextKeepsChildren(s, table, state, a);
      ActionsLeaveLessWork(s, state, a);
      var rest;
      rest, end := EveryScheduleEnds(s, table, after, choose);
      actions := [a] + rest;
      assert actions[1..] == rest;
    }
  }

  /** `actions` is what `choose` chose from `state` on, and it leads to `end`. */
  ghost predicate FollowsSchedule(s: Setup, state: State, choose: State -> Action, actions: seq<Action>, end: State)
    requires BASE in s.book
    decreases |actions|
  {
    if actions == [] then end == state
    else
      && actions[0] == choose(state) && Next(s, state, actions[0]).Some?
      && FollowsSchedule(s, Next(s, state, actions[0]).value, choose, actions[1..], end)
  }
}
