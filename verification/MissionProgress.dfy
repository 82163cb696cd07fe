/** Which tasks a state of a running mission has, that no run gets stuck, and that
    every one of its racers can be the one that decides. */
module MissionProgress {
  import opened Wrappers
  import opened MissionCompiler
  import opened MissionRun

  // ----- the tasks of a state -----

  /** All racers of the present state have a task, all of them going until the first one
      ends, and all that are left cancelled once the race is over. */
  ghost predicate TasksOk(m: Mission, s: State) {
    && (Running(s) ==> forall r :: r in RacersOf(m.transitions, s.action) ==> TaskId(s.visit, r) in s.tasks)
    && (s.phase.Racing? && !s.raised && s.finished == [] ==>
          forall id :: id in s.tasks && id.visit == s.visit ==> s.tasks[id] == Going)
    && (Running(s) && !s.phase.Racing? ==>
          forall id :: id in s.tasks && id.visit == s.visit && Live(s.tasks[id]) ==> s.tasks[id] == Cancelling)
  }

  lemma EnterTasksOk(m: Mission, s: State, action: string)
    requires forall id :: id in s.tasks ==> id.visit <= s.visit
    ensures TasksOk(m, Enter(m, s, action))
  {
    var s' := Enter(m, s, action);
    if Running(s') {
      forall r | r in RacersOf(m.transitions, action) ensures TaskId(s'.visit, r) in s'.tasks {
        assert TaskId(s'.visit, r) in TasksOf(s.visit + 1, RacersOf(m.transitions, action));
      }
    }
  }

  lemma LeaveTasksOk(m: Mission, s: State)
    requires Inv(m, s) && Running(s)
    ensures TasksOk(m, LeaveState(m, s))
  {
    if !s.raised && s.phase.Draining? && s.phase.winner.Won? {
      var event := EventOf(s.phase.winner.racer);
      EnterTasksOk(m, s.(winners := s.winners + [event]), NextState(m.transitions, s.action, event));
    }
  }

  lemma NextTasksOk(m: Mission, s: State, step: Step)
    requires Inv(m, s) && TasksOk(m, s) && Next(m, s, step).Some?
    ensures TasksOk(m, Next(m, s, step).value)
  {
    if step.Leave? {
      LeaveTasksOk(m, s);
    }
  }

  lemma {:induction false} RunsKeepTasks(m: Mission, steps: seq<Step>)
    requires Execute(m, steps).Some?
    ensures Inv(m, Execute(m, steps).value) && TasksOk(m, Execute(m, steps).value)
  {
    RunsKeepInv(m, steps);
    if steps == [] {
      EnterTasksOk(m, State(0, m.start, Racing, map[], None, false, [], []), m.start);
    } else {
      var before := steps[..|steps| - 1];
      RunsKeepTasks(m, before);
      NextTasksOk(m, Execute(m, before).value, steps[|steps| - 1]);
    }
  }

  /** A racer of `action`: the action itself, and each event it has an edge for but `done`. */
  ghost predicate IsRacer(t: Transitions, action: string, r: Racer) {
    match r
    case ActionRacer => true
    case EventRacer(event) => event != "done" && action in t && event in t[action]
  }

  /** Main result: in every run the tasks of the present state are exactly its action and
      one for each of its edges other than `done`, and until the first of them ends all
      of them are running. */
  lemma RacersOfEveryState(m: Mission, steps: seq<Step>, r: Racer)
    requires Execute(m, steps).Some? && Running(Execute(m, steps).value)
    ensures var s := Execute(m, steps).value;
            && (TaskId(s.visit, r) in s.tasks <==> IsRacer(m.transitions, s.action, r))
            && (IsRacer(m.transitions, s.action, r) && s.phase.Racing? && !s.raised && s.finished == [] ==>
                  s.tasks[TaskId(s.visit, r)] == Going)
  {
    RunsKeepTasks(m, steps);
    var s := Execute(m, steps).value;
    assert IsRacer(m.transitions, s.action, r) <==> r in RacersOf(m.transitions, s.action);
    assert TaskId(s.visit, r) in s.tasks ==> TaskId(s.visit, r).racer in RacersOf(m.transitions, s.action);
  }

  // ----- some step is always possible -----

  /** Main result: no run gets stuck. As long as it has not ended, some racer can end,
      or the run can go on itself. */
  lemma NoRunGetsStuck(m: Mission, steps: seq<Step>)
    requires Execute(m, steps).Some? && Running(Execute(m, steps).value)
    ensures exists step :: step != Stop && Next(m, Execute(m, steps).value, step).Some?
  {
    RunsKeepTasks(m, steps);
    var s := Execute(m, steps).value;
    assert ActionRacer in RacersOf(m.transitions, s.action);
    var step := if SomeLive(s) then Finish(LiveRacer(s)) else if !s.phase.Racing? then Leave
                else if s.raised then Abort else Take;
    assert Next(m, s, step).Some?;
  }

  ghost function LiveRacer(s: State): (r: Racer)
    requires SomeLive(s)
    ensures IsLive(s, r)
  {
    var id :| id in s.tasks && id.visit == s.visit && Live(s.tasks[id]);
    assert id == TaskId(s.visit, id.racer);
    id.racer
  }

  // ----- every racer can win -----

  /** Some continuation of `run` leads to `s`, with the account `a`. */
  ghost predicate Continues(m: Mission, run: seq<Step>, s: State, a: Account) {
    exists more :: Execute(m, run + more) == Some(s) && Firsts(run + more) == a
  }

  lemma ContinuesItself(m: Mission, run: seq<Step>)
    requires Execute(m, run).Some?
    ensures Continues(m, run, Execute(m, run).value, Firsts(run))
  {
    assert run + [] == run;
  }

  lemma ExecuteSnoc(m: Mission, steps: seq<Step>, step: Step)
    requires Execute(m, steps).Some?
    ensures Execute(m, steps + [step]) == Next(m, Execute(m, steps).value, step)
    ensures Firsts(steps + [step]) == Noted(Firsts(steps), step)
  {
    assert (steps + [step])[..|steps|] == steps;
  }

  lemma ContinueStep(m: Mission, run: seq<Step>, s: State, a: Account, step: Step)
    requires Continues(m, run, s, a) && Next(m, s, step).Some?
    ensures Continues(m, run, Next(m, s, step).value, Noted(a, step))
  {
    var more :| Execute(m, run + more) == Some(s) && Firsts(run + more) == a;
    ExecuteSnoc(m, run + more, step);
    assert (run + more) + [step] == run + (more + [step]);
  }

  lemma ContinuedInv(m: Mission, run: seq<Step>, s: State, a: Account)
    requires Continues(m, run, s, a)
    ensures Inv(m, s) && TasksOk(m, s)
  {
    var more :| Execute(m, run + more) == Some(s) && Firsts(run + more) == a;
    RunsKeepTasks(m, run + more);
  }

  ghost function LiveIds(s: State): set<TaskId> {
    set id | id in s.tasks && id.visit == s.visit && Live(s.tasks[id])
  }

  lemma DropIsPossible(m: Mission, s: State, r: Racer)
    requires TasksOk(m, s) && s.phase.Draining? && IsLive(s, r)
    ensures Next(m, s, Drop(r)) == Some(s.(tasks := s.tasks[TaskId(s.visit, r) := Over]))
  {}

  lemma FewerLive(s: State, r: Racer)
    requires IsLive(s, r)
    ensures |LiveIds(s.(tasks := s.tasks[TaskId(s.visit, r) := Over]))| < |LiveIds(s)|
  {
    var id := TaskId(s.visit, r);
    assert LiveIds(s.(tasks := s.tasks[id := Over])) == LiveIds(s) - {id};
    assert id in LiveIds(s);
  }

  /** The cancelled racers end one by one. */
  lemma {:induction false} AllDrop(m: Mission, run: seq<Step>, s: State, a: Account) returns (end: State)
    requires Continues(m, run, s, a) && s.phase.Draining?
    ensures Continues(m, run, end, a) && end == s.(tasks := end.tasks) && !SomeLive(end)
    decreases |LiveIds(s)|
  {
    end := s;
    if SomeLive(s) {
      var r := LiveRacer(s);
      ContinuedInv(m, run, s, a);
      DropIsPossible(m, s, r);
      FewerLive(s, r);
      ContinueStep(m, run, s, a, Drop(r));
      end := AllDrop(m, run, s.(tasks := s.tasks[TaskId(s.visit, r) := Over]), a);
    }
  }

  /** The steps by which `r` becomes the first finisher. */
  lemma FinishFirst(m: Mission, run: seq<Step>, s: State, a: Account, r: Racer) returns (end: State)
    requires Continues(m, run, s, a) && s.phase.Racing? && s.queue.None? && s.finished == []
    requires IsLive(s, r) && a.first.None? && !a.stopped
    ensures Continues(m, run, end, a.(first := Some(r)))
    ensures end == s.(phase := Draining(Won(r)), finished := [r], tasks := end.tasks)
  {
    ContinueStep(m, run, s, a, Finish(r));
    var s1 := Next(m, s, Finish(r)).value;
    ContinueStep(m, run, s1, a.(first := Some(r)), Take);
    end := Next(m, s1, Take).value;
  }

  /** Main result: in every state that is entered each of its racers can be the one that
      decides. While none has ended, some continuation follows the edge of that racer. */
  lemma AnyRacerCanDecide(m: Mission, run: seq<Step>, r: Racer)
    requires Execute(m, run).Some?
    requires var s := Execute(m, run).value;
             s.phase.Racing? && !s.raised && s.finished == [] && IsRacer(m.transitions, s.action, r)
    ensures exists after, a ::
              && Continues(m, run, after, a) && a.left == Firsts(run).left + [r]
              && after.action == TargetFor(m.transitions, Execute(m, run).value.action, r)
  {
    ReadyToRace(m, run, r);
    ContinuesItself(m, run);
    var after := WinFrom(m, run, Execute(m, run).value, Firsts(run), r);
  }

  lemma ReadyToRace(m: Mission, run: seq<Step>, r: Racer)
    requires Execute(m, run).Some?
    requires var s := Execute(m, run).value;
             s.phase.Racing? && !s.raised && s.finished == [] && IsRacer(m.transitions, s.action, r)
    ensures Execute(m, run).value.queue.None? && IsLive(Execute(m, run).value, r)
    ensures Firsts(run).first.None? && !Firsts(run).stopped
  {
    RunsKeepTasks(m, run);
    RacersOfEveryState(m, run, r);
    RunsRecordFirsts(m, run);
  }

  lemma LeaveIsPossible(m: Mission, s: State)
    requires s.phase.Draining? && !SomeLive(s)
    ensures Next(m, s, Leave) == Some(LeaveState(m, s))
  {}

  /** The step that leaves a state whose race is over. */
  lemma LeaveWon(m: Mission, run: seq<Step>, s: State, a: Account, r: Racer) returns (after: State)
    requires Continues(m, run, s, a) && s.phase.Draining? && !s.raised && s.finished == [r] && !SomeLive(s)
    requires a.first == Some(r) && !a.stopped
    ensures Continues(m, run, after, Noted(a, Leave)) && Follows(m, s, r, after)
  {
    ContinuedInv(m, run, s, a);
    LeavingFollows(m, s);
    LeaveIsPossible(m, s);
    ContinueStep(m, run, s, a, Leave);
    after := LeaveState(m, s);
  }

  lemma WinFrom(m: Mission, run: seq<Step>, s: State, a: Account, r: Racer) returns (after: State)
    requires Continues(m, run, s, a) && s.phase.Racing? && s.queue.None? && s.finished == [] && !s.raised
    requires IsLive(s, r) && a.first.None? && !a.stopped
    ensures Continues(m, run, after, Account(a.left + [r], None, false))
    ensures after.action == TargetFor(m.transitions, s.action, r)
  {
    var won := a.(first := Some(r));
    var s1 := FinishFirst(m, run, s, a, r);
    var s2 := AllDrop(m, run, s1, won);
    after := LeaveWon(m, run, s2, won, r);
  }
}
