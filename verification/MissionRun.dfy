/** Running a mission: in each state the action races against the events it has
    edges for, as concurrent tasks with a one-place queue for the first finisher. */
module MissionRun {
  import opened Wrappers
  import opened MissionCompiler

  datatype Racer = ActionRacer | EventRacer(event: string)

  /** A racer may ignore its cancellation for a while, or finish in spite of it. */
  datatype Status = Going | Cancelling | Over

  /** Racers are tasks of the visit that started them. */
  datatype TaskId = TaskId(visit: nat, racer: Racer)

  datatype Item = Won(racer: Racer) | RacerFailed

  datatype Phase =
    | Racing                   // waits for the queue
    | Draining(winner: Item)   // cancelled everyone, waits for its task group
    | Aborting                 // a racer raised while it was waiting
    | Stopping                 // the run was cancelled, its racers are on their way out
    | Stopped                  // the run ended because it was cancelled
    | Ended                    // reached `terminate`
    | Crashed                  // the run ended with an exception

  datatype State = State(
    visit: nat,
    action: string,
    phase: Phase,
    tasks: map<TaskId, Status>,
    queue: Option<Item>,
    raised: bool,              // a racer of this visit raised
    finished: seq<Racer>,      // for the record: this visit's finishers, in order
    winners: seq<string>)      // for the record: the edges taken so far

  datatype Mission = Mission(transitions: Transitions, actions: set<string>, events: set<string>, start: string)

  datatype Step =
    | Finish(racer: Racer)     // a racer returns normally
    | Raise(racer: Racer)      // a racer raises
    | Drop(racer: Racer)       // a cancelled racer ends
    | Take                     // the state takes the first item off the queue and cancels everyone
    | Abort                    // its task group cancels everyone because a racer raised
    | Leave                    // all tasks of the group are over
    | Stop                     // the run itself is cancelled, at whatever it awaits

  /** The edge a racer stands for. */
  function EventOf(r: Racer): string {
    match r
    case ActionRacer => DONE
    case EventRacer(event) => event
  }

  /** `_gather_events` without `done`, and the action itself. */
  function RacersOf(t: Transitions, action: string): set<Racer> {
    {ActionRacer} + set e | e in EdgesOf(t, action) && e != DONE :: EventRacer(e)
  }

  function TasksOf(visit: nat, racers: set<Racer>): set<TaskId> {
    set r | r in racers :: TaskId(visit, r)
  }

  predicate Live(status: Status) { status != Over }

  function CancelAll(tasks: map<TaskId, Status>, visit: nat): map<TaskId, Status> {
    map id | id in tasks :: if id.visit == visit && Live(tasks[id]) then Cancelling else tasks[id]
  }

  /** Entering a state: every racer becomes a task. An undeclared action or event
      raises instead. */
  function Enter(m: Mission, s: State, action: string): State {
    if action == TERMINATE then s.(action := action, phase := Ended)
    else if action !in m.actions || exists e :: e in EdgesOf(m.transitions, action) && e != DONE && e !in m.events
    then s.(action := action, phase := Crashed)
    else
      var ids := TasksOf(s.visit + 1, RacersOf(m.transitions, action));
      var started := map id | id in ids :: Going;
      State(s.visit + 1, action, Racing, s.tasks + started, None, false, [], s.winners)
  }

  function Start(m: Mission): State {
    Enter(m, State(0, m.start, Racing, map[], None, false, [], []), m.start)
  }

  predicate Running(s: State) {
    s.phase.Racing? || s.phase.Draining? || s.phase.Aborting? || s.phase.Stopping?
  }

  predicate IsLive(s: State, r: Racer) {
    TaskId(s.visit, r) in s.tasks && Live(s.tasks[TaskId(s.visit, r)])
  }

  /** Its task group still has one to wait for. */
  predicate SomeLive(s: State) {
    exists id :: id in s.tasks && id.visit == s.visit && Live(s.tasks[id])
  }

  function Next(m: Mission, s: State, step: Step): Option<State> {
    match step
    case Finish(r) =>
      if !Running(s) || !IsLive(s, r) then None
      else Some(s.(tasks := s.tasks[TaskId(s.visit, r) := Over],
                   queue := if s.queue.None? then Some(Won(r)) else s.queue,
                   finished := s.finished + [r]))
    case Raise(r) =>
      if !Running(s) || !IsLive(s, r) then None
      else Some(s.(tasks := s.tasks[TaskId(s.visit, r) := Over],
                   queue := if s.queue.None? then Some(RacerFailed) else s.queue,
                   raised := true))
    case Drop(r) =>
      if !Running(s) || !IsLive(s, r) || s.tasks[TaskId(s.visit, r)] != Cancelling then None
      else Some(s.(tasks := s.tasks[TaskId(s.visit, r) := Over]))
    case Take =>
      if !s.phase.Racing? || s.queue.None? then None
      else Some(s.(phase := Draining(s.queue.value), queue := None, tasks := CancelAll(s.tasks, s.visit)))
    case Abort =>
      if !s.phase.Racing? || !s.raised then None
      else Some(s.(phase := Aborting, tasks := CancelAll(s.tasks, s.visit)))
    case Leave =>
      if s.phase.Racing? || !Running(s) || SomeLive(s) then None
      else Some(LeaveState(m, s))
    case Stop =>
      // a group that is aborting already swallows the cancellation
      if s.phase.Racing? || s.phase.Draining? then Some(s.(phase := Stopping, tasks := CancelAll(s.tasks, s.visit)))
      else None
  }

  /** After its `TaskGroup`: the exception of a racer goes first, then the cancellation
      of the run, then the winner decides. */
  function LeaveState(m: Mission, s: State): State {
    if s.raised then s.(phase := Crashed)
    else if s.phase.Stopping? then s.(phase := Stopped)
    else if !s.phase.Draining? then s.(phase := Crashed)
    else if s.phase.winner.Won? then FollowEdge(m, s, EventOf(s.phase.winner.racer))
    else s.(action := TERMINATE, phase := Ended)   // the branch of the source for a failed winner
  }

  function FollowEdge(m: Mission, s: State, event: string): State {
    Enter(m, s.(winners := s.winners + [event]), NextState(m.transitions, s.action, event))
  }

  ghost function Execute(m: Mission, steps: seq<Step>): Option<State> {
    if steps == [] then Some(Start(m))
    else
      var before := Execute(m, steps[..|steps| - 1]);
      if before.None? then None else Next(m, before.value, steps[|steps| - 1])
  }

  // ----- the invariant -----

  ghost predicate Inv(m: Mission, s: State) {
    // only racers of the current visit are alive, and none once the run is over
    && (forall id :: id in s.tasks && Live(s.tasks[id]) ==> id.visit == s.visit && Running(s))
    && (Running(s) ==> forall id :: id in s.tasks && id.visit == s.visit ==>
         id.racer in RacersOf(m.transitions, s.action))
    && (forall id :: id in s.tasks ==> id.visit <= s.visit)
    // the first finisher is the one in the queue, then the winner
    && (s.phase.Racing? && !s.raised ==>
          s.queue == (if s.finished == [] then None else Some(Won(s.finished[0]))))
    && (s.phase.Draining? && !s.raised ==> s.finished != [] && s.phase.winner == Won(s.finished[0]))
    && (s.phase.Aborting? ==> s.raised)
    && (forall r :: r in s.finished ==> Running(s) ==> r in RacersOf(m.transitions, s.action))
    // the state reached is the one the winners lead to
    && (s.phase != Crashed ==> s.action == StateAfter(m.transitions, m.start, s.winners))
    && (forall i :: 0 <= i < |s.winners| ==>
          StateAfter(m.transitions, m.start, s.winners[..i]) != TERMINATE
          && CanWin(m.transitions, StateAfter(m.transitions, m.start, s.winners[..i]), s.winners[i]))
    && (Running(s) ==> s.action != TERMINATE && s.action in m.actions)
    && (s.phase == Ended ==> s.action == TERMINATE && !s.raised)
  }

  lemma WinnersAppend(m: Mission, winners: seq<string>, w: string)
    requires PossibleWinners(m.transitions, m.start, winners)
    requires StateAfter(m.transitions, m.start, winners) != TERMINATE
    requires CanWin(m.transitions, StateAfter(m.transitions, m.start, winners), w)
    ensures PossibleWinners(m.transitions, m.start, winners + [w])
    ensures StateAfter(m.transitions, m.start, winners + [w])
         == NextState(m.transitions, StateAfter(m.transitions, m.start, winners), w)
  {
    var longer := winners + [w];
    assert longer[..|winners|] == winners;
    forall i | 0 <= i < |longer|
      ensures StateAfter(m.transitions, m.start, longer[..i]) != TERMINATE
              && CanWin(m.transitions, StateAfter(m.transitions, m.start, longer[..i]), longer[i])
    {
      if i < |winners| { assert longer[..i] == winners[..i]; }
    }
  }

  /** Entering a state from one whose racers are all over. */
  lemma EnterKeepsInv(m: Mission, s: State, action: string)
    requires forall id :: id in s.tasks ==> id.visit <= s.visit && !Live(s.tasks[id])
    requires PossibleWinners(m.transitions, m.start, s.winners)
    requires action == StateAfter(m.transitions, m.start, s.winners) && !s.raised
    ensures Inv(m, Enter(m, s, action))
  {
    var s' := Enter(m, s, action);
    if Running(s') {
      forall id | id in s'.tasks && id.visit == s'.visit ensures id.racer in RacersOf(m.transitions, action) {
        assert id in TasksOf(s.visit + 1, RacersOf(m.transitions, action));
      }
    }
  }

  lemma FollowKeepsInv(m: Mission, s: State)
    requires Inv(m, s) && s.phase.Draining? && !s.raised
    requires forall id :: id in s.tasks ==> !Live(s.tasks[id])
    ensures s.finished != [] && s.phase.winner == Won(s.finished[0])
    ensures Inv(m, FollowEdge(m, s, EventOf(s.finished[0])))
  {
    var r := s.finished[0];
    assert r in s.finished;
    WinnersAppend(m, s.winners, EventOf(r));
    EnterKeepsInv(m, s.(winners := s.winners + [EventOf(r)]), NextState(m.transitions, s.action, EventOf(r)));
  }

  lemma LeaveKeepsInv(m: Mission, s: State)
    requires Inv(m, s) && Running(s) && !s.phase.Racing?
    requires forall id :: id in s.tasks && id.visit == s.visit ==> !Live(s.tasks[id])
    ensures Inv(m, LeaveState(m, s))
  {
    if s.phase.Draining? && !s.raised {
      FollowKeepsInv(m, s);
    }
  }

  /** A racer ends, in whatever way. */
  lemma RacerEndsKeepsInv(m: Mission, s: State, r: Racer)
    requires Inv(m, s) && Running(s) && IsLive(s, r)
    ensures r in RacersOf(m.transitions, s.action)
    ensures Inv(m, s.(tasks := s.tasks[TaskId(s.visit, r) := Over]))
  {}

  lemma FinishKeepsInv(m: Mission, s: State, r: Racer)
    requires Inv(m, s) && Running(s) && r in RacersOf(m.transitions, s.action)
    ensures Inv(m, s.(queue := if s.queue.None? then Some(Won(r)) else s.queue, finished := s.finished + [r]))
    ensures Inv(m, s.(queue := if s.queue.None? then Some(RacerFailed) else s.queue, raised := true))
  {}

  lemma CancelAllKeepsInv(m: Mission, s: State, phase: Phase)
    requires Inv(m, s) && (s.phase.Racing? || s.phase.Draining?)
    requires phase == Stopping || (phase == Aborting && s.raised)
    ensures Inv(m, s.(phase := phase, tasks := CancelAll(s.tasks, s.visit)))
  {}

  lemma TakeKeepsInv(m: Mission, s: State)
    requires Inv(m, s) && s.phase.Racing? && s.queue.Some?
    ensures Inv(m, s.(phase := Draining(s.queue.value), queue := None, tasks := CancelAll(s.tasks, s.visit)))
  {}

  lemma NextKeepsInv(m: Mission, s: State, step: Step)
    requires Inv(m, s)
    ensures Next(m, s, step).Some? ==> Inv(m, Next(m, s, step).value)
  {
    if Next(m, s, step).Some? {
      match step
      case Finish(r) =>
        RacerEndsKeepsInv(m, s, r);
        FinishKeepsInv(m, s.(tasks := s.tasks[TaskId(s.visit, r) := Over]), r);
      case Raise(r) =>
        RacerEndsKeepsInv(m, s, r);
        FinishKeepsInv(m, s.(tasks := s.tasks[TaskId(s.visit, r) := Over]), r);
      case Drop(r) => RacerEndsKeepsInv(m, s, r);
      case Take => TakeKeepsInv(m, s);
      case Abort => CancelAllKeepsInv(m, s, Aborting);
      case Leave => LeaveKeepsInv(m, s);
      case Stop => CancelAllKeepsInv(m, s, Stopping);
    }
  }

  lemma {:induction false} RunsKeepInv(m: Mission, steps: seq<Step>)
    ensures Execute(m, steps).Some? ==> Inv(m, Execute(m, steps).value)
  {
    if steps == [] {
      EnterKeepsInv(m, State(0, m.start, Racing, map[], None, false, [], []), m.start);
    } else {
      RunsKeepInv(m, steps[..|steps| - 1]);
      if Execute(m, steps[..|steps| - 1]).Some? {
        NextKeepsInv(m, Execute(m, steps[..|steps| - 1]).value, steps[|steps| - 1]);
      }
    }
  }

  // ----- what every run guarantees -----

  /** Main result: at any moment of any run at most one mission action executes, and
      no racer outlives the state that started it. */
  lemma OneActionAtATime(m: Mission, steps: seq<Step>, a: TaskId, b: TaskId)
    requires Execute(m, steps).Some?
    requires var s := Execute(m, steps).value;
             a in s.tasks && b in s.tasks && Live(s.tasks[a]) && Live(s.tasks[b])
    ensures a.visit == b.visit == Execute(m, steps).value.visit && Running(Execute(m, steps).value)
    ensures a.racer.ActionRacer? && b.racer.ActionRacer? ==> a == b
  {
    RunsKeepInv(m, steps);
  }

  /** The edge that the source follows for a finisher: `done` for the action, and the
      event's own edge for an event. */
  ghost function TargetFor(t: Transitions, action: string, r: Racer): string {
    var edges := if action in t then t[action] else map[];
    match r
    case ActionRacer => if "done" in edges then edges["done"] else "terminate"
    case EventRacer(event) => if event in edges then edges[event] else "terminate"
  }

  lemma EdgeIsTarget(t: Transitions, action: string, r: Racer)
    ensures NextState(t, action, EventOf(r)) == TargetFor(t, action, r)
  {}

  lemma EnterGoes(m: Mission, s: State, action: string)
    ensures var after := Enter(m, s, action);
            && after.action == action && after.winners == s.winners
            && after.phase == if action == "terminate" then Ended else if Undeclared(m, action) then Crashed else Racing
  {}

  /** What leaving a state does, given who finished first in it. */
  ghost predicate Follows(m: Mission, s: State, r: Racer, after: State) {
    && after.action == TargetFor(m.transitions, s.action, r)
    && after.winners == s.winners + [if r.ActionRacer? then "done" else r.event]
    && after.phase == if after.action == "terminate" then Ended
                      else if Undeclared(m, after.action) then Crashed
                      else Racing
  }

  lemma LeavingFollows(m: Mission, s: State)
    requires Inv(m, s) && s.phase.Draining? && !s.raised
    ensures s.finished != [] && Follows(m, s, s.finished[0], LeaveState(m, s))
  {
    var r := s.finished[0];
    EdgeIsTarget(m.transitions, s.action, r);
    EnterGoes(m, s.(winners := s.winners + [EventOf(r)]), TargetFor(m.transitions, s.action, r));
  }

  /** Main result: whenever a state is left and no racer raised and nobody stopped the
      run, the run follows the edge of the state's first finisher, whatever finished
      or was cancelled later. */
  lemma FirstFinisherDecides(m: Mission, steps: seq<Step>)
    requires Execute(m, steps).Some? && Next(m, Execute(m, steps).value, Leave).Some?
    requires !Execute(m, steps).value.raised && !Execute(m, steps).value.phase.Stopping?
    ensures var s := Execute(m, steps).value;
            s.finished != [] && Follows(m, s, s.finished[0], Next(m, s, Leave).value)
  {
    RunsKeepInv(m, steps);
    LeavingFollows(m, Execute(m, steps).value);
  }

  /** The state or one of its events has no declaration to build a racer from. */
  ghost predicate Undeclared(m: Mission, action: string) {
    action !in m.actions
    || exists e :: action in m.transitions && e in m.transitions[action] && e != "done" && e !in m.events
  }

  /** A run that is stopped enters no further state, and once its racers are over it
      has ended, even if one of them still finishes. */
  lemma StoppingEndsTheRun(m: Mission, s: State, step: Step)
    requires Inv(m, s) && s.phase.Stopping? && Next(m, s, step).Some?
    ensures var s' := Next(m, s, step).value;
            && s'.visit == s.visit && s'.winners == s.winners && s'.action == s.action
            && (step.Leave? ==> s'.phase == if s.raised then Crashed else Stopped)
            && (!step.Leave? ==> s'.phase.Stopping?)
  {}

  /** Later finishers change nothing but the record. */
  lemma LateFinishersChangeNothing(m: Mission, s: State, r: Racer)
    requires Inv(m, s) && Next(m, s, Finish(r)).Some? && s.finished != [] && !s.raised
    ensures var s' := Next(m, s, Finish(r)).value;
            s'.finished[0] == s.finished[0] && s'.phase == s.phase && s'.action == s.action && s'.winners == s.winners
            && (s.phase.Racing? ==> s'.queue == s.queue)
  {}

  /** A racer that raises ends the whole run with an exception: once one has, the
      state is never left for another one. */
  lemma RaisingEndsTheRun(m: Mission, steps: seq<Step>, step: Step)
    requires Execute(m, steps).Some? && Execute(m, steps).value.raised
    requires Next(m, Execute(m, steps).value, step).Some?
    ensures var s, s' := Execute(m, steps).value, Next(m, Execute(m, steps).value, step).value;
            s'.raised && s'.visit == s.visit && s'.winners == s.winners && s'.phase != Ended
  {
    RunsKeepInv(m, steps);
  }

  // ----- the run, by its steps alone -----

  /** What the steps alone say: the racers that finished first in the states left so far,
      the one that did in the present state, and whether the run was stopped. */
  datatype Account = Account(left: seq<Racer>, first: Option<Racer>, stopped: bool)

  ghost function Noted(a: Account, step: Step): Account {
    if a.stopped then a
    else
      match step
      case Finish(r) => if a.first.None? then a.(first := Some(r)) else a
      case Leave => if a.first.Some? then Account(a.left + [a.first.value], None, false) else a
      case Stop => a.(stopped := true)
      case _ => a
  }

  ghost function Firsts(steps: seq<Step>): Account {
    if steps == [] then Account([], None, false) else Noted(Firsts(steps[..|steps| - 1]), steps[|steps| - 1])
  }

  ghost predicate SameEdges(winners: seq<string>, racers: seq<Racer>) {
    |winners| == |racers|
    && forall i :: 0 <= i < |racers| ==> winners[i] == if racers[i].ActionRacer? then "done" else racers[i].event
  }

  ghost predicate RecordsFirsts(s: State, steps: seq<Step>) {
    && (!s.phase.Crashed? ==> SameEdges(s.winners, Firsts(steps).left))
    && (s.phase.Stopping? <==> Firsts(steps).stopped && Running(s))
    && (Running(s) && !s.phase.Stopping? ==>
          Firsts(steps).first == if s.finished == [] then None else Some(s.finished[0]))
  }

  lemma StepRecordsFirsts(m: Mission, steps: seq<Step>, step: Step)
    requires Execute(m, steps).Some? && RecordsFirsts(Execute(m, steps).value, steps) && !step.Leave?
    requires Next(m, Execute(m, steps).value, step).Some?
    ensures RecordsFirsts(Next(m, Execute(m, steps).value, step).value, steps + [step])
  {
    assert (steps + [step])[..|steps|] == steps;
  }

  lemma LeaveRecordsFirsts(m: Mission, steps: seq<Step>)
    requires Execute(m, steps).Some? && RecordsFirsts(Execute(m, steps).value, steps)
    requires Next(m, Execute(m, steps).value, Leave).Some?
    ensures RecordsFirsts(Next(m, Execute(m, steps).value, Leave).value, steps + [Leave])
  {
    assert (steps + [Leave])[..|steps|] == steps;
    var s := Execute(m, steps).value;
    if !s.raised && !s.phase.Stopping? {
      FirstFinisherDecides(m, steps);
      if Running(Next(m, s, Leave).value) {
        EnteredIsFresh(m, s);
      }
    } else {
      LeftForGood(m, s);
    }
  }

  lemma LeftForGood(m: Mission, s: State)
    requires Next(m, s, Leave).Some? && (s.raised || s.phase.Stopping?)
    ensures var after := Next(m, s, Leave).value;
            !Running(after) && (after.phase.Crashed? || (s.phase.Stopping? && after.winners == s.winners))
  {}

  /** A state that is entered starts with nothing finished and all its racers going. */
  lemma EnteredIsFresh(m: Mission, s: State)
    requires Next(m, s, Leave).Some? && Running(Next(m, s, Leave).value)
    ensures var after := Next(m, s, Leave).value;
            && after.phase.Racing? && after.visit == s.visit + 1 && after.finished == [] && !after.raised
            && (forall id :: id in after.tasks && id.visit == after.visit && id !in s.tasks ==>
                 after.tasks[id] == Going)
            && (forall id :: id in s.tasks && id.visit <= s.visit ==>
                  id in after.tasks && after.tasks[id] == s.tasks[id])
  {}

  lemma {:induction false} RunsRecordFirsts(m: Mission, steps: seq<Step>)
    requires Execute(m, steps).Some?
    ensures RecordsFirsts(Execute(m, steps).value, steps)
  {
    if steps != [] {
      var before, step := steps[..|steps| - 1], steps[|steps| - 1];
      RunsRecordFirsts(m, before);
      assert steps == before + [step];
      if step.Leave? {
        LeaveRecordsFirsts(m, before);
      } else {
        StepRecordsFirsts(m, before, step);
      }
    }
  }

  /** Where the rules as written lead when `racers` finish first in one state after the
      other. */
  ghost function SourceAfter(blocks: seq<Block>, actions: set<string>, start: string, racers: seq<Racer>): string {
    if racers == [] then start
    else
      var before := SourceAfter(blocks, actions, start, racers[..|racers| - 1]);
      var target := match racers[|racers| - 1]
                    case ActionRacer => SourceTarget(blocks, actions, before, "done")
                    case EventRacer(event) => SourceTarget(blocks, actions, before, event);
      if before == "terminate" || target.None? then "terminate" else target.value
  }

  lemma {:induction false} SameStates(blocks: seq<Block>, actions: set<string>, start: string, winners: seq<string>,
                                      racers: seq<Racer>)
    requires SameEdges(winners, racers)
    ensures SourceStateAfter(blocks, actions, start, winners) == SourceAfter(blocks, actions, start, racers)
  {
    if winners != [] {
      SameStates(blocks, actions, start, winners[..|winners| - 1], racers[..|racers| - 1]);
    }
  }

  /** Main result: compiled and run, a mission that did not end with an exception is in the
      state its rules prescribe for the racers that finished first, as the steps have
      it, however the racers interleave. */
  lemma RunFollowsSource(blocks: seq<Block>, actions: set<string>, events: set<string>, start: string, steps: seq<Step>)
    requires var m := Mission(Compile(AddBlocks(blocks), actions), actions, events, start);
             Execute(m, steps).Some? && Execute(m, steps).value.phase != Crashed
    ensures var s := Execute(Mission(Compile(AddBlocks(blocks), actions), actions, events, start), steps).value;
            s.action == SourceAfter(blocks, actions, start, Firsts(steps).left)
  {
    var m := Mission(Compile(AddBlocks(blocks), actions), actions, events, start);
    RunsKeepInv(m, steps);
    RunsRecordFirsts(m, steps);
    var s := Execute(m, steps).value;
    CompiledRunFollowsSource(blocks, actions, start, s.winners);
    SameStates(blocks, actions, start, s.winners, Firsts(steps).left);
  }

  // ----- declared missions -----

  /** The states of a declared mission can be entered. */
  lemma DeclaredStatesEnter(blocks: seq<Block>, actions: set<string>, events: set<string>, start: string, s: State,
                            action: string)
    requires Declared(blocks, actions, events, start) && action in actions + {TERMINATE}
    ensures Enter(Mission(Compile(AddBlocks(blocks), actions), actions, events, start), s, action).phase != Crashed
  {
    var t := Compile(AddBlocks(blocks), actions);
    if action != TERMINATE {
      forall e | e in EdgesOf(t, action) && e != DONE ensures e in events {
        EdgesAreDeclared(blocks, actions, events, start, action, e);
      }
    }
  }

  function DeclaredMission(blocks: seq<Block>, actions: set<string>, events: set<string>, start: string): Mission {
    Mission(Compile(AddBlocks(blocks), actions), actions, events, start)
  }

  /** Steps within a state do not end a run with an exception. */
  lemma OnlyLeavingCrashes(m: Mission, s: State, step: Step)
    requires !step.Leave? && Next(m, s, step).Some? && (s.phase == Crashed ==> s.raised)
    ensures Next(m, s, step).value.phase == Crashed ==> Next(m, s, step).value.raised
  {}

  lemma LeavingADeclaredState(blocks: seq<Block>, actions: set<string>, events: set<string>, start: string, s: State)
    requires Declared(blocks, actions, events, start)
    requires var m := DeclaredMission(blocks, actions, events, start);
             Inv(m, s) && Running(s) && !s.phase.Racing? && forall id :: id in s.tasks ==> !Live(s.tasks[id])
    ensures var after := LeaveState(DeclaredMission(blocks, actions, events, start), s);
            after.phase == Crashed ==> after.raised
  {
    var m := DeclaredMission(blocks, actions, events, start);
    if s.phase.Draining? && !s.raised {
      FollowKeepsInv(m, s);
      var r := s.finished[0];
      assert r in s.finished;
      EdgesAreDeclared(blocks, actions, events, start, s.action, EventOf(r));
      DeclaredStatesEnter(blocks, actions, events, start, s.(winners := s.winners + [EventOf(r)]),
                          NextState(m.transitions, s.action, EventOf(r)));
    }
  }

  /** Main result: a run of a declared mission ends with an exception only if a
      racer raised. */
  lemma {:induction false} OnlyRacersCrashADeclaredMission(blocks: seq<Block>, actions: set<string>,
          events: set<string>,
                                                           start: string, steps: seq<Step>)
    requires Declared(blocks, actions, events, start)
    requires Execute(DeclaredMission(blocks, actions, events, start), steps).Some?
    ensures var s := Execute(DeclaredMission(blocks, actions, events, start), steps).value;
            s.phase == Crashed ==> s.raised
  {
    var m := DeclaredMission(blocks, actions, events, start);
    if steps == [] {
      DeclaredStatesEnter(blocks, actions, events, start, State(0, start, Racing, map[], None, false, [], []), start);
    } else {
      var before, step := steps[..|steps| - 1], steps[|steps| - 1];
      OnlyRacersCrashADeclaredMission(blocks, actions, events, start, before);
      RunsKeepInv(m, before);
      if step.Leave? {
        LeavingADeclaredState(blocks, actions, events, start, Execute(m, before).value);
      } else {
        OnlyLeavingCrashes(m, Execute(m, before).value, step);
      }
    }
  }

  /** Main result: a run of an acyclic declared mission leaves at most as many
      states as there are actions, and after that many it has terminated. */
  lemma AcyclicRunsTerminate(blocks: seq<Block>, actions: set<string>, events: set<string>, start: string,
                             steps: seq<Step>)
    requires Declared(blocks, actions, events, start) && Acyclic(Compile(AddBlocks(blocks), actions))
    requires Execute(DeclaredMission(blocks, actions, events, start), steps).Some?
    ensures var s := Execute(DeclaredMission(blocks, actions, events, start), steps).value;
            |s.winners| <= |actions| && (|s.winners| == |actions| ==> !Running(s))
  {
    var m := DeclaredMission(blocks, actions, events, start);
    RunsKeepInv(m, steps);
    AcyclicMissionsTerminate(blocks, actions, events, start, Execute(m, steps).value.winners);
  }
}
