/** Calls and the mission's own task sharing the runtime: each stretch between two
    awaits is one step, any task may be cancelled at any await. */
module RuntimeProtocol {
  import opened Wrappers
  import opened Runtime

  datatype Kind = Starter | Stopper | Fsm

  datatype Pc =
    | WantInit             // waits for the lock
    | StartingStore        // holds it, as do the next two
    | CleaningStore
    | CleaningChannel
    | WantTerm             // waits for the lock
    | AwaitingFsm          // holds it, as do the next two
    | StoppingStore
    | ClosingChannel
    | Playing              // the mission runs
    | Unwinding            // it was cancelled and has not ended yet
    | Answered(code: int)
    | Raising              // ended with an exception
    | Cancelled

  datatype Task = Task(kind: Kind, pc: Pc)

  predicate Over(pc: Pc) { pc.Answered? || pc.Raising? || pc.Cancelled? }
  predicate Starts(pc: Pc) { pc.StartingStore? || pc.CleaningStore? || pc.CleaningChannel? }
  predicate Stops(pc: Pc) { pc.AwaitingFsm? || pc.StoppingStore? || pc.ClosingChannel? }
  predicate HoldsLock(pc: Pc) { Starts(pc) || Stops(pc) }

  datatype State = State(g: Globals, uploaded: bool, lock: Option<nat>, tasks: map<nat, Task>)

  datatype Action =
    | Upload
    | Call(t: nat, kind: Kind)
    | Go(t: nat, how: Await, born: nat)   // the await that `t` is at ends; `born` is the id for a new task
    | Interrupt(t: nat)

  function Put(tasks: map<nat, Task>, t: nat, pc: Pc): map<nat, Task>
    requires t in tasks
  {
    tasks[t := tasks[t].(pc := pc)]
  }

  function Release(s: State, g: Globals, t: nat, pc: Pc): State
    requires t in s.tasks
  {
    s.(g := g, lock := None, tasks := Put(s.tasks, t, pc))
  }

  predicate FsmGoing(s: State) {
    s.g.fsm.Some? && s.g.fsm.value in s.tasks && !Over(s.tasks[s.g.fsm.value].pc)
  }

  /** `term` from where the state machine's task is out of the way. */
  function AfterFsm(s: State, t: nat): State
    requires t in s.tasks
  {
    s.(g := FsmDropped(s.g), tasks := Put(s.tasks, t, if s.g.store.Some? then StoppingStore else ClosingChannel))
  }

  /** A task waiting for the lock ends at once when cancelled; a running mission has
      to unwind first. */
  function CancelFsm(pc: Pc): Pc {
    if pc.WantTerm? then Cancelled else if pc.Playing? then Unwinding else pc
  }

  function TakeForInit(s: State, t: nat): State
    requires t in s.tasks
  {
    if s.g.started then s.(tasks := Put(s.tasks, t, Answered(COMPLETED)))
    else s.(g := Opened(s.g), lock := Some(t), tasks := Put(s.tasks, t, StartingStore))
  }

  /** The mission that ends calls `term` itself; cancelling itself has no effect,
      since the cancellation arrives at the await that suppresses it. */
  function TakeForTerm(s: State, t: nat): State
    requires t in s.tasks
  {
    if !s.g.started then s.(tasks := Put(s.tasks, t, Answered(COMPLETED)))
    else if FsmGoing(s) && s.g.fsm.value != t then
      var f := s.g.fsm.value;
      s.(lock := Some(t), tasks := Put(Put(s.tasks, f, CancelFsm(s.tasks[f].pc)), t, AwaitingFsm))
    else AfterFsm(s.(lock := Some(t)), t)
  }

  function Launch(s: State, t: nat, born: nat): State
    requires t in s.tasks
  {
    s.(g := Launched(s.g, born), lock := None,
      tasks := Put(s.tasks, t, Answered(COMPLETED))[born := Task(Fsm, Playing)])
  }

  /** One stretch; `None` while `t` waits. */
  function Advance(s: State, t: nat, how: Await, born: nat): Option<State>
    requires t in s.tasks
  {
    var pc := s.tasks[t].pc;
    if how.CutOff? then None
    else if pc.WantInit? then (if s.lock.Some? then None else Some(TakeForInit(s, t)))
    else if pc.StartingStore? then
      if how.Fails? then Some(s.(tasks := Put(s.tasks, t, CleaningStore)))
      else if born in s.tasks then None
      else Some(Launch(s, t, born))
    else if pc.CleaningStore? then Some(s.(g := StoreCleaned(s.g), tasks := Put(s.tasks, t, CleaningChannel)))
    else if pc.CleaningChannel? then Some(Release(s, ChannelCleaned(s.g), t, Raising))
    else if pc.WantTerm? then (if s.lock.Some? then None else Some(TakeForTerm(s, t)))
    else if pc.AwaitingFsm? then
      if FsmGoing(s) then None
      else if s.g.fsm.Some? && s.g.fsm.value in s.tasks
        && s.tasks[s.g.fsm.value].pc.Raising? then Some(Release(s, s.g, t, Raising))
      else Some(AfterFsm(s, t))
    else if pc.StoppingStore? then Some(s.(g := StoreStopped(s.g), tasks := Put(s.tasks, t, ClosingChannel)))
    else if pc.ClosingChannel? then Some(Release(s, ChannelClosed(s.g), t, Answered(COMPLETED)))
    else if pc.Playing? then Some(s.(tasks := Put(s.tasks, t, if how.Fails? then Raising else WantTerm)))
    else if pc.Unwinding? then Some(s.(tasks := Put(s.tasks, t, if how.Fails? then Raising else Cancelled)))
    else None
  }

  /** Cancelling a task. While it awaits the state machine's task the cancellation is
      suppressed. */
  function Cancel(s: State, t: nat): Option<State>
    requires t in s.tasks
  {
    var pc := s.tasks[t].pc;
    if Starts(pc) then Some(Release(s, InitCut(s.g), t, Cancelled))
    else if pc.StoppingStore? || pc.ClosingChannel? then Some(Release(s, s.g, t, Cancelled))
    else if pc.WantInit? || pc.WantTerm? then Some(s.(tasks := Put(s.tasks, t, Cancelled)))
    else if pc.Playing? then Some(s.(tasks := Put(s.tasks, t, Unwinding)))
    else None
  }

  function Next(s: State, a: Action): Option<State> {
    match a
    case Upload => Some(s.(uploaded := true))
    case Call(t, kind) =>
      if t in s.tasks || kind.Fsm? then None
      else
        var pc := if !s.uploaded then Answered(FAILED) else if kind.Starter? then WantInit else WantTerm;
        Some(s.(tasks := s.tasks[t := Task(kind, pc)]))
    case Go(t, how, born) => if t in s.tasks then Advance(s, t, how, born) else None
    case Interrupt(t) => if t in s.tasks then Cancel(s, t) else None
  }

  function Initially(): State {
    State(Unused(), false, None, map[])
  }

  function Execute(actions: seq<Action>): Option<State> {
    if actions == [] then Some(Initially())
    else
      var before := Execute(actions[..|actions| - 1]);
      if before.None? then None else Next(before.value, actions[|actions| - 1])
  }

  // ----- the invariant -----

  ghost predicate KindOk(k: Kind, pc: Pc) {
    Over(pc)
    || (k.Starter? && (pc.WantInit? || Starts(pc)))
    || (k.Stopper? && (pc.WantTerm? || Stops(pc)))
    || (k.Fsm? && (pc.Playing? || pc.Unwinding? || pc.WantTerm? || pc.StoppingStore? || pc.ClosingChannel?))
  }

  ghost predicate LockOk(s: State) {
    && (s.lock.Some? ==> s.lock.value in s.tasks)
    && forall t :: t in s.tasks ==> (HoldsLock(s.tasks[t].pc) <==> s.lock == Some(t))
  }

  /** A mission task that is not over is the one in the variables, or is itself
      running `term`. */
  ghost predicate FsmOk(s: State) {
    && (s.g.fsm.Some? ==> s.g.fsm.value in s.tasks && s.tasks[s.g.fsm.value].kind.Fsm?)
    && forall t :: t in s.tasks && s.tasks[t].kind.Fsm? && !Over(s.tasks[t].pc) ==>
         s.g.started && (s.g.fsm == Some(t) || s.lock == Some(t))
  }

  /** In the middle of `init`, the newest channel is open and belongs to nobody else. */
  ghost predicate HalfStarted(g: Globals, storeUp: bool) {
    && g.made > 0 && g.channel == Some(g.made - 1) && g.store == g.channel && !g.started && g.fsm.None?
    && (forall n :: n in g.cut ==> n < g.made - 1)
    && g.openChannels == g.cut + {g.made - 1}
    && g.runningStores == g.cutStores + (if storeUp then {g.made - 1} else {})
    && g.cutStores <= g.cut
  }

  ghost predicate Stopping(g: Globals, pc: Pc) {
    && Settled(g) && g.started
    && (pc.AwaitingFsm? ==> g.fsm.Some?)
    && (pc.StoppingStore? ==> g.fsm.None? && g.store.Some?)
    && (pc.ClosingChannel? ==> g.fsm.None? && g.store.None?)
  }

  ghost predicate GlobalsOk(g: Globals, holder: Option<Pc>) {
    if holder.None? then Settled(g)
    else if Starts(holder.value) then HalfStarted(g, !holder.value.CleaningChannel?)
    else Stopping(g, holder.value)
  }

  ghost function Holder(s: State): Option<Pc> {
    if s.lock.Some? && s.lock.value in s.tasks then Some(s.tasks[s.lock.value].pc) else None
  }

  ghost predicate KindsOk(s: State) {
    forall t :: t in s.tasks ==> KindOk(s.tasks[t].kind, s.tasks[t].pc)
  }

  /** A mission task that is awaited was cancelled before. */
  ghost predicate AwaitOk(s: State) {
    forall t :: t in s.tasks && s.tasks[t].pc.AwaitingFsm? && s.g.fsm.Some? && s.g.fsm.value in s.tasks ==>
      OnItsWayOut(s.tasks[s.g.fsm.value].pc)
  }

  predicate OnItsWayOut(pc: Pc) { Over(pc) || pc.Unwinding? }

  ghost predicate Inv(s: State) {
    LockOk(s) && FsmOk(s) && GlobalsOk(s.g, Holder(s)) && KindsOk(s) && AwaitOk(s)
  }
}
