/** What holds in every run of `RuntimeProtocol`: who holds what, how many missions
    are live, and how many channels are open. */
module RuntimeSafety {
  import opened Wrappers
  import opened Runtime
  import opened RuntimeProtocol

  // ----- the globals, stretch by stretch -----

  lemma OpenedIsHalfStarted(g: Globals)
    requires Settled(g) && !g.started
    ensures HalfStarted(Opened(g), true)
  {}

  lemma HalfStartedSettles(g: Globals, up: bool, task: nat)
    requires HalfStarted(g, up)
    ensures up ==> Settled(Launched(g, task))
    ensures up ==> HalfStarted(StoreCleaned(g), false)
    ensures !up ==> Settled(ChannelCleaned(g)) && ChannelCleaned(g).openChannels == g.cut
    ensures Settled(InitCut(g)) && InitCut(g).cut == g.cut + {g.made - 1}
  {}

  lemma StoppingSettles(g: Globals)
    requires Settled(g) && g.started
    ensures Stopping(FsmDropped(g), if g.store.Some? then StoppingStore else ClosingChannel)
    ensures g.fsm.None? ==> Stopping(StoreStopped(g), ClosingChannel)
    ensures g.fsm.None? && g.store.None? ==> Settled(ChannelClosed(g))
  {}

  // ----- the steps -----

  lemma TakeForInitKeepsInv(s: State, t: nat)
    requires Inv(s) && s.lock.None? && t in s.tasks && s.tasks[t].pc.WantInit?
    ensures Inv(TakeForInit(s, t))
  {
    if !s.g.started {
      OpenedIsHalfStarted(s.g);
    }
  }

  /** Letting the lock go with settled variables. */
  lemma ReleaseKeepsInv(s: State, g: Globals, t: nat, pc: Pc)
    requires Inv(s) && s.lock == Some(t) && t in s.tasks && Over(pc) && Settled(g)
    requires g.fsm == s.g.fsm
    requires s.g.started && !g.started ==> s.g.fsm.None?
    ensures Inv(Release(s, g, t, pc))
  {}

  /** While the runtime is not started, no mission is live. */
  lemma NoneLive(s: State, u: nat)
    requires FsmOk(s) && !s.g.started && u in s.tasks && s.tasks[u].kind.Fsm?
    ensures Over(s.tasks[u].pc)
  {}

  lemma LaunchFsmOk(s: State, t: nat, born: nat)
    requires FsmOk(s) && !s.g.started && t in s.tasks && s.tasks[t].kind.Starter? && born !in s.tasks
    ensures FsmOk(Launch(s, t, born))
  {
    forall u | u in s.tasks && s.tasks[u].kind.Fsm? ensures Over(s.tasks[u].pc) {
      NoneLive(s, u);
    }
  }

  lemma LaunchLockOk(s: State, t: nat, born: nat)
    requires LockOk(s) && KindsOk(s) && s.lock == Some(t) && t in s.tasks && born !in s.tasks
    ensures LockOk(Launch(s, t, born)) && KindsOk(Launch(s, t, born)) && AwaitOk(Launch(s, t, born))
  {}

  lemma LaunchKeepsInv(s: State, t: nat, born: nat)
    requires Inv(s) && t in s.tasks && s.tasks[t].pc.StartingStore? && born !in s.tasks
    ensures Inv(Launch(s, t, born))
  {
    assert Holder(s) == Some(s.tasks[t].pc);
    HalfStartedSettles(s.g, true, born);
    LaunchFsmOk(s, t, born);
    LaunchLockOk(s, t, born);
  }

  lemma CleanupKeepsInv(s: State, t: nat)
    requires Inv(s) && t in s.tasks
    ensures s.tasks[t].pc.StartingStore? ==> Inv(s.(tasks := Put(s.tasks, t, CleaningStore)))
    ensures s.tasks[t].pc.CleaningStore? ==> Inv(s.(g := StoreCleaned(s.g), tasks := Put(s.tasks, t, CleaningChannel)))
  {
    if s.tasks[t].pc.CleaningStore? {
      HalfStartedSettles(s.g, true, 0);
    }
  }

  lemma StartStepKeepsInv(s: State, t: nat, how: Await, born: nat)
    requires Inv(s) && t in s.tasks && Starts(s.tasks[t].pc)
    ensures Advance(s, t, how, born).Some? ==> Inv(Advance(s, t, how, born).value)
  {
    if s.tasks[t].pc.CleaningChannel? {
      HalfStartedSettles(s.g, false, born);
      ReleaseKeepsInv(s, ChannelCleaned(s.g), t, Raising);
    } else {
      CleanupKeepsInv(s, t);
      if s.tasks[t].pc.StartingStore? && born !in s.tasks {
        LaunchKeepsInv(s, t, born);
      }
    }
  }

  lemma AfterFsmKeepsInv(s: State, t: nat)
    requires Inv(s) && t in s.tasks && (s.tasks[t].kind.Stopper? || s.tasks[t].kind.Fsm?)
    requires s.tasks[t].pc.WantTerm? || s.tasks[t].pc.AwaitingFsm?
    requires s.lock == (if s.tasks[t].pc.WantTerm? then None else Some(t))
    requires s.g.started && (FsmGoing(s) ==> s.g.fsm == Some(t))
    ensures Inv(AfterFsm(s.(lock := Some(t)), t))
  {
    StoppingSettles(s.g);
  }

  /** The mission is cancelled and awaited. */
  lemma AwaitKeepsInv(s: State, t: nat, f: nat)
    requires Inv(s) && s.lock.None? && s.g.started && s.g.fsm == Some(f) && f != t
    requires t in s.tasks && s.tasks[t].pc.WantTerm? && s.tasks[t].kind.Stopper?
    requires f in s.tasks && !Over(s.tasks[f].pc)
    ensures Inv(s.(lock := Some(t), tasks := Put(Put(s.tasks, f, CancelFsm(s.tasks[f].pc)), t, AwaitingFsm)))
  {}

  /** Only the mission itself ends while it is the one in the variables. */
  lemma OtherIsStopper(s: State, t: nat)
    requires Inv(s) && s.lock.None? && t in s.tasks && s.tasks[t].pc.WantTerm? && s.g.started && s.g.fsm != Some(t)
    ensures s.tasks[t].kind.Stopper?
  {
    assert KindOk(s.tasks[t].kind, s.tasks[t].pc);
  }

  lemma TakeForTermKeepsInv(s: State, t: nat)
    requires Inv(s) && s.lock.None? && t in s.tasks && s.tasks[t].pc.WantTerm?
    ensures Inv(TakeForTerm(s, t))
  {
    if !s.g.started {
      MoveKeepsInv(s, t, Answered(COMPLETED));
    } else if FsmGoing(s) && s.g.fsm.value != t {
      OtherIsStopper(s, t);
      AwaitKeepsInv(s, t, s.g.fsm.value);
    } else {
      AfterFsmKeepsInv(s, t);
    }
  }

  lemma StoppedKeepsInv(s: State, t: nat)
    requires Inv(s) && t in s.tasks && s.tasks[t].pc.StoppingStore?
    ensures Inv(s.(g := StoreStopped(s.g), tasks := Put(s.tasks, t, ClosingChannel)))
  {
    StoppingSettles(s.g);
  }

  lemma StopStepKeepsInv(s: State, t: nat, how: Await, born: nat)
    requires Inv(s) && t in s.tasks && Stops(s.tasks[t].pc)
    ensures Advance(s, t, how, born).Some? ==> Inv(Advance(s, t, how, born).value)
  {
    assert Holder(s) == Some(s.tasks[t].pc);
    if s.tasks[t].pc.StoppingStore? {
      StoppedKeepsInv(s, t);
    } else if s.tasks[t].pc.ClosingChannel? {
      StoppingSettles(s.g);
      ReleaseKeepsInv(s, ChannelClosed(s.g), t, Answered(COMPLETED));
    } else if !FsmGoing(s) {
      ReleaseKeepsInv(s, s.g, t, Raising);
      AfterFsmKeepsInv(s, t);
      assert s.(lock := Some(t)) == s;
    }
  }

  /** A task that holds no lock moves without taking it. */
  lemma MoveKeepsInv(s: State, t: nat, pc: Pc)
    requires Inv(s) && t in s.tasks && KindOk(s.tasks[t].kind, pc)
    requires !HoldsLock(s.tasks[t].pc) && !HoldsLock(pc)
    requires Over(s.tasks[t].pc) ==> Over(pc)
    requires OnItsWayOut(s.tasks[t].pc) ==> OnItsWayOut(pc)
    ensures Inv(s.(tasks := Put(s.tasks, t, pc)))
  {
    assert Holder(s.(tasks := Put(s.tasks, t, pc))) == Holder(s);
  }

  lemma FsmStepKeepsInv(s: State, t: nat, how: Await, born: nat)
    requires Inv(s) && t in s.tasks && (s.tasks[t].pc.Playing? || s.tasks[t].pc.Unwinding?)
    ensures Advance(s, t, how, born).Some? ==> Inv(Advance(s, t, how, born).value)
  {
    MoveKeepsInv(s, t, Raising);
    if s.tasks[t].pc.Playing? {
      MoveKeepsInv(s, t, WantTerm);
    } else {
      MoveKeepsInv(s, t, Cancelled);
    }
  }

  lemma CutStartKeepsInv(s: State, t: nat)
    requires Inv(s) && t in s.tasks && Starts(s.tasks[t].pc)
    ensures Inv(Release(s, InitCut(s.g), t, Cancelled))
  {
    assert Holder(s) == Some(s.tasks[t].pc);
    HalfStartedSettles(s.g, !s.tasks[t].pc.CleaningChannel?, 0);
    ReleaseKeepsInv(s, InitCut(s.g), t, Cancelled);
  }

  lemma CutStopKeepsInv(s: State, t: nat)
    requires Inv(s) && t in s.tasks && (s.tasks[t].pc.StoppingStore? || s.tasks[t].pc.ClosingChannel?)
    ensures Inv(Release(s, s.g, t, Cancelled))
  {
    assert Holder(s) == Some(s.tasks[t].pc);
    ReleaseKeepsInv(s, s.g, t, Cancelled);
  }

  lemma CancelKeepsInv(s: State, t: nat)
    requires Inv(s) && t in s.tasks
    ensures Cancel(s, t).Some? ==> Inv(Cancel(s, t).value)
  {
    var pc := s.tasks[t].pc;
    if Starts(pc) {
      CutStartKeepsInv(s, t);
    } else if pc.StoppingStore? || pc.ClosingChannel? {
      CutStopKeepsInv(s, t);
    } else if pc.WantInit? || pc.WantTerm? {
      MoveKeepsInv(s, t, Cancelled);
    } else if pc.Playing? {
      MoveKeepsInv(s, t, Unwinding);
    }
  }

  lemma GoKeepsInv(s: State, t: nat, how: Await, born: nat)
    requires Inv(s) && t in s.tasks
    ensures Advance(s, t, how, born).Some? ==> Inv(Advance(s, t, how, born).value)
  {
    var pc := s.tasks[t].pc;
    if pc.WantInit? {
      if s.lock.None? { TakeForInitKeepsInv(s, t); }
    } else if pc.WantTerm? {
      if s.lock.None? { TakeForTermKeepsInv(s, t); }
    } else if Starts(pc) {
      StartStepKeepsInv(s, t, how, born);
    } else if Stops(pc) {
      StopStepKeepsInv(s, t, how, born);
    } else if pc.Playing? || pc.Unwinding? {
      FsmStepKeepsInv(s, t, how, born);
    }
  }

  lemma CallKeepsInv(s: State, t: nat, kind: Kind, pc: Pc)
    requires Inv(s) && t !in s.tasks && !kind.Fsm? && KindOk(kind, pc) && !HoldsLock(pc)
    ensures Inv(s.(tasks := s.tasks[t := Task(kind, pc)]))
  {
    assert Holder(s.(tasks := s.tasks[t := Task(kind, pc)])) == Holder(s);
  }

  lemma NextKeepsInv(s: State, a: Action)
    requires Inv(s)
    ensures Next(s, a).Some? ==> Inv(Next(s, a).value)
  {
    match a
    case Upload => assert Holder(s.(uploaded := true)) == Holder(s);
    case Call(t, kind) =>
      if t !in s.tasks && !kind.Fsm? {
        CallKeepsInv(s, t, kind, if !s.uploaded then Answered(FAILED) else if kind.Starter? then WantInit
          else WantTerm);
      }
    case Go(t, how, born) =>
      if t in s.tasks { GoKeepsInv(s, t, how, born); }
    case Interrupt(t) =>
      if t in s.tasks { CancelKeepsInv(s, t); }
  }

  lemma {:induction false} RunsKeepInv(actions: seq<Action>)
    ensures Execute(actions).Some? ==> Inv(Execute(actions).value)
  {
    if actions != [] {
      var before := actions[..|actions| - 1];
      RunsKeepInv(before);
      if Execute(before).Some? {
        NextKeepsInv(Execute(before).value, actions[|actions| - 1]);
      }
    }
  }

  // ----- the theorems -----

  /** The tasks of missions that have not ended. */
  ghost function LiveMissions(s: State): set<nat> {
    set t | t in s.tasks && s.tasks[t].kind.Fsm? && !Over(s.tasks[t].pc)
  }

  /** Main result: in every run at most one mission is live, and one is live only
      while the runtime is started. */
  lemma OneLiveMission(actions: seq<Action>, t: nat, u: nat)
    requires Execute(actions).Some?
    ensures var s := Execute(actions).value;
      (t in LiveMissions(s) ==> s.g.started) && (t in LiveMissions(s) && u in LiveMissions(s) ==> t == u)
  {
    RunsKeepInv(actions);
  }

  /** Main result: whenever the lock is free, the channel and the store in the
      variables are open exactly when the runtime is started, and the open channels
      are that one and those of the starts that were cut off: opened minus closed
      is one or zero and the number of those starts. */
  lemma ChannelsAreConserved(actions: seq<Action>)
    requires Execute(actions).Some? && Execute(actions).value.lock.None?
    ensures var g := Execute(actions).value.g;
      && g.openChannels == g.cut + (if g.started then Held(g.channel) else {})
      && g.runningStores == g.cutStores + (if g.started then Held(g.store) else {})
      && |g.openChannels| == |g.cut| + (if g.started then 1 else 0)
  {
    RunsKeepInv(actions);
    var g := Execute(actions).value.g;
    if g.started {
      assert g.openChannels == g.cut + {g.channel.value};
    }
  }
}
