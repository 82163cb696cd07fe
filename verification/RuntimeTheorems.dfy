/** Exact accounts of the runtime's resources over whole runs, that no run gets stuck,
    and that `init` and `term` undisturbed are the methods of `Runtime`. */
module RuntimeTheorems {
  import opened Wrappers
  import opened Runtime
  import opened RuntimeProtocol
  import opened RuntimeSafety

  // ----- counting the starts that were cut off -----

  /** Action `a` cancels a start in the middle of `init`. */
  predicate CutsStart(s: State, a: Action) {
    a.Interrupt? && a.t in s.tasks && Starts(s.tasks[a.t].pc)
  }

  function CutStarts(actions: seq<Action>): nat {
    if actions == [] then 0
    else
      var n := |actions| - 1;
      CutStarts(actions[..n])
        + (if Execute(actions[..n]).Some? && CutsStart(Execute(actions[..n]).value, actions[n]) then 1 else 0)
  }

  lemma OnlyCutStartsAreRecorded(s: State, a: Action)
    requires Next(s, a).Some?
    ensures Next(s, a).value.g.cut == if CutsStart(s, a) then InitCut(s.g).cut else s.g.cut
  {}

  lemma StepCountsCut(s: State, a: Action)
    requires Inv(s) && Next(s, a).Some?
    ensures |Next(s, a).value.g.cut| == |s.g.cut| + (if CutsStart(s, a) then 1 else 0)
  {
    OnlyCutStartsAreRecorded(s, a);
    if CutsStart(s, a) {
      assert HalfStarted(s.g, !s.tasks[a.t].pc.CleaningChannel?);
      assert InitCut(s.g).cut == s.g.cut + {s.g.made - 1} && s.g.made - 1 !in s.g.cut;
    }
  }

  lemma {:induction false} CutIsCounted(actions: seq<Action>)
    requires Execute(actions).Some?
    ensures |Execute(actions).value.g.cut| == CutStarts(actions)
  {
    if actions != [] {
      var before := actions[..|actions| - 1];
      RunsKeepInv(before);
      CutIsCounted(before);
      StepCountsCut(Execute(before).value, actions[|actions| - 1]);
    }
  }

  /** Main result: whenever the lock is free, opened minus closed is one or zero, as
      the runtime is started or not, plus the number of starts cut off so far. */
  lemma OpenedMinusClosed(actions: seq<Action>)
    requires Execute(actions).Some? && Execute(actions).value.lock.None?
    ensures var g := Execute(actions).value.g;
      |g.openChannels| == CutStarts(actions) + (if g.started then 1 else 0)
  {
    ChannelsAreConserved(actions);
    CutIsCounted(actions);
  }

  /** Main result: the account balances if and only if no start was cut off. */
  lemma BalancedIffNoStartWasCut(actions: seq<Action>)
    requires Execute(actions).Some? && Execute(actions).value.lock.None?
    ensures var g := Execute(actions).value.g;
      |g.openChannels| == (if g.started then 1 else 0) <==> CutStarts(actions) == 0
  {
    OpenedMinusClosed(actions);
  }

  // ----- the variables -----

  /** Action `a` cancels a start in the middle of `init`, or a `term` that is closing
      the channel. */
  predicate Spoils(s: State, a: Action) {
    a.Interrupt? && a.t in s.tasks && (Starts(s.tasks[a.t].pc) || s.tasks[a.t].pc.ClosingChannel?)
  }

  ghost predicate Unspoiled(actions: seq<Action>) {
    forall k :: 0 <= k < |actions| && Execute(actions[..k]).Some? ==> !Spoils(Execute(actions[..k]).value, actions[k])
  }

  /** The variables hold a store and a channel exactly when the runtime is started, and
      nothing else is open. */
  ghost predicate Matches(g: Globals) {
    && g.channel.Some? == g.store.Some? == g.started
    && g.openChannels == Held(g.channel) && g.runningStores == Held(g.store)
  }

  ghost predicate AlwaysMatches(actions: seq<Action>) {
    forall k :: 0 <= k <= |actions| && Execute(actions[..k]).Some? && Execute(actions[..k]).value.lock.None? ==>
      Matches(Execute(actions[..k]).value.g)
  }

  /** What a run keeps that nothing spoils. */
  ghost predicate Tidy(s: State) {
    && s.g.cut == {}
    && (Holder(s).None? ==> s.g.store.Some? == s.g.channel.Some? == s.g.started)
    && (Holder(s).Some? && Holder(s).value.AwaitingFsm? ==> s.g.store.Some?)
  }

  lemma StepKeepsTidy(s: State, a: Action)
    requires Inv(s) && Tidy(s) && Next(s, a).Some? && !Spoils(s, a)
    ensures Tidy(Next(s, a).value)
  {
    var s' := Next(s, a).value;
    if a.Go? && a.t in s.tasks {
      var pc := s.tasks[a.t].pc;
      assert HoldsLock(pc) ==> Holder(s) == Some(pc);
      if !HoldsLock(pc) && !pc.WantInit? && !pc.WantTerm? {
        assert s'.g == s.g && s'.lock == s.lock;
      }
    } else if a.Interrupt? && HoldsLock(s.tasks[a.t].pc) {
      assert s.tasks[a.t].pc.StoppingStore? && s'.g == s.g && Holder(s) == Some(StoppingStore);
    } else {
      assert s'.g == s.g && s'.lock == s.lock;
    }
  }

  lemma {:induction false} RunsKeepTidy(actions: seq<Action>)
    requires Execute(actions).Some? && Unspoiled(actions)
    ensures Tidy(Execute(actions).value)
  {
    if actions != [] {
      var before := actions[..|actions| - 1];
      forall k | 0 <= k < |before| && Execute(before[..k]).Some?
        ensures !Spoils(Execute(before[..k]).value, before[k]) {
        assert before[..k] == actions[..k];
      }
      RunsKeepInv(before);
      RunsKeepTidy(before);
      StepKeepsTidy(Execute(before).value, actions[|actions| - 1]);
    }
  }

  lemma TidyMatches(s: State)
    requires Inv(s) && Tidy(s) && s.lock.None?
    ensures Matches(s.g)
  {}

  lemma SpoiledDoesNotMatch(s: State, a: Action)
    requires Inv(s) && Next(s, a).Some? && Spoils(s, a)
    ensures Next(s, a).value.lock.None? && !Matches(Next(s, a).value.g)
  {
    assert Holder(s) == Some(s.tasks[a.t].pc);
  }

  lemma {:induction false} PrefixRuns(actions: seq<Action>, k: nat)
    requires Execute(actions).Some? && k <= |actions|
    ensures Execute(actions[..k]).Some?
    ensures k < |actions| ==> Execute(actions[..k + 1]) == Next(Execute(actions[..k]).value, actions[k])
    decreases |actions|
  {
    if k == |actions| {
      assert actions[..k] == actions;
    } else {
      var before := actions[..|actions| - 1];
      PrefixRuns(before, k);
      assert before[..k] == actions[..k];
      assert actions[..k + 1][..k] == actions[..k];
      if k + 1 == |actions| {
        assert actions[..k + 1] == actions;
      } else {
        assert before[..k + 1] == actions[..k + 1];
      }
    }
  }

  /** Main result: the variables match at every point of a run at which the lock is
      free, if and only if no start was cut off and no `term` while it closed the
      channel. Cutting off a `term` earlier does no harm. */
  lemma AlwaysMatchesIff(actions: seq<Action>)
    requires Execute(actions).Some?
    ensures AlwaysMatches(actions) <==> Unspoiled(actions)
  {
    if Unspoiled(actions) {
      forall k | 0 <= k <= |actions| && Execute(actions[..k]).Some? && Execute(actions[..k]).value.lock.None?
        ensures Matches(Execute(actions[..k]).value.g)
      {
        UnspoiledPrefix(actions, k);
        RunsKeepInv(actions[..k]);
        RunsKeepTidy(actions[..k]);
        TidyMatches(Execute(actions[..k]).value);
      }
    } else {
      var k :| 0 <= k < |actions| && Execute(actions[..k]).Some? && Spoils(Execute(actions[..k]).value, actions[k]);
      PrefixRuns(actions, k);
      PrefixRuns(actions, k + 1);
      RunsKeepInv(actions[..k]);
      SpoiledDoesNotMatch(Execute(actions[..k]).value, actions[k]);
      assert !Matches(Execute(actions[..k + 1]).value.g);
    }
  }

  lemma UnspoiledPrefix(actions: seq<Action>, k: nat)
    requires Unspoiled(actions) && k <= |actions|
    ensures Unspoiled(actions[..k])
  {
    forall j | 0 <= j < k && Execute(actions[..k][..j]).Some?
      ensures !Spoils(Execute(actions[..k][..j]).value, actions[..k][j]) {
      assert actions[..k][..j] == actions[..j];
    }
  }

  /** A start cut off while the store comes up: the next start overwrites the
      variables and the first channel stays open. */
  function CutOffRun(): seq<Action> {
    [Upload, Call(0, Starter), Go(0, Completes, 9), Interrupt(0), Call(1, Starter), Go(1, Completes, 9),
      Go(1, Completes, 9)]
  }

  lemma {:induction false} ExecuteSnoc(actions: seq<Action>, a: Action)
    requires Execute(actions).Some?
    ensures Execute(actions + [a]) == Next(Execute(actions).value, a)
  {
    assert (actions + [a])[..|actions|] == actions;
  }

  lemma CutOffStartLosesAChannel()
    ensures Execute(CutOffRun()).Some?
    ensures var s := Execute(CutOffRun()).value; s.lock.None? && s.g.channel == Some(1) && s.g.openChannels == {0, 1}
  {
    var run := CutOffRun();
    assert Execute(run[..0]) == Some(Initially());
    ExecuteSnoc(run[..0], run[0]);
    assert run[..1] == run[..0] + [run[0]];
    ExecuteSnoc(run[..1], run[1]);
    assert run[..2] == run[..1] + [run[1]];
    ExecuteSnoc(run[..2], run[2]);
    assert run[..3] == run[..2] + [run[2]];
    ExecuteSnoc(run[..3], run[3]);
    assert run[..4] == run[..3] + [run[3]];
    ExecuteSnoc(run[..4], run[4]);
    assert run[..5] == run[..4] + [run[4]];
    ExecuteSnoc(run[..5], run[5]);
    assert run[..6] == run[..5] + [run[5]];
    ExecuteSnoc(run[..6], run[6]);
    assert run == run[..6] + [run[6]];
  }

  // ----- replies -----

  /** Main result: a call that is answered COMPLETED leaves the runtime started
      (Start) or stopped (Stop, and the mission that ended), with the lock free; one
      that raises while starting leaves it stopped and its own channel closed. */
  lemma RepliesAreTrue(s: State, t: nat, how: Await, born: nat)
    requires Inv(s) && t in s.tasks && !Over(s.tasks[t].pc) && Next(s, Go(t, how, born)).Some?
    ensures var s' := Next(s, Go(t, how, born)).value;
      && (s'.tasks[t].pc.Answered? ==>
           s'.lock.None? && s'.tasks[t].pc.code == 2 && s'.g.started == s.tasks[t].kind.Starter?)
      && (s'.tasks[t].pc.Raising? && s.tasks[t].kind.Starter? ==>
           !s'.g.started && s'.g.openChannels == s'.g.cut && s'.g.channel.None?)
  {
    if s.tasks[t].pc.CleaningChannel? {
      HalfStartedSettles(s.g, false, born);
    }
  }

  /** A mission is there exactly from the first upload on. */
  lemma {:induction false} UploadedIff(actions: seq<Action>)
    requires Execute(actions).Some?
    ensures Execute(actions).value.uploaded <==> Upload in actions
  {
    if actions != [] {
      var before, last := actions[..|actions| - 1], actions[|actions| - 1];
      UploadedIff(before);
      OnlyUploadsUpload(Execute(before).value, last);
      assert actions == before + [last];
    }
  }

  lemma OnlyUploadsUpload(s: State, a: Action)
    requires Next(s, a).Some?
    ensures Next(s, a).value.uploaded <==> s.uploaded || a == Upload
  {}

  /** Main result: a call is answered 3, and at once, if and only if nothing was uploaded
      before it; otherwise it waits for the lock, to start or to stop as it asks. */
  lemma CallIsRefusedIff(actions: seq<Action>, t: nat, kind: Kind)
    requires Execute(actions).Some? && Next(Execute(actions).value, Call(t, kind)).Some?
    ensures var s, s' := Execute(actions).value, Next(Execute(actions).value, Call(t, kind)).value;
      && s'.g == s.g && s'.lock == s.lock && t !in s.tasks
      && s'.tasks == s.tasks[t := Task(kind, if Upload !in actions then Answered(3)
                                             else if kind.Starter? then WantInit
                                             else WantTerm)]
  {
    UploadedIff(actions);
  }

  /** The step of a Starter that ends with an answer. */
  predicate StartIsAnswered(s: State, t: nat, how: Await, born: nat) {
    && t in s.tasks && s.tasks[t].kind.Starter? && !Over(s.tasks[t].pc)
    && Next(s, Go(t, how, born)).Some? && Next(s, Go(t, how, born)).value.tasks[t].pc.Answered?
  }

  /** Main result: a Start that gets the lock is answered at once if and only if the
      runtime is started, and then nothing but that answer changes. */
  lemma StartIsIgnoredIff(s: State, t: nat, how: Await, born: nat)
    requires Inv(s) && s.lock.None? && t in s.tasks && s.tasks[t].pc.WantInit? && !how.CutOff?
    ensures Next(s, Go(t, how, born)).Some?
    ensures var s' := Next(s, Go(t, how, born)).value;
      if s.g.started
      then s'.tasks[t].pc == Answered(2) && s'.g == s.g && LiveMissions(s') == LiveMissions(s)
      else s'.tasks[t].pc == StartingStore && s'.lock == Some(t)
  {
    assert KindOk(s.tasks[t].kind, s.tasks[t].pc);
  }

  /** Main result: a Start is answered COMPLETED in one of two ways, told apart by the
      runtime being started before the step. Either it is ignored, or it brings up
      the new mission, which is then the only live one. */
  lemma AnsweredStartIsIgnoredOrLaunches(s: State, t: nat, how: Await, born: nat)
    requires Inv(s) && StartIsAnswered(s, t, how, born)
    ensures var s' := Next(s, Go(t, how, born)).value;
      && s'.tasks[t].pc == Answered(2)
      && (if s.g.started then s'.g == s.g && LiveMissions(s') == LiveMissions(s)
          else s'.g == Launched(s.g, born) && LiveMissions(s) == {} && LiveMissions(s') == {born})
  {
    if s.tasks[t].pc.WantInit? {
      StartIsIgnoredIff(s, t, how, born);
    } else {
      assert s.tasks[t].pc.StartingStore?;
      assert Holder(s) == Some(s.tasks[t].pc);
      forall u | u in s.tasks && s.tasks[u].kind.Fsm? ensures Over(s.tasks[u].pc) {
        NoneLive(s, u);
      }
    }
  }

  /** Main result: a Start answered COMPLETED leaves a mission live if and only if the
      runtime was not started before, or was and its mission is still going. */
  lemma AnsweredStartHasMissionIff(s: State, t: nat, how: Await, born: nat)
    requires Inv(s) && StartIsAnswered(s, t, how, born)
    ensures LiveMissions(Next(s, Go(t, how, born)).value) != {} <==> (s.g.started ==> FsmGoing(s))
  {
    AnsweredStartIsIgnoredOrLaunches(s, t, how, born);
    if s.g.started && FsmGoing(s) {
      assert s.g.fsm.value in LiveMissions(s);
    }
    assert s.g.started && s.tasks[t].pc.StartingStore? ==> Holder(s) == Some(StartingStore);
    assert s.g.started && LiveMissions(s) != {} ==> FsmGoing(s) by {
      if s.g.started && LiveMissions(s) != {} {
        var u :| u in LiveMissions(s);
        assert s.g.fsm == Some(u);
      }
    }
  }

  /** A mission's racer raises: the runtime stays started, and the next Start is
      ignored although no mission is live. */
  function IgnoredRun(): seq<Action> {
    [Upload, Call(0, Starter), Go(0, Completes, 9), Go(0, Completes, 9), Go(9, Fails, 0), Call(1, Starter),
      Go(1, Completes, 10)]
  }

  lemma IgnoredStartHasNoMission()
    ensures Execute(IgnoredRun()).Some?
    ensures var s := Execute(IgnoredRun()).value;
      s.g.started && s.lock.None? && LiveMissions(s) == {} && s.tasks[1] == Task(Starter, Answered(2))
  {
    var run := IgnoredRun();
    assert Execute(run[..0]) == Some(Initially());
    ExecuteSnoc(run[..0], run[0]);
    assert run[..1] == run[..0] + [run[0]];
    ExecuteSnoc(run[..1], run[1]);
    assert run[..2] == run[..1] + [run[1]];
    ExecuteSnoc(run[..2], run[2]);
    assert run[..3] == run[..2] + [run[2]];
    ExecuteSnoc(run[..3], run[3]);
    assert run[..4] == run[..3] + [run[3]];
    ExecuteSnoc(run[..4], run[4]);
    assert run[..5] == run[..4] + [run[4]];
    ExecuteSnoc(run[..5], run[5]);
    assert run[..6] == run[..5] + [run[5]];
    ExecuteSnoc(run[..6], run[6]);
    assert run == run[..6] + [run[6]];
  }

  // ----- progress -----

  ghost predicate CanGo(s: State, how: Await, born: nat, u: nat) {
    Next(s, Go(u, how, born)).Some?
  }

  /** Main result: no run gets stuck. While some task has not ended, some task can go
      on, whether the await it is at completes or raises. */
  lemma NoRunGetsStuck(actions: seq<Action>, t: nat, how: Await, born: nat)
    requires Execute(actions).Some? && t in Execute(actions).value.tasks && !Over(Execute(actions).value.tasks[t].pc)
    requires !how.CutOff? && born !in Execute(actions).value.tasks
    ensures exists u :: CanGo(Execute(actions).value, how, born, u)
  {
    RunsKeepInv(actions);
    var s := Execute(actions).value;
    var u := if s.lock.None? then t
             else if s.tasks[s.lock.value].pc.AwaitingFsm? && FsmGoing(s) then s.g.fsm.value
             else s.lock.value;
    assert CanGo(s, how, born, u);
  }

  // ----- undisturbed, the steps of one caller are the methods of `Runtime` -----

  function Await1(s: State, t: nat, how: Await, born: nat): Option<State>
    requires t in s.tasks
  {
    if how.CutOff? then Cancel(s, t) else Advance(s, t, how, born)
  }

  function Finish(s: Option<State>, t: nat, how: Await, born: nat): Option<State> {
    if s.None? || t !in s.value.tasks then None
    else if Over(s.value.tasks[t].pc) then s
    else Await1(s.value, t, how, born)
  }

  function PcOf(exit: Exit): Pc {
    if exit.Returned? then Answered(COMPLETED) else if exit.Raised? then Raising else Cancelled
  }

  /** `end` is where the method says `t` gets. */
  ghost predicate EndsAs(end: Option<State>, t: nat, run: (Globals, Exit)) {
    end.Some? && t in end.value.tasks && end.value.g == run.0 && end.value.lock.None?
      && end.value.tasks[t].pc == PcOf(run.1)
  }

  lemma FinishOver(s: State, t: nat, how: Await, born: nat)
    requires t in s.tasks && Over(s.tasks[t].pc)
    ensures Finish(Some(s), t, how, born) == Some(s)
  {}

  /** The end of `init` after the store failed to start. */
  lemma UndisturbedCleanup(s: State, t: nat, stop: Await, close: Await, born: nat)
    requires t in s.tasks && s.lock == Some(t) && s.tasks[t].pc.CleaningStore?
    ensures var run := if stop.CutOff? then (InitCut(s.g), CutShort)
                       else if close.CutOff? then (InitCut(StoreCleaned(s.g)), CutShort)
                       else (ChannelCleaned(StoreCleaned(s.g)), Raised);
            EndsAs(Finish(Finish(Some(s), t, stop, born), t, close, born), t, run)
  {
    if stop.CutOff? {
      FinishOver(Release(s, InitCut(s.g), t, Cancelled), t, close, born);
    } else {
      var s1 := s.(g := StoreCleaned(s.g), tasks := Put(s.tasks, t, CleaningChannel));
      assert Finish(Some(s), t, stop, born) == Some(s1);
    }
  }

  /** The end of `init` when the store starts, or the start is cut off. */
  lemma UndisturbedStart(s: State, t: nat, start: Await, stop: Await, close: Await, born: nat)
    requires t in s.tasks && s.lock == Some(t) && s.tasks[t].pc.StartingStore? && born !in s.tasks && !start.Fails?
    ensures var run := if start.Completes? then (Launched(s.g, born), Returned) else (InitCut(s.g), CutShort);
            EndsAs(Finish(Finish(Finish(Some(s), t, start, born), t, stop, born), t, close, born), t, run)
  {
    var end := if start.Completes? then Launch(s, t, born) else Release(s, InitCut(s.g), t, Cancelled);
    assert Finish(Some(s), t, start, born) == Some(end);
    FinishOver(end, t, stop, born);
    FinishOver(end, t, close, born);
  }

  lemma UndisturbedInit(s: State, t: nat, start: Await, stop: Await, close: Await, born: nat)
    requires Inv(s) && s.lock.None? && t in s.tasks && s.tasks[t].pc.WantInit? && born !in s.tasks
    ensures var end := Finish(Finish(Finish(Some(TakeForInit(s, t)), t, start, born), t, stop, born), t, close, born);
            EndsAs(end, t, RunInit(s.g, born, start, stop, close))
  {
    var taken := TakeForInit(s, t);
    if s.g.started {
      FinishOver(taken, t, start, born);
      FinishOver(taken, t, stop, born);
      FinishOver(taken, t, close, born);
    } else if start.Fails? {
      var s1 := taken.(tasks := Put(taken.tasks, t, CleaningStore));
      assert Finish(Some(taken), t, start, born) == Some(s1);
      UndisturbedCleanup(s1, t, stop, close, born);
    } else {
      UndisturbedStart(taken, t, start, stop, close, born);
    }
  }

  /** The end of `term`: stopping the store, if there is one, and closing the channel. */
  function CloseDown(s: Option<State>, t: nat, stop: Await, close: Await): Option<State> {
    var stopped := if s.Some? && t in s.value.tasks
        && s.value.tasks[t].pc.StoppingStore? then Finish(s, t, stop, 0) else s;
    Finish(stopped, t, close, 0)
  }

  /** Getting the state machine's task out of the way: it is cancelled and awaited. */
  function FsmAwaited(s: State, t: nat, fsmEnd: Await): Option<State>
    requires t in s.tasks
  {
    var taken := TakeForTerm(s, t);
    if taken.tasks[t].pc.AwaitingFsm? && s.g.fsm.Some?
    then Finish(Finish(Some(taken), s.g.fsm.value, fsmEnd, 0), t, Completes, 0)
    else Some(taken)
  }

  function FsmEnded(s: State, t: nat, fsmEnd: Await): State
    requires t in s.tasks && s.g.fsm.Some? && s.g.fsm.value in s.tasks
  {
    s.(lock := Some(t),
      tasks := Put(Put(s.tasks, s.g.fsm.value, if fsmEnd.Fails? then Raising else Cancelled), t, AwaitingFsm))
  }

  lemma UndisturbedFsm(s: State, t: nat, fsmEnd: Await)
    requires Inv(s) && s.lock.None? && t in s.tasks && s.tasks[t] == Task(Stopper, WantTerm)
    requires FsmGoing(s) && s.tasks[s.g.fsm.value].pc.Playing? && !fsmEnd.CutOff?
    ensures var ended := FsmEnded(s, t, fsmEnd);
      FsmAwaited(s, t, fsmEnd)
        == Some(if fsmEnd.Fails? then Release(ended, ended.g, t, Raising) else AfterFsm(ended, t))
  {
    var f, taken, ended := s.g.fsm.value, TakeForTerm(s, t), FsmEnded(s, t, fsmEnd);
    assert taken.tasks[f] == Task(s.tasks[f].kind, Unwinding);
    var unwound := taken.(tasks := Put(taken.tasks, f, if fsmEnd.Fails? then Raising else Cancelled));
    assert unwound.tasks == ended.tasks;
    assert Finish(Some(taken), f, fsmEnd, 0) == Some(ended);
  }

  lemma UndisturbedCloseDown(s: State, t: nat, stop: Await, close: Await)
    requires t in s.tasks && s.lock == Some(t) && s.g.channel.Some? && s.g.started
    ensures EndsAs(CloseDown(Some(AfterFsm(s, t)), t, stop, close), t, RunTerm(s.g, true, Completes, stop, close))
  {
    var after := AfterFsm(s, t);
    if s.g.store.Some? && !stop.CutOff? {
      assert Finish(Some(after), t, stop, 0)
             == Some(after.(g := StoreStopped(after.g), tasks := Put(after.tasks, t, ClosingChannel)));
    } else if s.g.store.None? {
      assert StoreStopped(after.g) == after.g;
    }
  }

  lemma UndisturbedRaise(s: State, t: nat, stop: Await, close: Await)
    requires t in s.tasks
    ensures EndsAs(CloseDown(Some(Release(s, s.g, t, Raising)), t, stop, close), t, (s.g, Raised))
  {}

  lemma UndisturbedTerm(s: State, t: nat, fsmEnd: Await, stop: Await, close: Await)
    requires Inv(s) && s.lock.None? && t in s.tasks && s.tasks[t] == Task(Stopper, WantTerm)
    requires FsmGoing(s) ==> s.tasks[s.g.fsm.value].pc.Playing? && !fsmEnd.CutOff?
    ensures EndsAs(CloseDown(FsmAwaited(s, t, fsmEnd), t, stop, close), t,
            RunTerm(s.g, !FsmGoing(s), fsmEnd, stop, close))
  {
    if s.g.started && FsmGoing(s) {
      UndisturbedFsm(s, t, fsmEnd);
      var ended := FsmEnded(s, t, fsmEnd);
      if fsmEnd.Fails? {
        UndisturbedRaise(ended, t, stop, close);
      } else {
        UndisturbedCloseDown(ended, t, stop, close);
        FsmEndIsIrrelevant(s.g, FsmGoing(s), fsmEnd, stop, close);
      }
    } else if s.g.started {
      UndisturbedCloseDown(s.(lock := Some(t)), t, stop, close);
      assert RunTerm(s.g, true, fsmEnd, stop, close) == RunTerm(s.g, true, Completes, stop, close);
    }
  }

  lemma FsmEndIsIrrelevant(g: Globals, going: bool, fsmEnd: Await, stop: Await, close: Await)
    requires !fsmEnd.Fails?
    ensures RunTerm(g, !going, fsmEnd, stop, close) == RunTerm(g, true, Completes, stop, close)
  {}

  /** Main result: a mission that ends by itself stops the runtime: undisturbed, it goes
      through `term` with nobody to wait for, and ends as `term` does. */
  lemma UndisturbedMissionEnd(s: State, t: nat, stop: Await, close: Await)
    requires Inv(s) && s.lock.None? && s.g.fsm == Some(t) && t in s.tasks && s.tasks[t] == Task(Fsm, Playing)
    ensures Next(s, Go(t, Completes, 0)).Some?
    ensures var ended := Next(s, Go(t, Completes, 0)).value;
      && t in ended.tasks && Next(ended, Go(t, Completes, 0)).Some?
      && EndsAs(CloseDown(Next(ended, Go(t, Completes, 0)), t, stop, close), t,
                RunTerm(s.g, true, Completes, stop, close))
  {
    var ended := s.(tasks := Put(s.tasks, t, WantTerm));
    assert Next(s, Go(t, Completes, 0)) == Some(ended);
    assert Next(ended, Go(t, Completes, 0)) == Some(AfterFsm(ended.(lock := Some(t)), t));
    UndisturbedCloseDown(ended.(lock := Some(t)), t, stop, close);
  }

  /** Main result: a cancellation never counts as an answer. It ends the task, or makes a
      playing mission unwind; it lets the lock go, if the task held it, and leaves the
      variables and all that is open as they are. */
  lemma CancellationIsNoAnswer(s: State, t: nat)
    requires Inv(s) && t in s.tasks && Next(s, Interrupt(t)).Some?
    ensures var s', pc := Next(s, Interrupt(t)).value, s.tasks[t].pc;
      && s'.tasks == s.tasks[t := s.tasks[t].(pc := if pc.Playing? then Unwinding else Cancelled)]
      && s'.lock == (if s.lock == Some(t) then None else s.lock)
      && s'.g == s.g.(cut := s'.g.cut, cutStores := s'.g.cutStores)
      && (!Starts(pc) ==> s'.g == s.g)
  {
    assert HoldsLock(s.tasks[t].pc) <==> s.lock == Some(t);
  }

  /** A mission that is cancelled while it plays has to unwind first, and may still raise. */
  lemma CancelledMissionUnwinds(s: State, t: nat, how: Await)
    requires Inv(s) && t in s.tasks && s.tasks[t] == Task(Fsm, Playing) && !how.CutOff?
    ensures Next(s, Interrupt(t)).Some?
    ensures var s' := Next(s, Interrupt(t)).value;
      && t in s'.tasks && !Over(s'.tasks[t].pc) && s'.g == s.g && LiveMissions(s') == LiveMissions(s)
      && Next(s', Go(t, how, 0)).Some?
      && Next(s', Go(t, how, 0)).value.tasks[t].pc == if how.Fails? then Raising else Cancelled
  {}

  /** A mission whose racer raises leaves the runtime as it is, with no mission going. */
  lemma RaisingMissionStopsNothing(s: State, t: nat)
    requires Inv(s) && s.g.fsm == Some(t) && t in s.tasks && s.tasks[t] == Task(Fsm, Playing)
    ensures Next(s, Go(t, Fails, 0)).Some?
    ensures var s' := Next(s, Go(t, Fails, 0)).value;
      s'.g == s.g && s.g.started && s'.lock == s.lock && !FsmGoing(s') && LiveMissions(s') == {}
  {
    OnlyMission(s, t);
  }

  /** While one mission plays, every other one is over. */
  lemma OnlyMission(s: State, t: nat)
    requires Inv(s) && s.g.fsm == Some(t) && t in s.tasks && s.tasks[t].pc.Playing?
    ensures forall u :: u in s.tasks && u != t && s.tasks[u].kind.Fsm? ==> Over(s.tasks[u].pc)
  {
    assert s.lock.Some? ==> s.lock.value in s.tasks && Holder(s) == Some(s.tasks[s.lock.value].pc);
  }

  /** A call that stops a mission cannot be cut off while it waits for it: the mission
      itself was cancelled before, and the call goes on once that has ended. */
  lemma StopOutlivesItsMission(s: State, t: nat)
    requires Inv(s) && t in s.tasks && s.tasks[t].pc.AwaitingFsm?
    ensures Next(s, Interrupt(t)).None?
    ensures s.g.fsm.Some? && s.g.fsm.value in s.tasks && OnItsWayOut(s.tasks[s.g.fsm.value].pc)
    ensures !FsmGoing(s) ==> Next(s, Go(t, Completes, 0)).Some?
  {
    assert Holder(s) == Some(s.tasks[t].pc);
  }
}
