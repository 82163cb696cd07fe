/** The mission runtime: a channel, a store and a task for the mission's state machine,
    kept in module-level variables that `init` sets and `term` clears under a lock,
    and the service whose calls drive them. */
module Runtime {
  import opened Wrappers

  /** How an await of this code ends: normally, with an exception, or because the
      awaiting task was cancelled, which `except Exception` does not catch. */
  datatype Await = Completes | Fails | CutOff

  /** How a call ends. */
  datatype Exit = Returned | Raised | CutShort

  /** The module's variables and, for the record, the resources in the world: every
      channel and store has a number, and `cut` and `cutStores` are the ones whose
      `init` was cut off. */
  datatype Globals = Globals(
    channel: Option<nat>,
    store: Option<nat>,
    fsm: Option<nat>,
    started: bool,
    made: nat,
    openChannels: set<nat>,
    runningStores: set<nat>,
    cut: set<nat>,
    cutStores: set<nat>)

  function Held(o: Option<nat>): set<nat> {
    if o.None? then {} else {o.value}
  }

  function Unused(): Globals {
    Globals(None, None, None, false, 0, {}, {}, {}, {})
  }

  // ----- the stretches between awaits -----

  function Opened(g: Globals): Globals {
    g.(channel := Some(g.made), store := Some(g.made), made := g.made + 1,
       openChannels := g.openChannels + {g.made}, runningStores := g.runningStores + {g.made})
  }

  function Launched(g: Globals, task: nat): Globals {
    g.(fsm := Some(task), started := true)
  }

  function StoreCleaned(g: Globals): Globals {
    g.(runningStores := g.runningStores - Held(g.store))
  }

  function ChannelCleaned(g: Globals): Globals {
    g.(openChannels := g.openChannels - Held(g.channel), channel := None, store := None, fsm := None, started := false)
  }

  /** `init` is cut off: the variables stay as they are. */
  function InitCut(g: Globals): Globals {
    g.(cut := g.cut + Held(g.channel), cutStores := g.cutStores + Held(g.store) * g.runningStores)
  }

  function FsmDropped(g: Globals): Globals {
    g.(fsm := None)
  }

  function StoreStopped(g: Globals): Globals {
    g.(runningStores := g.runningStores - Held(g.store), store := None)
  }

  function ChannelClosed(g: Globals): Globals {
    g.(openChannels := g.openChannels - Held(g.channel), channel := None, started := false)
  }

  // ----- `init` and `term` from end to end -----

  function RunInit(g: Globals, task: nat, start: Await, stop: Await, close: Await): (Globals, Exit) {
    if g.started then (g, Returned)
    else
      var up := Opened(g);
      if start.Completes? then (Launched(up, task), Returned)
      else if start.CutOff? || stop.CutOff? then (InitCut(up), CutShort)
      else if close.CutOff? then (InitCut(StoreCleaned(up)), CutShort)
      else (ChannelCleaned(StoreCleaned(up)), Raised)
  }

  /** `fsm` says how the state machine's task ends if it has to be cancelled. */
  function RunTerm(g: Globals, fsmDone: bool, fsm: Await, stop: Await, close: Await): (Globals, Exit) {
    if !g.started then (g, Returned)
    else if g.fsm.Some? && !fsmDone && fsm.Fails? then (g, Raised)
    else
      var dropped := FsmDropped(g);
      if dropped.store.Some? && stop.CutOff? then (dropped, CutShort)
      else if dropped.channel.Some? && close.CutOff? then (StoreStopped(dropped), CutShort)
      else (ChannelClosed(StoreStopped(dropped)), Returned)
  }

  // ----- when nobody holds the lock -----

  /** What is open is what an `init` that was cut off left behind and, while the
      runtime is started, the resources in its variables. */
  ghost predicate Settled(g: Globals) {
    && (forall n :: n in g.openChannels || n in g.runningStores || n in g.cut ==> n < g.made)
    && g.openChannels == g.cut + (if g.started then Held(g.channel) else {})
    && g.runningStores == g.cutStores + (if g.started then Held(g.store) else {})
    && g.cutStores <= g.cut
    && (g.started ==> g.channel.Some? && g.channel.value !in g.cut)
    && (g.started && g.store.Some? ==> g.store == g.channel)
    && (!g.started ==> g.fsm.None?)
  }

  /** A start that fails leaves nothing behind; one that is cut off loses exactly
      its own channel. */
  lemma InitSettles(g: Globals, task: nat, start: Await, stop: Await, close: Await)
    requires Settled(g)
    ensures var (h, exit) := RunInit(g, task, start, stop, close);
      && Settled(h)
      && h.started == exit.Returned?
      && (exit.Returned? ==> h.openChannels == h.cut + Held(h.channel) && h.cut == g.cut)
      && (exit.Raised? ==> h.openChannels == g.openChannels && h.runningStores == g.runningStores
                           && h.channel.None? && h.store.None? && h.cut == g.cut)
      && (exit.CutShort? ==>
           h.openChannels == g.openChannels + {g.made} && h.cut == g.cut + {g.made} && g.made !in g.cut)
  {}

  /** After a `term` that returns, only what was lost before is open. One that raises
      or is cut off leaves the runtime started, so that it can be called again. */
  lemma TermSettles(g: Globals, fsmDone: bool, fsm: Await, stop: Await, close: Await)
    requires Settled(g)
    ensures var (h, exit) := RunTerm(g, fsmDone, fsm, stop, close);
      && Settled(h) && h.cut == g.cut
      && (exit.Returned? ==> !h.started && h.openChannels == g.cut && h.runningStores == g.cutStores)
      && (!exit.Returned? ==> h.started && h.channel == g.channel && h.openChannels == g.openChannels)
  {}

  /** How `init` ends and what it leaves, for every way its awaits can end: it returns if
      the runtime was started, which changes nothing, or the store starts; it is cut
      short by the first await that is; and it raises only after it has cleaned up. A
      cut that comes after the store was stopped loses the channel alone. */
  lemma InitEnds(g: Globals, task: nat, start: Await, stop: Await, close: Await)
    requires Settled(g)
    ensures var (h, exit) := RunInit(g, task, start, stop, close);
      && (exit.Returned? <==> g.started || start.Completes?)
      && (exit.CutShort? <==> !g.started && (start.CutOff? || (start.Fails? && (stop.CutOff? || close.CutOff?))))
      && (g.started ==> h == g)
      && (!g.started && exit.Returned? ==>
           h == Globals(Some(g.made), Some(g.made), Some(task), true, g.made + 1, g.openChannels + {g.made},
                        g.runningStores + {g.made}, g.cut, g.cutStores))
      && (exit.Raised? ==> h == g.(channel := None, store := None, made := g.made + 1))
      && (exit.CutShort? ==>
           var leaked := if start.CutOff? || stop.CutOff? then {g.made} else {};
           h == Globals(Some(g.made), Some(g.made), None, false, g.made + 1, g.openChannels + {g.made},
                        g.runningStores + leaked, g.cut + {g.made}, g.cutStores + leaked))
  {}

  /** How `term` ends and what it leaves: it returns at once if the runtime is not started;
      it raises, and changes nothing, if the mission it has to stop ends with an
      exception; and it is cut short at the store or at the channel. */
  lemma TermEnds(g: Globals, fsmDone: bool, fsm: Await, stop: Await, close: Await)
    requires Settled(g)
    ensures var (h, exit) := RunTerm(g, fsmDone, fsm, stop, close);
      && (exit.Raised? <==> g.started && g.fsm.Some? && !fsmDone && fsm.Fails?)
      && (exit.CutShort? <==> g.started && !exit.Raised? && ((g.store.Some? && stop.CutOff?) || close.CutOff?))
      && (exit.Raised? || !g.started ==> h == g)
      && (exit.CutShort? ==> h == if g.store.Some? && stop.CutOff? then g.(fsm := None) else g.(fsm := None,
           store := None, runningStores := g.cutStores))
      && (g.started && exit.Returned? ==>
           h == g.(channel := None, store := None, fsm := None, started := false, openChannels := g.cut,
                   runningStores := g.cutStores))
  {}

  // ----- the same, over variables -----

  class Module {
    var channel: Option<nat>
    var store: Option<nat>
    var fsm: Option<nat>
    var started: bool
    var made: nat
    ghost var openChannels: set<nat>
    ghost var runningStores: set<nat>
    ghost var cut: set<nat>
    ghost var cutStores: set<nat>

    constructor ()
      ensures View() == Unused()
    {
      channel, store, fsm, started, made := None, None, None, false, 0;
      openChannels, runningStores, cut, cutStores := {}, {}, {}, {};
    }

    ghost function View(): Globals
      reads this
    {
      Globals(channel, store, fsm, started, made, openChannels, runningStores, cut, cutStores)
    }

    method Open()
      modifies this
      ensures View() == Opened(old(View()))
    {
      channel, openChannels := Some(made), openChannels + {made};
      store, runningStores := Some(made), runningStores + {made};
      made := made + 1;
    }

    ghost method RecordCut()
      modifies this
      ensures View() == InitCut(old(View()))
    {
      cut, cutStores := cut + Held(channel), cutStores + Held(store) * runningStores;
    }

    method StopStore()
      modifies this
      ensures View() == StoreCleaned(old(View()))
    {
      runningStores := runningStores - Held(store);
    }

    method CloseChannel()
      modifies this
      ensures View() == old(View()).(openChannels := old(View()).openChannels - Held(old(View()).channel))
    {
      openChannels := openChannels - Held(channel);
    }

    method Init(task: nat, start: Await, stop: Await, close: Await) returns (exit: Exit)
      modifies this
      ensures (View(), exit) == RunInit(old(View()), task, start, stop, close)
    {
      if started {
        return Returned;
      }
      Open();
      if start.CutOff? {
        RecordCut();
        return CutShort;
      }
      if start.Completes? {
        fsm := Some(task);
        started := true;
        return Returned;
      }
      if store.Some? {
        if stop.CutOff? {
          RecordCut();
          return CutShort;
        }
        StopStore();
      }
      if channel.Some? {
        if close.CutOff? {
          RecordCut();
          return CutShort;
        }
        CloseChannel();
      }
      channel, store, fsm := None, None, None;
      started := false;
      exit := Raised;
    }

    /** Stop the store, unless there is none; the variable is cleared either way. */
    method TermStore()
      modifies this
      ensures View() == StoreStopped(old(View()))
    {
      if store.Some? {
        StopStore();
      }
      store := None;
      assert runningStores == old(runningStores) - Held(old(store));
    }

    method TermChannel()
      modifies this
      ensures View() == ChannelClosed(old(View()))
    {
      if channel.Some? {
        CloseChannel();
      }
      channel := None;
      started := false;
      assert openChannels == old(openChannels) - Held(old(channel));
    }

    method Term(fsmDone: bool, fsmEnd: Await, stop: Await, close: Await) returns (exit: Exit)
      modifies this
      ensures (View(), exit) == RunTerm(old(View()), fsmDone, fsmEnd, stop, close)
    {
      if !started {
        return Returned;
      }
      if fsm.Some? && !fsmDone && fsmEnd.Fails? {
        return Raised;
      }
      fsm := None;
      if store.Some? && stop.CutOff? {
        return CutShort;
      }
      TermStore();
      if channel.Some? && close.CutOff? {
        return CutShort;
      }
      TermChannel();
      exit := Returned;
    }
  }

  /** Reply of a service call; none when the call raised or was cancelled. */
  datatype Reply = Status(code: int) | NoReply(exit: Exit)

  const COMPLETED := 2
  const FAILED := 3

  /** Start never finds a mission running: `fsm_routine`, which it asks, is never set,
      so it leaves the question to `init`. */
  class MissionService<Mission, Map> {
    var mission: Option<Mission>
    var missionMap: Option<Map>
    const runtime: Module

    constructor (runtime: Module)
      ensures this.runtime == runtime && mission == None && missionMap == None
    {
      this.runtime, mission, missionMap := runtime, None, None;
    }

    /** Content that does not parse leaves the last mission in place. */
    method Upload(content: Option<Mission>, map_: Map) returns (reply: Reply)
      modifies this
      ensures content.Some? ==> mission == content && missionMap == Some(map_) && reply == Status(2)
      ensures content.None? ==> mission == old(mission) && missionMap == old(missionMap) && reply == NoReply(Raised)
    {
      if content.None? {
        return NoReply(Raised);
      }
      mission := content;
      missionMap := Some(map_);
      reply := Status(COMPLETED);
    }

    method Start(task: nat, start: Await, stop: Await, close: Await) returns (reply: Reply)
      modifies runtime
      ensures mission.None? ==> reply == Status(3) && runtime.View() == old(runtime.View())
      ensures mission.Some? ==>
        var (after, exit) := RunInit(old(runtime.View()), task, start, stop, close);
        runtime.View() == after && reply == if exit.Returned? then Status(2) else NoReply(exit)
    {
      if mission.None? {
        return Status(FAILED);
      }
      var exit := runtime.Init(task, start, stop, close);
      reply := if exit.Returned? then Status(COMPLETED) else NoReply(exit);
    }

    method Stop(fsmDone: bool, fsmEnd: Await, stop: Await, close: Await) returns (reply: Reply)
      modifies runtime
      ensures mission.None? ==> reply == Status(3) && runtime.View() == old(runtime.View())
      ensures mission.Some? ==>
        var (after, exit) := RunTerm(old(runtime.View()), fsmDone, fsmEnd, stop, close);
        runtime.View() == after && reply == if exit.Returned? then Status(2) else NoReply(exit)
    {
      if mission.None? {
        return Status(FAILED);
      }
      var exit := runtime.Term(fsmDone, fsmEnd, stop, close);
      reply := if exit.Returned? then Status(COMPLETED) else NoReply(exit);
    }
  }
}
