/** What the identity of the authority's own commands does to their results: without
    one, every batch fails and no law is ever entered. */
module LawIdentity {
  import opened Wrappers
  import opened Laws
  import opened Admission
  import opened LawProtocol
  import opened LawSafety
  import opened LawProgress
  import opened LawTheorems

  // ----- one result -----

  /** The interceptor starts a command just as it decides on it: what it refuses is
      rejected, what it lets through unseen is served, and only the rest is checked. */
  lemma EntryIsTheDecision(s: Setup, state: Option<string>, identity: string, call: Call, replies: nat -> Reply)
    requires BASE in s.book && (state.Some? ==> state.value in s.book)
    ensures var (after, decision) := Intercept(s, state, identity, call, replies);
            && (PcFor(identity, call).Rejected? ==> decision == Refused && after == state)
            && (PcFor(identity, call).Serving? ==> decision == Reached && after == state)
            && (PcFor(identity, call) == Arrived(call) <==> identity !in {"", "authority"})
            && (PcFor(identity, call).Rejected? <==> identity == "")
  {
    WhoIsRefused(s, state, identity, call, replies);
  }

  /** The interceptor sees a command by its sender and its method, without the payload. */
  lemma NestedCallName(s: Setup, method_: string, payload: string)
    requires '|' !in method_
    ensures NestedCall(s, method_).name == s.sender + "." + method_
    ensures NestedCall(s, method_ + "|" + payload).name == s.sender + "." + method_
  {
    SplitWithout(method_, '|');
    SplitAt(method_, payload, '|');
  }

  /** The result that a step of a batch takes in. */
  predicate TakesIn(e: Effect, reply: Reply) {
    e.events != [] && (e.events[0].Sent? || e.events[0].Startup?) && e.events[0].source == Answered(reply)
  }

  /** A result is that of the command's own coroutine, once it has ended: a refusal if it
      was rejected, an error if it crashed, and what its handler answered otherwise. */
  lemma ResultIsTheCommands(s: Setup, state: State, t: nat, answer: Reply, reply: Reply)
    requires BASE in s.book && t in state.tasks
    requires var e := Advance(s, t, state.tasks[t], state.shared, EnvOf(state, t, answer));
             e.Some? && TakesIn(e.value, reply)
    ensures var child := ChildOf(state.tasks[t]);
            && child.Some? && child.value in state.tasks && Ended(state.tasks[child.value])
            && (state.tasks[child.value].Rejected? ==> reply == RpcError(7))
            && (state.tasks[child.value].Crashed? ==> reply.RpcError?)
            && (state.tasks[child.value].Finished? ==> reply == answer)
  {
    var env := EnvOf(state, t, answer);
    var b := BatchOf(state.tasks[t]);
    if b.Some? && b.value.Ok() && !b.value.Done() {
      TakenIn(s, b.value, env);
    }
  }

  lemma TakenIn(s: Setup, b: Batch, env: Env)
    requires b.Ok() && !b.Done() && BatchStep(s, b, env).Some?
    ensures var sent := BatchStep(s, b, env).value.sent;
            sent.Some? && sent.value.1.Answered? ==>
              && b.phase.Waiting? && env.child.Some? && Ended(env.child.value)
              && sent.value.1.reply == NestedReply(env.child.value, env.answer)
  {}

  // ----- without an identity -----

  ghost predicate ChildrenRejected(tasks: map<nat, Pc>) {
    forall t :: t in tasks && ChildOf(tasks[t]).Some? ==>
      ChildOf(tasks[t]).value in tasks && tasks[ChildOf(tasks[t]).value].Rejected?
  }

  ghost predicate IsRefusal(e: Event) {
    (e.Sent? || e.Startup?) && e.source.Answered? ==> e.source == Answered(RpcError(7))
  }

  ghost predicate OnlyRefusals(log: seq<Event>) {
    forall i :: 0 <= i < |log| ==> IsRefusal(log[i])
  }

  lemma StepsReject(s: Setup, t: nat, pc: Pc, sh: Shared, env: Env)
    requires BASE in s.book && s.sender == "" && Advance(s, t, pc, sh, env).Some?
    ensures var e := Advance(s, t, pc, sh, env).value;
            && (ChildOf(e.pc).Some? ==> ChildOf(e.pc).value == env.next && e.spawn.Some?)
            && (e.spawn.Some? ==> e.spawn.value.Rejected?)
            && !pc.Rejected?
  {}

  lemma RejectedAfter(tasks: map<nat, Pc>, t: nat, pc: Pc)
    requires ChildrenRejected(tasks) && (t in tasks ==> !tasks[t].Rejected?)
    requires ChildOf(pc).Some? ==>
      ChildOf(pc).value != t && ChildOf(pc).value in tasks && tasks[ChildOf(pc).value].Rejected?
    ensures ChildrenRejected(tasks[t := pc])
  {}

  lemma StepKeepsRejected(s: Setup, state: State, t: nat, answer: Reply)
    requires BASE in s.book && s.sender == "" && NumbersOk(state.tasks, state.next, state.log)
    requires ChildrenRejected(state.tasks) && t in state.tasks
    ensures var e := Advance(s, t, state.tasks[t], state.shared, EnvOf(state, t, answer));
            e.Some? ==> ChildrenRejected(Apply(state, t, e.value).tasks)
  {
    var env := EnvOf(state, t, answer);
    var e := Advance(s, t, state.tasks[t], state.shared, env);
    if e.Some? {
      StepsReject(s, t, state.tasks[t], state.shared, env);
      if e.value.spawn.Some? {
        RejectedAfter(state.tasks, state.next, e.value.spawn.value);
        RejectedAfter(state.tasks[state.next := e.value.spawn.value], t, e.value.pc);
        assert state.tasks[state.next := e.value.spawn.value][t := e.value.pc]
            == state.tasks[t := e.value.pc][state.next := e.value.spawn.value];
      } else {
        RejectedAfter(state.tasks, t, e.value.pc);
      }
    }
  }

  /** At most the first event of a step is a result. */
  lemma ResultsComeFirst(s: Setup, t: nat, pc: Pc, sh: Shared, env: Env)
    requires BASE in s.book && Advance(s, t, pc, sh, env).Some?
    ensures var es := Advance(s, t, pc, sh, env).value.events;
            forall i :: 1 <= i < |es| ==> !es[i].Sent? && !es[i].Startup?
  {}

  lemma StepKeepsRefusals(s: Setup, state: State, t: nat, answer: Reply)
    requires BASE in s.book && s.sender == "" && ChildrenRejected(state.tasks) && OnlyRefusals(state.log)
    requires t in state.tasks
    ensures var e := Advance(s, t, state.tasks[t], state.shared, EnvOf(state, t, answer));
            e.Some? ==> OnlyRefusals(Apply(state, t, e.value).log)
  {
    var e := Advance(s, t, state.tasks[t], state.shared, EnvOf(state, t, answer));
    if e.Some? {
      ResultsComeFirst(s, t, state.tasks[t], state.shared, EnvOf(state, t, answer));
      var es := e.value.events;
      if es != [] && (es[0].Sent? || es[0].Startup?) && es[0].source.Answered? {
        ResultIsTheCommands(s, state, t, answer, es[0].source.reply);
      }
      forall i | 0 <= i < |es| ensures IsRefusal(es[i]) {}
    }
  }

  lemma NextKeepsRefusals(s: Setup, state: State, a: Action)
    requires BASE in s.book && s.sender == "" && NumbersOk(state.tasks, state.next, state.log)
    requires ChildrenRejected(state.tasks) && OnlyRefusals(state.log) && Next(s, state, a).Some?
    ensures ChildrenRejected(Next(s, state, a).value.tasks) && OnlyRefusals(Next(s, state, a).value.log)
  {
    match a
    case Spawn(pc) => RejectedAfter(state.tasks, state.next, pc);
    case Step(t, answer) =>
      StepKeepsRejected(s, state, t, answer);
      StepKeepsRefusals(s, state, t, answer);
    case Interrupt(t) => RejectedAfter(state.tasks, t, Crashed);
  }

  lemma {:induction false} RunsKeepRefusals(s: Setup, table: Table, actions: seq<Action>)
    requires BASE in s.book && s.sender == "" && Execute(s, table, actions).Some?
    ensures ChildrenRejected(Execute(s, table, actions).value.tasks)
    ensures OnlyRefusals(Execute(s, table, actions).value.log)
  {
    if actions != [] {
      var before := actions[..|actions| - 1];
      RunsKeepRefusals(s, table, before);
      RunsKeepInv(s, table, before);
      NextKeepsRefusals(s, Execute(s, table, before).value, actions[|actions| - 1]);
    }
  }

  lemma {:induction false} LastResult(log: seq<Event>, i: nat, t: nat, since: nat) returns (j: nat)
    requires i <= |log| && SentSince(log[..i], t, since) != []
    ensures since <= j < i && log[j].Sent? && log[j].task == t
    decreases i
  {
    j := i - 1;
    if !(log[j].Sent? && log[j].task == t) {
      assert log[..i][..j] == log[..j];
      j := LastResult(log, j, t, since);
    }
  }

  /** A law with enter commands is never committed. */
  lemma OnlyEmptyBatchesCommit(s: Setup, log: seq<Event>, i: nat)
    requires BASE in s.book && LogInOrder(s, log) && OnlyRefusals(log) && i < |log| && log[i].Committed?
    ensures log[i].law in s.book && s.book[log[i].law].enter == []
  {
    CommitsAreSerial(s, log, i);
    NothingCompleted(s, log, i);
  }

  lemma NothingCompleted(s: Setup, log: seq<Event>, i: nat)
    requires OnlyRefusals(log) && i < |log| && log[i].Committed? && CommitIsSerial(s, log, i)
    ensures s.book[log[i].law].enter == []
  {
    NothingZipped(s.book[log[i].law].enter);
    if SentSince(log[..i], log[i].task, log[i].since) != [] {
      var j := LastResult(log, i, log[i].task, log[i].since);
    }
  }

  lemma NothingZipped(cmds: seq<string>)
    ensures Zip(cmds, seq(|cmds|, _ => COMPLETED)) == [] ==> cmds == []
  {
    assert |Zip(cmds, seq(|cmds|, _ => COMPLETED))| == |cmds|;
  }

  lemma {:induction false} SomeLawSomeCommit(log: seq<Event>) returns (j: nat)
    requires LawAt(log).Some?
    ensures j < |log| && log[j].Committed?
  {
    j := |log| - 1;
    if !log[j].Committed? {
      j := SomeLawSomeCommit(log[..|log| - 1]);
    }
  }

  /** The first law can only be the base law, at the start. */
  lemma {:induction false} NoCommitAtAll(s: Setup, log: seq<Event>, i: nat)
    requires BASE in s.book && LogInOrder(s, log) && OnlyRefusals(log) && s.book[BASE].enter != [] && i < |log|
    ensures !log[i].Committed?
    decreases i
  {
    if log[i].Committed? {
      OnlyEmptyBatchesCommit(s, log, i);
      assert InOrder(s, log[..i], log[i]);
      var m := log[i].origin.matchedAt;
      var j := SomeLawSomeCommit(log[..i][..m]);
      assert log[..i][..m][j] == log[j];
      NoCommitAtAll(s, log, j);
    }
  }

  /** Main result: so the authority's commands need the identity they carry. Without any
      they are all refused, and if the base law has an enter command no law is ever in
      force, in any run. */
  lemma NoIdentityNoLaw(s: Setup, table: Table, actions: seq<Action>)
    requires BASE in s.book && s.book[BASE].enter != [] && s.sender == "" && Execute(s, table, actions).Some?
    ensures Execute(s, table, actions).value.shared.law == None
    ensures forall i :: 0 <= i < |Execute(s, table, actions).value.log| ==>
              var e := Execute(s, table, actions).value.log[i];
              e.Sent? || e.Startup? ==> StatusFrom(e.source) == if s.known(e.cmd) then 9 else 5
  {
    RunsAreInOrder(s, table, actions);
    RunsKeepRefusals(s, table, actions);
    var log := Execute(s, table, actions).value.log;
    if LawAt(log).Some? {
      var j := SomeLawSomeCommit(log);
      NoCommitAtAll(s, log, j);
    }
    forall i | 0 <= i < |log| && (log[i].Sent? || log[i].Startup?)
      ensures StatusFrom(log[i].source) == if s.known(log[i].cmd) then 9 else 5
    {
      assert InOrder(s, log[..i], log[i]) && IsRefusal(log[i]);
    }
  }
}
