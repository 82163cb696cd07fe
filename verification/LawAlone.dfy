/** A call that nothing interrupts or overlaps: the steps of its coroutine come to
    what `Admission.Intercept` says, and so to what the class does. */
module LawAlone {
  import opened Wrappers
  import opened Laws
  import opened Admission
  import opened LawProtocol

  /** What a handler answers: `replies` numbers the commands of the batch. */
  function Answer(pc: Pc, replies: nat -> Reply): Reply {
    replies(if BatchOf(pc).Some? then |BatchOf(pc).value.results| else 0)
  }

  /** Who goes on: the command that `t` waits for, or `t` itself. */
  function Who(state: State, t: nat): nat
    requires t in state.tasks
  {
    var child := ChildOf(state.tasks[t]);
    if child.Some? && child.value in state.tasks && !Ended(state.tasks[child.value]) then child.value else t
  }

  /** One step of coroutine `t`, or of the command it waits for. */
  function SoloStep(s: Setup, state: State, t: nat, replies: nat -> Reply): Option<State>
    requires BASE in s.book
  {
    if t !in state.tasks then None
    else LawProtocol.Next(s, state, Step(Who(state, t), Answer(state.tasks[t], replies)))
  }

  type Mover = State -> Option<State>

  /** `n` steps in a row. */
  function Iterate(step: Mover, state: State, n: nat): Option<State>
    decreases n
  {
    if n == 0 then Some(state)
    else if step(state).None? then None
    else Iterate(step, step(state).value, n - 1)
  }

  lemma {:induction false} IterateAdd(step: Mover, state: State, m: nat, n: nat)
    requires Iterate(step, state, m).Some?
    ensures Iterate(step, state, m + n) == Iterate(step, Iterate(step, state, m).value, n)
    decreases m
  {
    if m > 0 {
      IterateAdd(step, step(state).value, m - 1, n);
    }
  }

  /** `step` makes the steps of `t`. The trigger keeps proofs from looking into steps
      they do not make. */
  ghost predicate IsSolo(step: Mover, s: Setup, t: nat, replies: nat -> Reply)
    requires BASE in s.book
  {
    forall st {:trigger SoloStep(s, st, t, replies)} :: step(st) == SoloStep(s, st, t, replies)
  }

  /** The steps of `t` and the commands it sends, with nothing in between. */
  function Solo(s: Setup, t: nat, replies: nat -> Reply): Mover
    requires BASE in s.book
  {
    st => SoloStep(s, st, t, replies)
  }

  ghost predicate Numbered(state: State) {
    forall u :: u in state.tasks ==> u < state.next
  }

  /** One step of whoever goes on, with its effect. */
  lemma OneStep(step: Mover, s: Setup, state: State, t: nat, replies: nat -> Reply, w: nat, e: Effect)
    requires BASE in s.book && IsSolo(step, s, t, replies) && t in state.tasks && w == Who(state, t)
    requires Advance(s, w, state.tasks[w], state.shared, EnvOf(state, w, Answer(state.tasks[t], replies))) == Some(e)
    ensures Iterate(step, state, 1) == Some(Apply(state, w, e))
    ensures Numbered(state) ==> Numbered(Apply(state, w, e))
  {
    assert step(state) == SoloStep(s, state, t, replies) == Some(Apply(state, w, e));
    assert Iterate(step, Apply(state, w, e), 0) == Some(Apply(state, w, e));
  }

  // ----- the batch -----

  /** The batch with the first `k` results in. */
  function BatchAt(s: Setup, cmds: seq<string>, replies: nat -> Reply, k: nat): Batch
    requires k <= |cmds|
  {
    Batch(cmds, Results(s.known, cmds, replies)[..k], Ready)
  }

  /** The coroutine `host` with its batch replaced. */
  function With(host: Pc, b: Batch): Pc
    requires BatchOf(host).Some?
  {
    host.(batch := b)
  }

  function ResultEvents(host: Pc, t: nat, sent: Option<(string, Source)>): seq<Event> {
    if sent.None? then []
    else if host.Starting? then [Startup(t, sent.value.0, sent.value.1)]
    else [Sent(t, sent.value.0, sent.value.1)]
  }

  /** A step of a batch is the step of the coroutine that sends it. */
  lemma BatchAdvances(s: Setup, t: nat, host: Pc, b: Batch, sh: Shared, env: Env)
    requires BASE in s.book && BatchOf(host).Some? && b.Ok() && !b.Done() && BatchStep(s, b, env).Some?
    ensures var next := BatchStep(s, b, env).value;
            Advance(s, t, With(host, b), sh, env)
              == Some(Effect(With(host, next.batch), sh, ResultEvents(host, t, next.sent), next.spawn))
  {}

  /** `t` has the first `k` results of `cmds`. */
  ghost predicate SendsAt(s: Setup, state: State, t: nat, host: Pc, cmds: seq<string>, replies: nat -> Reply, k: nat) {
    && BatchOf(host).Some? && k <= |cmds| && Numbered(state)
    && t in state.tasks && state.tasks[t] == With(host, BatchAt(s, cmds, replies, k))
  }

  ghost predicate EntersAt(s: Setup, state: State, t: nat, o: Origin, law: string, since: nat, replies: nat -> Reply,
                           k: nat) {
    law in s.book && SendsAt(s, state, t, Entering(o, law, since, NoBatch()), s.book[law].enter, replies, k)
  }

  function NoBatch(): Batch { Batch([], [], Ready) }

  /** `t` sends a command whose handler starts at once. */
  lemma Sends(step: Mover, s: Setup, state: State, t: nat, host: Pc, b: Batch, replies: nat -> Reply)
    requires BASE in s.book && IsSolo(step, s, t, replies) && s.sender == AUTHORITY && Numbered(state)
    requires t in state.tasks && BatchOf(host).Some?
    requires state.tasks[t] == With(host, b) && b.Ok() && !b.Done() && b.phase.Ready?
    requires s.known(b.cmds[|b.results|])
    ensures Iterate(step, state, 1).Some?
    ensures var end := Iterate(step, state, 1).value;
      && end.shared == state.shared && Numbered(end) && state.next in end.tasks && end.tasks[state.next].Serving?
           && t < state.next
      && t in end.tasks && end.tasks[t] == With(host, b.(phase := Waiting(state.next)))
  {
    BatchAdvances(s, t, host, b, state.shared, EnvOf(state, t, Answer(state.tasks[t], replies)));
    OneStep(step, s, state, t, replies, t,
            Effect(With(host, b.(phase := Waiting(state.next))), state.shared, [], Some(Serving)));
  }

  /** The handler of the command ends. */
  lemma Serves(step: Mover, s: Setup, state: State, t: nat, c: nat, host: Pc, b: Batch, replies: nat -> Reply)
    requires BASE in s.book && IsSolo(step, s, t, replies) && Numbered(state) && t in state.tasks && c in state.tasks
    requires c != t && state.tasks[c].Serving? && BatchOf(host).Some?
    requires state.tasks[t] == With(host, b) && b.phase == Waiting(c)
    ensures Iterate(step, state, 1).Some?
    ensures var end := Iterate(step, state, 1).value;
      && end.shared == state.shared && Numbered(end) && c in end.tasks && end.tasks[c].Finished?
      && t in end.tasks && end.tasks[t] == state.tasks[t]
  {
    OneStep(step, s, state, t, replies, c, Effect(Finished, state.shared, []));
  }

  /** `t` takes in the result. */
  lemma Takes(step: Mover, s: Setup, state: State, t: nat, c: nat, host: Pc, b: Batch, replies: nat -> Reply)
    requires BASE in s.book && IsSolo(step, s, t, replies) && Numbered(state) && t in state.tasks && c in state.tasks
    requires state.tasks[c].Finished? && BatchOf(host).Some?
    requires state.tasks[t] == With(host, b) && b.Ok() && !b.Done() && b.phase == Waiting(c)
    ensures Iterate(step, state, 1).Some?
    ensures var end := Iterate(step, state, 1).value;
      && end.shared == state.shared && Numbered(end) && t in end.tasks
      && end.tasks[t] == With(host, b.(results := b.results + [StatusOf(replies(|b.results|))], phase := Ready))
  {
    var reply := replies(|b.results|);
    BatchAdvances(s, t, host, b, state.shared, EnvOf(state, t, Answer(state.tasks[t], replies)));
    OneStep(step, s, state, t, replies, t,
            Effect(With(host, b.(results := b.results + [StatusOf(reply)], phase := Ready)), state.shared,
                   ResultEvents(host, t, Some((b.cmds[|b.results|], Answered(reply))))));
  }

  /** A command with an unknown name is not sent at all. */
  lemma Skips(step: Mover, s: Setup, state: State, t: nat, host: Pc, b: Batch, replies: nat -> Reply)
    requires BASE in s.book && IsSolo(step, s, t, replies) && Numbered(state) && t in state.tasks
    requires BatchOf(host).Some?
    requires state.tasks[t] == With(host, b) && b.Ok() && !b.Done() && b.phase.Ready?
    requires !s.known(b.cmds[|b.results|])
    ensures Iterate(step, state, 1).Some?
    ensures var end := Iterate(step, state, 1).value;
      && end.shared == state.shared && Numbered(end) && t in end.tasks
      && end.tasks[t] == With(host, b.(results := b.results + [UNKNOWN]))
  {
    BatchAdvances(s, t, host, b, state.shared, EnvOf(state, t, Answer(state.tasks[t], replies)));
    OneStep(step, s, state, t, replies, t,
            Effect(With(host, b.(results := b.results + [UNKNOWN])), state.shared,
                   ResultEvents(host, t, Some((b.cmds[|b.results|], Missing)))));
  }

  /** Sending one command and taking in its result. */
  lemma OneCommand(step: Mover, s: Setup, state: State, t: nat, host: Pc, cmds: seq<string>, replies: nat -> Reply,
                   k: nat)
    returns (n: nat)
    requires BASE in s.book && IsSolo(step, s, t, replies) && s.sender == AUTHORITY
    requires SendsAt(s, state, t, host, cmds, replies, k) && k < |cmds|
    ensures Iterate(step, state, n).Some?
    ensures var end := Iterate(step, state, n).value;
      end.shared == state.shared && SendsAt(s, end, t, host, cmds, replies, k + 1)
  {
    var b, b' := BatchAt(s, cmds, replies, k), BatchAt(s, cmds, replies, k + 1);
    assert b'.results == b.results + [ResultOf(s.known, cmds[k], replies(k))];
    if s.known(cmds[k]) {
      n := SentAndTaken(step, s, state, t, host, b, replies);
    } else {
      n := 1;
      Skips(step, s, state, t, host, b, replies);
    }
  }

  lemma SentAndTaken(step: Mover, s: Setup, state: State, t: nat, host: Pc, b: Batch, replies: nat -> Reply)
    returns (n: nat)
    requires BASE in s.book && IsSolo(step, s, t, replies) && s.sender == AUTHORITY && Numbered(state)
    requires t in state.tasks && BatchOf(host).Some?
    requires state.tasks[t] == With(host, b) && b.Ok() && !b.Done() && b.phase.Ready?
    requires s.known(b.cmds[|b.results|])
    ensures Iterate(step, state, n).Some?
    ensures var end := Iterate(step, state, n).value;
      && end.shared == state.shared && Numbered(end) && t in end.tasks
      && end.tasks[t] == With(host, b.(results := b.results + [StatusOf(replies(|b.results|))]))
  {
    var c := state.next;
    var waiting := b.(phase := Waiting(c));
    Sends(step, s, state, t, host, b, replies);
    var s1 := Iterate(step, state, 1).value;
    Serves(step, s, s1, t, c, host, waiting, replies);
    var s2 := Iterate(step, s1, 1).value;
    Takes(step, s, s2, t, c, host, waiting, replies);
    IterateAdd(step, s1, 1, 1);
    IterateAdd(step, state, 1, 2);
    n := 3;
  }

  lemma {:induction false} WholeBatch(step: Mover, s: Setup, state: State, t: nat, host: Pc, cmds: seq<string>,
                                      replies: nat -> Reply, k: nat)
    returns (n: nat)
    requires BASE in s.book && IsSolo(step, s, t, replies) && s.sender == AUTHORITY
    requires SendsAt(s, state, t, host, cmds, replies, k)
    ensures Iterate(step, state, n).Some?
    ensures var end := Iterate(step, state, n).value;
      end.shared == state.shared && SendsAt(s, end, t, host, cmds, replies, |cmds|)
    decreases |cmds| - k
  {
    n := 0;
    if k < |cmds| {
      var m := OneCommand(step, s, state, t, host, cmds, replies, k);
      n := WholeBatch(step, s, Iterate(step, state, m).value, t, host, cmds, replies, k + 1);
      IterateAdd(step, state, m, n);
      n := m + n;
    }
  }

  // ----- the call -----

  /** From the write lock to the end of the enter batch, whatever law is in force. */
  lemma BatchAlone(step: Mover, s: Setup, state: State, t: nat, o: Origin, target: string, replies: nat -> Reply)
    returns (n: nat)
    requires BASE in s.book && IsSolo(step, s, t, replies) && s.sender == AUTHORITY && Numbered(state)
    requires t in state.tasks && state.tasks[t] == WantLaw(o, target)
    requires state.shared.readers == 0 && !state.shared.writer && Effective(s.book, target) in s.book
    ensures Iterate(step, state, n).Some?
    ensures var end := Iterate(step, state, n).value;
      var law := Effective(s.book, target);
      end.shared == state.shared.(writer := true)
        && EntersAt(s, end, t, o, law, |state.log|, replies, |s.book[law].enter|)
  {
    var law, sh, now := Effective(s.book, target), state.shared, |state.log|;
    OneStep(step, s, state, t, replies, t,
            Effect(Entering(o, law, now, Batch(s.book[law].enter, [], Ready)), sh.(writer := true), [Locked(t)]));
    var s1 := Iterate(step, state, 1).value;
    assert Results(s.known, s.book[law].enter, replies)[..0] == [];
    var k := WholeBatch(step, s, s1, t, Entering(o, law, now, NoBatch()), s.book[law].enter, replies, 0);
    IterateAdd(step, state, 1, k);
    n := 1 + k;
  }

  /** From the write lock to the handler. */
  lemma EnterKnownAlone(step: Mover, s: Setup, state: State, t: nat, call: Call, c: nat, m: nat, target: string,
                        replies: nat -> Reply)
    returns (n: nat)
    requires BASE in s.book && IsSolo(step, s, t, replies) && s.sender == AUTHORITY && Numbered(state)
    requires t in state.tasks && state.tasks[t] == WantLaw(FromCall(call, c, m), target)
    requires state.shared.readers == 0 && !state.shared.writer && Effective(s.book, target) in s.book
    ensures Iterate(step, state, n).Some?
    ensures var end := Iterate(step, state, n).value;
      var law := Effective(s.book, target);
      && end.shared == state.shared.(law :=
           if AllCompleted(Results(s.known, s.book[law].enter, replies)) then Some(law) else state.shared.law)
      && Numbered(end) && t in end.tasks && end.tasks[t] == Handling(call, c)
  {
    var o := FromCall(call, c, m);
    var k := BatchAlone(step, s, state, t, o, target, replies);
    LeaveAlone(step, s, Iterate(step, state, k).value, t, o, Effective(s.book, target), |state.log|, replies);
    IterateAdd(step, state, k, 1);
    n := k + 1;
  }

  /** From where the call waits for the write lock. */
  lemma EnterAlone(step: Mover, s: Setup, state: State, t: nat, call: Call, c: nat, m: nat, target: string,
                   replies: nat -> Reply)
    returns (n: nat)
    requires BASE in s.book && IsSolo(step, s, t, replies) && s.sender == AUTHORITY && Numbered(state)
    requires t in state.tasks && state.tasks[t] == WantLaw(FromCall(call, c, m), target)
    requires state.shared.readers == 0 && !state.shared.writer && state.shared.law != Some(target)
    ensures Iterate(step, state, n).Some?
    ensures var end := Iterate(step, state, n).value;
      var (after, result) := SetLaw(s, state.shared.law, target, replies);
      end.shared == state.shared.(law := after) && t in end.tasks
      && end.tasks[t] == if result.Raises? then Crashed else Handling(call, c)
  {
    if Effective(s.book, target) in s.book {
      n := EnterKnownAlone(step, s, state, t, call, c, m, target, replies);
    } else {
      n := 1;
      OneStep(step, s, state, t, replies, t, Effect(Crashed, state.shared, []));
    }
  }

  lemma LeaveAlone(step: Mover, s: Setup, state: State, t: nat, o: Origin, law: string, since: nat,
                   replies: nat -> Reply)
    requires BASE in s.book && IsSolo(step, s, t, replies) && law in s.book
    requires EntersAt(s, state, t, o, law, since, replies, |s.book[law].enter|)
    ensures Iterate(step, state, 1).Some?
    ensures var end := Iterate(step, state, 1).value;
      && Numbered(end) && t in end.tasks && end.tasks[t] == AfterLaw(t, o).0
      && end.shared == state.shared.(writer := false,
           law := if AllCompleted(Results(s.known, s.book[law].enter, replies)) then Some(law) else state.shared.law)
  {
    var results := Results(s.known, s.book[law].enter, replies);
    assert results[..|results|] == results;
    var (after, began) := AfterLaw(t, o);
    var sh := state.shared;
    if AllCompleted(results) {
      OneStep(step, s, state, t, replies, t,
        Effect(after, sh.(law := Some(law), writer := false), [Committed(t, o, law, since)] + began));
    } else {
      OneStep(step, s, state, t, replies, t, Effect(after, sh.(writer := false), [Abandoned(t, law, since)] + began));
    }
  }

  /** The pc that stands for a decision. */
  ghost predicate Decided(pc: Pc, decision: Decision) {
    match decision
    case Reached => pc.Handling? || pc.Serving?
    case Refused => pc.Rejected?
    case Failed => pc.Crashed?
  }

  /** From where the call is checked. */
  lemma CheckAlone(step: Mover, s: Setup, state: State, t: nat, identity: string, call: Call, replies: nat -> Reply)
    returns (n: nat)
    requires BASE in s.book && IsSolo(step, s, t, replies) && s.sender == AUTHORITY && Numbered(state)
    requires t in state.tasks && state.tasks[t] == Checking(call) && identity !in {"", AUTHORITY}
    requires state.shared.readers == 1 && !state.shared.writer
    requires (state.shared.law.Some? ==> state.shared.law.value in s.book)
    ensures Iterate(step, state, n).Some?
    ensures var end := Iterate(step, state, n).value;
      var (after, decision) := Intercept(s, state.shared.law, identity, call, replies);
      end.shared == state.shared.(law := after, readers := 0) && t in end.tasks && Decided(end.tasks[t], decision)
  {
    var sh := state.shared.(readers := 0);
    n := 1;
    if sh.law.None? {
      OneStep(step, s, state, t, replies, t, Effect(Crashed, sh, []));
    } else if !Permits(s.matches, s.book[sh.law.value], s.book[BASE], call) {
      OneStep(step, s, state, t, replies, t, Effect(Rejected(call), sh, [Checked(t, call, false)]));
    } else {
      var now := |state.log|;
      OneStep(step, s, state, t, replies, t, Effect(Permitted(call, now), sh, [Checked(t, call, true)]));
      var s1 := Iterate(step, state, 1).value;
      var k := MatchAlone(step, s, s1, t, call, now, replies);
      IterateAdd(step, state, 1, k);
      n := 1 + k;
    }
  }

  /** Main result: a call whose coroutine runs undisturbed, from its arrival at a free
      lock to its handler, decides and changes the law as `Intercept` says, whatever its
      identity. */
  lemma UndisturbedCall(s: Setup, state: State, t: nat, identity: string, call: Call, replies: nat -> Reply)
    returns (n: nat)
    requires BASE in s.book && s.sender == AUTHORITY && Numbered(state)
    requires t in state.tasks && state.tasks[t] == PcFor(identity, call)
    requires state.shared.readers == 0 && !state.shared.writer
    requires (state.shared.law.Some? ==> state.shared.law.value in s.book)
    ensures Iterate(Solo(s, t, replies), state, n).Some?
    ensures var end := Iterate(Solo(s, t, replies), state, n).value;
      var (after, decision) := Intercept(s, state.shared.law, identity, call, replies);
      end.shared == state.shared.(law := after) && t in end.tasks && Decided(end.tasks[t], decision)
  {
    var step := Solo(s, t, replies);
    n := 0;
    if identity in {"", AUTHORITY} {
      return;
    }
    OneStep(step, s, state, t, replies, t, Effect(Checking(call), state.shared.(readers := 1), []));
    var k := CheckAlone(step, s, Iterate(step, state, 1).value, t, identity, call, replies);
    IterateAdd(step, state, 1, k);
    n := 1 + k;
  }

  /** The same from where the call has passed its check. */
  lemma MatchAlone(step: Mover, s: Setup, state: State, t: nat, call: Call, c: nat, replies: nat -> Reply)
    returns (n: nat)
    requires BASE in s.book && IsSolo(step, s, t, replies) && s.sender == AUTHORITY && Numbered(state)
    requires t in state.tasks && state.tasks[t] == Permitted(call, c)
    requires state.shared.readers == 0 && !state.shared.writer && state.shared.law.Some?
    requires state.shared.law.value in s.book
    ensures Iterate(step, state, n).Some?
    ensures var end := Iterate(step, state, n).value;
      var next := NextState(s, state.shared.law, call);
      var (after, result) := if next.None? then (state.shared.law, Returns(true))
          else SetLaw(s, state.shared.law, next.value, replies);
      end.shared == state.shared.(law := after) && t in end.tasks
      && end.tasks[t] == if result.Raises? then Crashed else Handling(call, c)
  {
    var sh := state.shared;
    OneStep(step, s, state, t, replies, t, Effect(Matching(call, c), sh.(readers := 1), []));
    var s1 := Iterate(step, state, 1).value;
    var next := NextState(s, sh.law, call);
    if next.None? {
      OneStep(step, s, s1, t, replies, t, Effect(Handling(call, c), sh, [Began(t, call, c)]));
      IterateAdd(step, state, 1, 1);
      n := 2;
    } else {
      var now := |s1.log|;
      OneStep(step, s, s1, t, replies, t,
        Effect(WantLaw(FromCall(call, c, now), next.value), sh, [Matched(t, call, next.value)]));
      IterateAdd(step, state, 1, 1);
      var s2 := Iterate(step, state, 2).value;
      var k := EnterAlone(step, s, s2, t, call, c, now, next.value, replies);
      IterateAdd(step, state, 2, k);
      n := 2 + k;
    }
  }

  // ----- the failsafe and the start -----

  /** Main result: a failsafe that runs undisturbed ends, with the lists that
      `LawAuthority.Failsafe` leaves, or raises and leaves everything alone. */
  lemma UndisturbedFailsafe(s: Setup, state: State, t: nat, name: string, seenAt: Option<nat>, replies: nat -> Reply)
    returns (n: nat)
    requires BASE in s.book && s.sender == AUTHORITY && Numbered(state)
    requires t in state.tasks && state.tasks[t] == WantFailsafe(name, seenAt)
    requires state.shared.readers == 0 && !state.shared.writer
    ensures Iterate(Solo(s, t, replies), state, n).Some?
    ensures var end, law := Iterate(Solo(s, t, replies), state, n).value, state.shared.law;
      t in end.tasks
      && if law.Some? && HasList(state.shared.table, "__BASE__", name)
         then end.tasks[t].Finished? && end.shared == state.shared.(table :=
                FailsafeTable(state.shared.table, law.value, name))
         else end.tasks[t].Crashed? && end.shared == state.shared
  {
    var sh := state.shared;
    if sh.law.Some? && HasList(sh.table, BASE, name) {
      n := FailsafeRuns(Solo(s, t, replies), s, state, t, name, seenAt, replies,
        FailsafeTable(sh.table, sh.law.value, name), FailsafeCommands(sh.table, sh.law.value, name));
    } else {
      n := 1;
      OneStep(Solo(s, t, replies), s, state, t, replies, t, Effect(Crashed, sh, []));
    }
  }

  lemma FailsafeRuns(step: Mover, s: Setup, state: State, t: nat, name: string, seenAt: Option<nat>,
                     replies: nat -> Reply, table: Table, cmds: seq<string>)
    returns (n: nat)
    requires BASE in s.book && IsSolo(step, s, t, replies) && s.sender == AUTHORITY && Numbered(state)
    requires t in state.tasks && state.tasks[t] == WantFailsafe(name, seenAt)
    requires state.shared.readers == 0 && !state.shared.writer
    requires state.shared.law.Some? && HasList(state.shared.table, BASE, name)
    requires table == FailsafeTable(state.shared.table, state.shared.law.value, name)
    requires cmds == FailsafeCommands(state.shared.table, state.shared.law.value, name)
    ensures Iterate(step, state, n).Some?
    ensures var end := Iterate(step, state, n).value;
      t in end.tasks && end.tasks[t].Finished? && end.shared == state.shared.(table := table)
  {
    FailsafeTakes(step, s, state, t, name, seenAt, replies, table, cmds);
    var s1 := Iterate(step, state, 1).value;
    var k := WholeBatch(step, s, s1, t, Failsafing(|state.log|, NoBatch()), cmds, replies, 0);
    FailsafeLeaves(step, s, Iterate(step, s1, k).value, t, |state.log|, cmds, replies);
    IterateAdd(step, s1, k, 1);
    IterateAdd(step, state, 1, k + 1);
    n := 1 + (k + 1);
  }

  lemma FailsafeTakes(step: Mover, s: Setup, state: State, t: nat, name: string, seenAt: Option<nat>,
                      replies: nat -> Reply, table: Table, cmds: seq<string>)
    requires BASE in s.book && IsSolo(step, s, t, replies) && Numbered(state)
    requires t in state.tasks && state.tasks[t] == WantFailsafe(name, seenAt)
    requires state.shared.readers == 0 && !state.shared.writer
    requires state.shared.law.Some? && HasList(state.shared.table, BASE, name)
    requires table == FailsafeTable(state.shared.table, state.shared.law.value, name)
    requires cmds == FailsafeCommands(state.shared.table, state.shared.law.value, name)
    ensures Iterate(step, state, 1).Some?
    ensures var end := Iterate(step, state, 1).value;
      && end.shared == state.shared.(table := table, writer := true)
      && SendsAt(s, end, t, Failsafing(|state.log|, NoBatch()), cmds, replies, 0)
  {
    OneStep(step, s, state, t, replies, t,
            Effect(Failsafing(|state.log|, Batch(cmds, [], Ready)), state.shared.(table := table, writer := true),
                   [Locked(t), Fired(t, state.shared.law.value, name, cmds, seenAt)]));
    assert Results(s.known, cmds, replies)[..0] == [];
  }

  lemma FailsafeLeaves(step: Mover, s: Setup, state: State, t: nat, since: nat, cmds: seq<string>,
                       replies: nat -> Reply)
    requires BASE in s.book && IsSolo(step, s, t, replies)
    requires SendsAt(s, state, t, Failsafing(since, NoBatch()), cmds, replies, |cmds|)
    ensures Iterate(step, state, 1).Some?
    ensures var end := Iterate(step, state, 1).value;
      end.shared == state.shared.(writer := false) && t in end.tasks && end.tasks[t].Finished?
  {
    OneStep(step, s, state, t, replies, t,
            Effect(Finished, state.shared.(writer := false), [FailsafeDone(t, since)]));
  }

  /** The startup commands; whether the base law is wanted depends on their results. */
  lemma StartupAlone(step: Mover, s: Setup, state: State, t: nat, startup: seq<string>, replies: nat -> Reply)
    returns (n: nat)
    requires BASE in s.book && IsSolo(step, s, t, replies) && s.sender == AUTHORITY && Numbered(state)
    requires t in state.tasks && state.tasks[t] == Starting(Batch(startup, [], Ready))
    ensures Iterate(step, state, n).Some?
    ensures var end := Iterate(step, state, n).value;
      && end.shared == state.shared && Numbered(end) && t in end.tasks
      && end.tasks[t] == if AllCompleted(Results(s.known, startup, replies)) && state.shared.law != Some(BASE)
                         then WantLaw(FromStart(startup), BASE) else Finished
  {
    assert Results(s.known, startup, replies)[..0] == [];
    var k := WholeBatch(step, s, state, t, Starting(NoBatch()), startup, replies, 0);
    var s1 := Iterate(step, state, k).value;
    StartupLeaves(step, s, s1, t, startup, replies);
    IterateAdd(step, state, k, 1);
    n := k + 1;
  }

  lemma StartupLeaves(step: Mover, s: Setup, state: State, t: nat, startup: seq<string>, replies: nat -> Reply)
    requires BASE in s.book && IsSolo(step, s, t, replies)
    requires SendsAt(s, state, t, Starting(NoBatch()), startup, replies, |startup|)
    ensures Iterate(step, state, 1).Some?
    ensures var end := Iterate(step, state, 1).value;
      && end.shared == state.shared && Numbered(end) && t in end.tasks
      && end.tasks[t] == if AllCompleted(Results(s.known, startup, replies)) && state.shared.law != Some(BASE)
                         then WantLaw(FromStart(startup), BASE) else Finished
  {
    var results := Results(s.known, startup, replies);
    assert results[..|results|] == results;
    var after := if AllCompleted(results) && state.shared.law != Some(BASE)
                 then WantLaw(FromStart(startup), BASE) else Finished;
    OneStep(step, s, state, t, replies, t, Effect(after, state.shared, []));
  }

  /** From the write lock to the end of the start. */
  lemma EnterBaseAlone(step: Mover, s: Setup, state: State, t: nat, startup: seq<string>, replies: nat -> Reply)
    returns (n: nat)
    requires BASE in s.book && IsSolo(step, s, t, replies) && s.sender == AUTHORITY && Numbered(state)
    requires t in state.tasks && state.tasks[t] == WantLaw(FromStart(startup), BASE)
    requires state.shared.readers == 0 && !state.shared.writer
    ensures Iterate(step, state, n).Some?
    ensures var end := Iterate(step, state, n).value;
      && end.shared == state.shared.(law :=
           if AllCompleted(Results(s.known, s.book[BASE].enter, replies)) then Some(BASE) else state.shared.law)
      && t in end.tasks && end.tasks[t].Finished?
  {
    var o := FromStart(startup);
    var k := BatchAlone(step, s, state, t, o, BASE, replies);
    LeaveAlone(step, s, Iterate(step, state, k).value, t, o, BASE, |state.log|, replies);
    IterateAdd(step, state, k, 1);
    n := k + 1;
  }

  /** Main result: a start that runs undisturbed enters the base law exactly if every
      startup command and then every enter command is known and completes. */
  lemma UndisturbedStart(s: Setup, state: State, t: nat, startup: seq<string>, replies: nat -> Reply,
                         enterReplies: nat -> Reply)
    returns (n: nat, m: nat)
    requires BASE in s.book && s.sender == AUTHORITY && Numbered(state) && state.shared.law.None?
    requires t in state.tasks && state.tasks[t] == Starting(Batch(startup, [], Ready))
    requires state.shared.readers == 0 && !state.shared.writer
    ensures Iterate(Solo(s, t, replies), state, n).Some?
    ensures var mid := Iterate(Solo(s, t, replies), state, n).value;
      && Iterate(Solo(s, t, enterReplies), mid, m).Some?
      && var end := Iterate(Solo(s, t, enterReplies), mid, m).value;
         && t in end.tasks && end.tasks[t].Finished?
         && end.shared == state.shared.(law :=
              if AllAnswered(s.known, startup, replies)
                && AllAnswered(s.known, s.book["__BASE__"].enter, enterReplies)
              then Some("__BASE__") else None)
  {
    AllCompletedIff(s.known, startup, replies);
    AllCompletedIff(s.known, s.book[BASE].enter, enterReplies);
    n := StartupAlone(Solo(s, t, replies), s, state, t, startup, replies);
    m := 0;
    if AllCompleted(Results(s.known, startup, replies)) {
      m := EnterBaseAlone(Solo(s, t, enterReplies), s, Iterate(Solo(s, t, replies), state, n).value, t, startup,
        enterReplies);
    }
  }
}
