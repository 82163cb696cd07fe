/** The law authority under any interleaving of coroutines. Each stretch between
    two awaits is one atomic step; the readers/writer lock is a reader count and a
    writer flag. A log of what happened serves to state the safety properties. */
module LawProtocol {
  import opened Wrappers
  import opened Laws
  import opened Admission
  import opened Failsafes

  // ----- coroutines -----

  /** Sending the next command of a batch: not sent yet, or running as a coroutine of
      its own, which goes through the interceptor like any other command. */
  datatype Phase = Ready | Waiting(child: nat)

  datatype Batch = Batch(cmds: seq<string>, results: seq<int>, phase: Phase) {
    predicate Done() { phase == Ready && |results| == |cmds| }
    predicate Ok() { |results| <= |cmds| && (phase != Ready ==> |results| < |cmds|) }
  }

  /** Where a result comes from: no such command, or what the channel brought back. */
  datatype Source = Missing | Answered(reply: Reply)

  function StatusFrom(source: Source): int {
    match source
    case Missing => UNKNOWN
    case Answered(reply) => StatusOf(reply)
  }

  /** Why a law is being entered: a permitted call, checked and matched at these
      places of the log, or the start of the vehicle after its startup commands. */
  datatype Origin = FromCall(call: Call, checkedAt: nat, matchedAt: nat) | FromStart(startup: seq<string>)

  datatype Pc =
    | Arrived(call: Call)                                 // waits for the read lock of `allows`
    | Checking(call: Call)                                // holds it
    | Permitted(call: Call, checkedAt: nat)               // waits for the read lock of `match`
    | Matching(call: Call, checkedAt: nat)                // holds it
    | WantLaw(origin: Origin, target: string)             // waits for the write lock of `set_law`
    | Entering(origin: Origin, law: string, since: nat, batch: Batch)  // holds it
    | Handling(call: Call, checkedAt: nat)                // the command's handler runs
    | Starting(batch: Batch)                              // sends the startup commands
    | WantFailsafe(name: string, seenAt: Option<nat>)     // waits for the write lock of `failsafe`
    | Failsafing(since: nat, batch: Batch)                // holds it
    | Serving                                             // the handler of a command the authority sent runs
    | WantRead(watch: Option<string>)                     // waits for the read lock of `get_law`
    | Reading(watch: Option<string>)                      // holds it; runs failsafe `watch` if the law is REMOTE
    | Rejected(call: Call)
    | Finished
    | Crashed                                              // raised or was cancelled

  predicate HoldsRead(pc: Pc) { pc.Checking? || pc.Matching? || pc.Reading? }
  predicate HoldsWrite(pc: Pc) { pc.Entering? || pc.Failsafing? }
  predicate Ended(pc: Pc) { pc.Rejected? || pc.Finished? || pc.Crashed? }
  predicate Initial(pc: Pc) {
    pc.Arrived? || (pc.WantFailsafe? && pc.seenAt.None?) || pc.WantRead?
      || (pc.Starting? && pc.batch.results == [] && pc.batch.phase == Ready)
  }

  datatype Event =
    | Checked(task: nat, call: Call, allowed: bool)
    | Matched(task: nat, call: Call, target: string)
    | Locked(task: nat)                                   // took the write lock
    | Read(task: nat, seen: Option<string>)               // `get_law` returned
    // extended a failsafe list and will send it; the watchdog had read REMOTE at `seenAt`
    | Fired(task: nat, law: string, name: string, cmds: seq<string>, seenAt: Option<nat>)
    | FailsafeDone(task: nat, since: nat)                 // sent the whole of it
    | Sent(task: nat, cmd: string, source: Source)        // got a result while holding the write lock
    | Startup(task: nat, cmd: string, source: Source)
    | Committed(task: nat, origin: Origin, law: string, since: nat)
    | Abandoned(task: nat, law: string, since: nat)
    | Began(task: nat, call: Call, checkedAt: nat)      // the handler starts

  /** Events that need no lock. */
  predicate LockFree(e: Event) { e.Began? || e.Startup? }

  // ----- one step of one coroutine -----

  datatype Shared = Shared(law: Option<string>, table: Table, readers: int, writer: bool)

  /** What a step does: to its coroutine, to what is shared, to the log, and the
      coroutine it starts for a command it sends. */
  datatype Effect = Effect(pc: Pc, shared: Shared, events: seq<Event>, spawn: Option<Pc> := None)

  /** What a step finds: the log's length, the answer of a handler that ends, the
      number of the next coroutine, and the state of the one it waits for. */
  datatype Env = Env(now: nat, answer: Reply, next: nat, child: Option<Pc>)

  /** The command as the interceptor sees it. */
  function NestedCall(s: Setup, cmd: string): Call {
    Call(s.sender + "." + Split(cmd, '|')[0], map[])
  }

  /** The interceptor: without an identity a command is refused, the authority itself is
      let through, others must be admitted. */
  function PcFor(identity: string, call: Call): Pc {
    if identity == "" then Rejected(call)
    else if identity == AUTHORITY then Serving
    else Arrived(call)
  }

  /** A command that the authority sends. */
  function NestedPc(s: Setup, cmd: string): Pc {
    PcFor(s.sender, NestedCall(s, cmd))
  }

  const CODE_UNKNOWN: Code := 2
  const PERMISSION_DENIED: Code := 7

  function NestedReply(child: Pc, answer: Reply): Reply {
    if child.Rejected? then RpcError(PERMISSION_DENIED)
    else if child.Crashed? && answer.Response? then RpcError(CODE_UNKNOWN)
    else answer
  }

  datatype Sending = Sending(batch: Batch, sent: Option<(string, Source)>, spawn: Option<Pc>)

  /** The next step of a batch; `None` while its command has not ended. */
  function BatchStep(s: Setup, b: Batch, env: Env): Option<Sending>
    requires b.Ok() && !b.Done()
  {
    var cmd := b.cmds[|b.results|];
    match b.phase
    case Ready =>
      if s.known(cmd) then Some(Sending(b.(phase := Waiting(env.next)), None, Some(NestedPc(s, cmd))))
      else Some(Sending(b.(results := b.results + [UNKNOWN]), Some((cmd, Missing)), None))
    case Waiting(_) =>
      if env.child.None? || !Ended(env.child.value) then None
      else
        var reply := NestedReply(env.child.value, env.answer);
        Some(Sending(b.(results := b.results + [StatusOf(reply)], phase := Ready), Some((cmd, Answered(reply))), None))
  }

  function SentEvents(t: nat, sent: Option<(string, Source)>): seq<Event> {
    if sent.Some? then [Sent(t, sent.value.0, sent.value.1)] else []
  }

  function AfterLaw(t: nat, o: Origin): (Pc, seq<Event>) {
    match o
    case FromCall(call, c, _) => (Handling(call, c), [Began(t, call, c)])
    case FromStart(_) => (Finished, [])
  }

  /** The next stretch of a coroutine; `None` while it has to wait. */
  function Advance(s: Setup, t: nat, pc: Pc, sh: Shared, env: Env): Option<Effect>
    requires BASE in s.book
  {
    var released := sh.(readers := sh.readers - 1);
    var free := !sh.writer && sh.readers == 0;
    match pc
    case Arrived(call) =>
      if sh.writer then None else Some(Effect(Checking(call), sh.(readers := sh.readers + 1), []))
    case Checking(call) =>
      if sh.law.None? || sh.law.value !in s.book then Some(Effect(Crashed, released, []))
      else if Permits(s.matches, s.book[sh.law.value], s.book[BASE], call)
      then Some(Effect(Permitted(call, env.now), released, [Checked(t, call, true)]))
      else Some(Effect(Rejected(call), released, [Checked(t, call, false)]))
    case Permitted(call, c) =>
      if sh.writer then None else Some(Effect(Matching(call, c), sh.(readers := sh.readers + 1), []))
    case Matching(call, c) =>
      if sh.law.None? || sh.law.value !in s.book then Some(Effect(Crashed, released, []))
      else
        var next := NextState(s, sh.law, call);
        if next.None? then Some(Effect(Handling(call, c), released, [Began(t, call, c)]))
        else Some(Effect(WantLaw(FromCall(call, c, env.now), next.value), released, [Matched(t, call, next.value)]))
    case WantLaw(o, target) =>
      var law := Effective(s.book, target);
      if !free then None
      else if law !in s.book then Some(Effect(Crashed, sh, []))
      else Some(Effect(Entering(o, law, env.now, Batch(s.book[law].enter, [], Ready)), sh.(writer := true),
        [Locked(t)]))
    case Entering(o, law, since, b) =>
      if !b.Ok() then None
      else if b.Done() then
        var (after, began) := AfterLaw(t, o);
        if AllCompleted(b.results)
        then Some(Effect(after, sh.(law := Some(law), writer := false), [Committed(t, o, law, since)] + began))
        else Some(Effect(after, sh.(writer := false), [Abandoned(t, law, since)] + began))
      else
        var next := BatchStep(s, b, env);
        if next.None? then None
        else Some(Effect(Entering(o, law, since, next.value.batch), sh, SentEvents(t, next.value.sent),
          next.value.spawn))
    case Handling(call, c) => Some(Effect(Finished, sh, []))
    case Starting(b) =>
      if !b.Ok() then None
      else if b.Done() then
        if AllCompleted(b.results) && sh.law != Some(BASE)
        then Some(Effect(WantLaw(FromStart(b.cmds), BASE), sh, []))
        else Some(Effect(Finished, sh, []))
      else
        var next := BatchStep(s, b, env);
        if next.None? then None
        else
          var sent := next.value.sent;
          Some(Effect(Starting(next.value.batch), sh, if sent.Some? then [Startup(t, sent.value.0, sent.value.1)]
            else [],
                      next.value.spawn))
    case WantFailsafe(name, seenAt) =>
      if !free then None
      else if sh.law.None? || !HasList(sh.table, BASE, name) then Some(Effect(Crashed, sh, []))
      else
        var cmds := FailsafeCommands(sh.table, sh.law.value, name);
        Some(Effect(Failsafing(env.now, Batch(cmds, [], Ready)),
                    sh.(table := FailsafeTable(sh.table, sh.law.value, name), writer := true),
                    [Locked(t), Fired(t, sh.law.value, name, cmds, seenAt)]))
    case Failsafing(since, b) =>
      if !b.Ok() then None
      else if b.Done() then Some(Effect(Finished, sh.(writer := false), [FailsafeDone(t, since)]))
      else
        var next := BatchStep(s, b, env);
        if next.None? then None
        else Some(Effect(Failsafing(since, next.value.batch), sh, SentEvents(t, next.value.sent), next.value.spawn))
    case Serving => Some(Effect(Finished, sh, []))
    case WantRead(watch) =>
      if sh.writer then None else Some(Effect(Reading(watch), sh.(readers := sh.readers + 1), []))
    case Reading(watch) =>
      var after := if watch.Some? && sh.law == Some(REMOTE) then WantFailsafe(watch.value, Some(env.now)) else Finished;
      Some(Effect(after, released, [Read(t, sh.law)]))
    case Rejected(_) => None
    case Finished => None
    case Crashed => None
  }

  /** A cancelled coroutine releases the lock it holds and ends. */
  function Cancel(pc: Pc, sh: Shared): Effect {
    Effect(Crashed,
           sh.(readers := sh.readers - (if HoldsRead(pc) then 1 else 0), writer := sh.writer && !HoldsWrite(pc)),
           [])
  }

  // ----- the whole system -----

  /** `next` is the number of the next coroutine to start. */
  datatype State = State(shared: Shared, tasks: map<nat, Pc>, next: nat, log: seq<Event>)

  datatype Action =
    | Spawn(pc: Pc)
    | Step(task: nat, answer: Reply)
    | Interrupt(task: nat)

  function Start(table: Table): State {
    State(Shared(None, table, 0, false), map[], 0, [])
  }

  function Spawned(state: State, pc: Pc): State {
    state.(tasks := state.tasks[state.next := pc], next := state.next + 1)
  }

  function Apply(state: State, t: nat, e: Effect): State {
    var after := State(e.shared, state.tasks[t := e.pc], state.next, state.log + e.events);
    if e.spawn.Some? then Spawned(after, e.spawn.value) else after
  }

  function BatchOf(pc: Pc): Option<Batch> {
    if pc.Entering? || pc.Failsafing? || pc.Starting? then Some(pc.batch) else None
  }

  /** The coroutine that `pc` waits for, if it waits for one. */
  function ChildOf(pc: Pc): Option<nat> {
    if BatchOf(pc).Some? && BatchOf(pc).value.phase.Waiting? then Some(BatchOf(pc).value.phase.child) else None
  }

  function EnvOf(state: State, t: nat, answer: Reply): Env
    requires t in state.tasks
  {
    var child := ChildOf(state.tasks[t]);
    Env(|state.log|, answer, state.next,
        if child.Some? && child.value in state.tasks then Some(state.tasks[child.value]) else None)
  }

  function Next(s: Setup, state: State, a: Action): Option<State>
    requires BASE in s.book
  {
    match a
    case Spawn(pc) => if Initial(pc) then Some(Spawned(state, pc)) else None
    case Step(t, answer) =>
      if t !in state.tasks then None
      else
        var e := Advance(s, t, state.tasks[t], state.shared, EnvOf(state, t, answer));
        if e.None? then None else Some(Apply(state, t, e.value))
    case Interrupt(t) =>
      if t !in state.tasks || Ended(state.tasks[t]) then None
      else Some(Apply(state, t, Cancel(state.tasks[t], state.shared)))
  }

  /** The state after a sequence of actions, if each is possible in its turn. */
  ghost function Execute(s: Setup, table: Table, actions: seq<Action>): Option<State>
    requires BASE in s.book
  {
    if actions == [] then Some(Start(table))
    else
      var before := Execute(s, table, actions[..|actions| - 1]);
      if before.None? then None else Next(s, before.value, actions[|actions| - 1])
  }

  // ----- reading the log -----

  /** The law in force after a log: the last one committed. */
  ghost function LawAt(log: seq<Event>): Option<string> {
    if log == [] then None
    else if log[|log| - 1].Committed? then Some(log[|log| - 1].law)
    else LawAt(log[..|log| - 1])
  }

  /** The failsafes that ran, in order. */
  ghost function FiringsOf(log: seq<Event>): seq<Firing> {
    if log == [] then []
    else
      var e := log[|log| - 1];
      FiringsOf(log[..|log| - 1]) + if e.Fired? then [Firing(e.law, e.name)] else []
  }

  /** The results task `t` got since position `since`. */
  ghost function SentSince(log: seq<Event>, t: nat, since: nat): seq<(string, int)> {
    if |log| <= since then []
    else
      var e := log[|log| - 1];
      SentSince(log[..|log| - 1], t, since) + if e.Sent? && e.task == t then [(e.cmd, StatusFrom(e.source))] else []
  }

  /** The results of the startup commands that task `t` sent. */
  ghost function StartupOf(log: seq<Event>, t: nat): seq<(string, int)> {
    if log == [] then []
    else
      var e := log[|log| - 1];
      StartupOf(log[..|log| - 1], t) + if e.Startup? && e.task == t then [(e.cmd, StatusFrom(e.source))] else []
  }

  ghost function Zip(cmds: seq<string>, results: seq<int>): seq<(string, int)>
    requires |results| <= |cmds|
  {
    seq(|results|, i requires 0 <= i < |results| => (cmds[i], results[i]))
  }

  /** At position `c` the call was checked and allowed by the law then in force. */
  ghost predicate PermittedAt(s: Setup, log: seq<Event>, t: nat, call: Call, c: nat)
    requires BASE in s.book
  {
    && c < |log| && log[c] == Checked(t, call, true)
    && LawAt(log[..c]).Some? && LawAt(log[..c]).value in s.book
    && Permits(s.matches, s.book[LawAt(log[..c]).value], s.book[BASE], call)
  }

  /** `law` is what the origin asked for: the base law at the start, when all startup
      commands completed, otherwise the match, under the law in force when it was made,
      of a permitted call. */
  ghost predicate AskedFor(s: Setup, log: seq<Event>, t: nat, o: Origin, law: string)
    requires BASE in s.book
  {
    match o
    case FromStart(cmds) =>
      law == BASE && StartupOf(log, t) == Zip(cmds, seq(|cmds|, _ => COMPLETED))
    case FromCall(call, c, m) =>
      && c < m < |log|
      && PermittedAt(s, log, t, call, c)
      && log[m].Matched? && log[m].task == t && log[m].call == call
      && LawAt(log[..m]).Some? && LawAt(log[..m]).value in s.book
      && MatchTarget(s.matches, s.book[LawAt(log[..m]).value], s.book[BASE], call) == Some(log[m].target)
      && law == Effective(s.book, log[m].target)
  }

  /** Since position `since`, where `t` took the write lock, only `t` did anything
      that needs the lock. */
  ghost predicate AloneSince(log: seq<Event>, t: nat, since: nat) {
    && since < |log| && log[since] == Locked(t)
    && forall j :: since < j < |log| ==> log[j].task == t || LockFree(log[j])
  }

  /** Since position `since`, `t` alone holds the write lock, and it fired a failsafe
      there. */
  ghost predicate SendsFailsafe(log: seq<Event>, t: nat, since: nat) {
    AloneSince(log, t, since) && since + 1 < |log| && log[since + 1].Fired? && log[since + 1].task == t
  }

  /** A failsafe of the watchdog goes back to where `t` read that the law is REMOTE. */
  ghost predicate SawRemote(log: seq<Event>, t: nat, seenAt: Option<nat>) {
    seenAt.Some? ==> seenAt.value < |log| && log[seenAt.value] == Read(t, Some(REMOTE))
  }

  /** What must hold of the log before an event for the event to be in order. */
  ghost predicate InOrder(s: Setup, log: seq<Event>, e: Event)
    requires BASE in s.book
  {
    match e
    case Checked(t, call, allowed) =>
      && LawAt(log).Some? && LawAt(log).value in s.book
      && allowed == Permits(s.matches, s.book[LawAt(log).value], s.book[BASE], call)
    case Began(t, call, c) => PermittedAt(s, log, t, call, c)
    case Sent(t, cmd, source) => source.Missing? <==> !s.known(cmd)
    case Startup(t, cmd, source) => source.Missing? <==> !s.known(cmd)
    case Committed(t, o, law, since) =>
      && law in s.book
      && AskedFor(s, log, t, o, law)
      && AloneSince(log, t, since)
      && SentSince(log, t, since) == Zip(s.book[law].enter, seq(|s.book[law].enter|, _ => COMPLETED))
    case Abandoned(t, law, since) =>
      && law in s.book
      && AloneSince(log, t, since)
      && exists results: seq<int> :: |results| == |s.book[law].enter| && !AllCompleted(results)
                                     && SentSince(log, t, since) == Zip(s.book[law].enter, results)
    case Fired(t, law, name, cmds, seenAt) =>
      LawAt(log) == Some(law) && AloneSince(log, t, |log| - 1) && SawRemote(log, t, seenAt)
    case Read(t, seen) => seen == LawAt(log)
    case FailsafeDone(t, since) =>
      && SendsFailsafe(log, t, since)
      && exists results: seq<int> :: |results| == |log[since + 1].cmds|
                                     && SentSince(log, t, since) == Zip(log[since + 1].cmds, results)
    case Matched(t, call, target) =>
      && LawAt(log).Some? && LawAt(log).value in s.book
      && NextState(s, LawAt(log), call) == Some(target)
    case Locked(_) => true
  }

  ghost predicate LogInOrder(s: Setup, log: seq<Event>)
    requires BASE in s.book
  {
    forall i :: 0 <= i < |log| ==> InOrder(s, log[..i], log[i])
  }

  // ----- the invariant -----

  ghost function Readers(tasks: map<nat, Pc>): set<nat> {
    set t | t in tasks && HoldsRead(tasks[t])
  }

  ghost function Writers(tasks: map<nat, Pc>): set<nat> {
    set t | t in tasks && HoldsWrite(tasks[t])
  }

  /** The lock counts its holders, and a writer excludes everyone else. */
  ghost predicate LockOk(sh: Shared, tasks: map<nat, Pc>) {
    && sh.readers == |Readers(tasks)|
    && |Writers(tasks)| == (if sh.writer then 1 else 0)
    && (sh.writer ==> sh.readers == 0)
  }

  ghost predicate NoTrace(log: seq<Event>, t: nat) {
    forall i :: 0 <= i < |log| ==> log[i].task != t
  }

  /** A rejected call left nothing behind but its failed check. */
  ghost predicate OnlyRejection(log: seq<Event>, t: nat, call: Call) {
    forall i :: 0 <= i < |log| && log[i].task == t ==> log[i] == Checked(t, call, false)
  }

  ghost predicate TaskOk(s: Setup, log: seq<Event>, t: nat, pc: Pc)
    requires BASE in s.book
  {
    match pc
    case Arrived(_) => NoTrace(log, t)
    case Checking(_) => NoTrace(log, t)
    case Permitted(call, c) => PermittedAt(s, log, t, call, c)
    case Matching(call, c) => PermittedAt(s, log, t, call, c)
    case Handling(call, c) => PermittedAt(s, log, t, call, c)
    case WantLaw(o, target) => AskedFor(s, log, t, o, Effective(s.book, target))
    case Entering(o, law, since, b) =>
      && law in s.book && AskedFor(s, log, t, o, law) && AloneSince(log, t, since)
      && b.Ok() && b.cmds == s.book[law].enter && SentSince(log, t, since) == Zip(b.cmds, b.results)
      && (b.phase != Ready ==> s.known(b.cmds[|b.results|]))
    case Failsafing(since, b) =>
      && SendsFailsafe(log, t, since) && b.cmds == log[since + 1].cmds
      && b.Ok() && SentSince(log, t, since) == Zip(b.cmds, b.results)
      && (b.phase != Ready ==> s.known(b.cmds[|b.results|]))
    case Starting(b) =>
      b.Ok() && (b.phase != Ready ==> s.known(b.cmds[|b.results|])) && StartupOf(log, t) == Zip(b.cmds, b.results)
    case Rejected(call) => OnlyRejection(log, t, call)
    case WantFailsafe(_, seenAt) => SawRemote(log, t, seenAt)
    case _ => true
  }

  /** Each failsafe sends the list it read: the law's own entry and the base entry. */
  ghost predicate FiredInOrder(table: Table, log: seq<Event>) {
    forall i :: 0 <= i < |log| && log[i].Fired? ==> FiredOk(table, log[..i], log[i])
  }

  ghost predicate FiredOk(table: Table, log: seq<Event>, e: Event)
    requires e.Fired?
  {
    var now := FireAll(table, FiringsOf(log));
    HasList(now, BASE, e.name) && e.cmds == FailsafeCommands(now, e.law, e.name)
  }

  ghost predicate TasksOk(s: Setup, log: seq<Event>, tasks: map<nat, Pc>)
    requires BASE in s.book
  {
    forall t :: t in tasks ==> TaskOk(s, log, t, tasks[t])
  }

  /** The law in force is the last one committed. */
  ghost predicate LawFollows(s: Setup, sh: Shared, log: seq<Event>) {
    sh.law == LawAt(log) && (sh.law.Some? ==> sh.law.value in s.book)
  }

  /** The failsafe lists are what the firings made of them. */
  ghost predicate ListsFollow(table: Table, sh: Shared, log: seq<Event>) {
    sh.table == FireAll(table, FiringsOf(log)) && FiredInOrder(table, log)
  }

  /** Coroutines have numbers below the next one, and only they appear in the log. */
  ghost predicate NumbersOk(tasks: map<nat, Pc>, next: nat, log: seq<Event>) {
    && (forall t :: t in tasks ==> t < next)
    && (forall i :: 0 <= i < |log| ==> log[i].task in tasks)
  }

  ghost predicate Inv(s: Setup, table: Table, state: State)
    requires BASE in s.book
  {
    && LockOk(state.shared, state.tasks)
    && LawFollows(s, state.shared, state.log)
    && ListsFollow(table, state.shared, state.log)
    && NumbersOk(state.tasks, state.next, state.log)
    && TasksOk(s, state.log, state.tasks)
    && LogInOrder(s, state.log)
  }
}
