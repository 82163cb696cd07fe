/** Requests and responses between any number of commanders, the controller and
    any number of vehicles, over a network that may reorder and lose messages but
    does not duplicate them. */
module SwarmProtocol {
  import opened Wrappers
  import opened SwarmController

  datatype Message = Message(vehicle: string, request: string, number: nat)
  datatype Reply = Reply(number: nat, response: Response)

  /** A command that ran on a vehicle, for the record. */
  datatype Execution = Execution(vehicle: string, request: string, number: nat, response: Response)

  /** What a `Command` stream yields. */
  datatype Out = Ok | InProgress | Final(response: Response) | Error

  datatype Pc =
    | Opened                 // yielded OK
    | Numbered(number: nat)  // got its number, not sent yet
    | Waiting(number: nat)   // about to yield IN_PROGRESS
    | Sleeping(number: nat)  // yielded it, about to poll
    | Done(number: nat)      // yielded the final response
    | Broken                 // the send raised, or the commander went away

  datatype Stream = Stream(vehicle: string, request: string, pc: Pc, out: seq<Out>)

  datatype State = State(
    controller: Controller,
    streams: map<nat, Stream>,
    owner: map<nat, nat>,        // for the record: which stream got which number
    toVehicle: seq<Message>,
    running: seq<Message>,
    returning: seq<Reply>,
    lost: seq<nat>,
    executed: seq<Execution>)

  datatype Action =
    | Open(id: nat, vehicle: string, request: string)
    | Number(id: nat)
    | Send(id: nat)
    | SendFails(id: nat)
    | Report(id: nat)
    | Poll(id: nat)
    | Leave(id: nat)
    | Deliver(i: nat)                         // a vehicle starts a task for a message
    | Finish(i: nat, response: Response)      // its result is sent back
    | Crash(i: nat)                           // it dies without a result
    | Receive(i: nat)                         // the listener files a reply
    | LoseRequest(i: nat)
    | LoseReply(i: nat)

  function Remove<T>(s: seq<T>, i: nat): seq<T>
    requires i < |s|
  {
    s[..i] + s[i + 1..]
  }

  function Initial(): State {
    State(Controller(0, map[]), map[], map[], [], [], [], [], [])
  }

  function WithStream(s: State, id: nat, pc: Pc, out: seq<Out>): State
    requires id in s.streams
  {
    s.(streams := s.streams[id := s.streams[id].(pc := pc, out := s.streams[id].out + out)])
  }

  function StreamStep(s: State, a: Action): Option<State>
    requires (a.Number? || a.Send? || a.SendFails? || a.Report? || a.Poll? || a.Leave?) && a.id in s.streams
  {
    var stream := s.streams[a.id];
    match (a, stream.pc)
    case (Number(id), Opened) =>
      var (n, controller) := Issue(s.controller);
      Some(WithStream(s, id, Numbered(n), []).(controller := controller, owner := s.owner[n := id]))
    case (Send(id), Numbered(n)) =>
      Some(WithStream(s, id, Waiting(n), []).(toVehicle := s.toVehicle + [Message(stream.vehicle, stream.request, n)]))
    case (SendFails(id), Numbered(n)) =>
      Some(WithStream(s, id, Broken, [Error]).(lost := s.lost + [n]))
    case (Report(id), Waiting(n)) =>
      Some(WithStream(s, id, Sleeping(n), [InProgress]))
    case (Poll(id), Sleeping(n)) =>
      var response := Lookup(s.controller, n);
      if response.Some? then Some(WithStream(s, id, Done(n), [Final(response.value)]))
      else Some(WithStream(s, id, Waiting(n), []))
    case (Leave(id), Numbered(n)) =>
      Some(WithStream(s, id, Broken, []).(lost := s.lost + [n]))
    case (Leave(id), Opened) => Some(WithStream(s, id, Broken, []))
    case (Leave(id), Waiting(_)) => Some(WithStream(s, id, Broken, []))
    case (Leave(id), Sleeping(_)) => Some(WithStream(s, id, Broken, []))
    case _ => None
  }

  function Next(s: State, a: Action): Option<State> {
    match a
    case Open(id, vehicle, request) =>
      if id in s.streams then None
      else Some(s.(streams := s.streams[id := Stream(vehicle, request, Opened, [Ok])]))
    case Deliver(i) =>
      if i >= |s.toVehicle| then None
      else Some(s.(toVehicle := Remove(s.toVehicle, i), running := s.running + [s.toVehicle[i]]))
    case Finish(i, response) =>
      if i >= |s.running| then None
      else
        var m := s.running[i];
        Some(s.(running := Remove(s.running, i),
                returning := s.returning + [Reply(m.number, response)],
                executed := s.executed + [Execution(m.vehicle, m.request, m.number, response)]))
    case Crash(i) =>
      if i >= |s.running| then None
      else Some(s.(running := Remove(s.running, i), lost := s.lost + [s.running[i].number]))
    case Receive(i) =>
      if i >= |s.returning| then None
      else
        var r := s.returning[i];
        Some(s.(returning := Remove(s.returning, i), controller := Record(s.controller, r.number, r.response)))
    case LoseRequest(i) =>
      if i >= |s.toVehicle| then None
      else Some(s.(toVehicle := Remove(s.toVehicle, i), lost := s.lost + [s.toVehicle[i].number]))
    case LoseReply(i) =>
      if i >= |s.returning| then None
      else Some(s.(returning := Remove(s.returning, i), lost := s.lost + [s.returning[i].number]))
    case _ =>
      if a.id !in s.streams then None else StreamStep(s, a)
  }

  /** The state after a sequence of actions from `s`, if each is possible in turn. */
  ghost function Execute(s: State, actions: seq<Action>): Option<State> {
    if actions == [] then Some(s)
    else
      var before := Execute(s, actions[..|actions| - 1]);
      if before.None? then None else Next(before.value, actions[|actions| - 1])
  }

  // ----- where the numbers are -----

  ghost function Requests(q: seq<Message>, n: nat): nat {
    if q == [] then 0 else Requests(q[..|q| - 1], n) + if q[|q| - 1].number == n then 1 else 0
  }

  ghost function Replies(q: seq<Reply>, n: nat): nat {
    if q == [] then 0 else Replies(q[..|q| - 1], n) + if q[|q| - 1].number == n then 1 else 0
  }

  ghost function Losses(q: seq<nat>, n: nat): nat {
    if q == [] then 0 else Losses(q[..|q| - 1], n) + if q[|q| - 1] == n then 1 else 0
  }

  /** The stream that got number `n` has not sent it yet. */
  ghost predicate Held(s: State, n: nat) {
    n in s.owner && s.owner[n] in s.streams && s.streams[s.owner[n]].pc == Numbered(n)
  }

  /** How many times number `n` is to be found, over every place it can be: with its
      stream, on its way to a vehicle, running, on its way back, recorded, lost. */
  ghost function Places(s: State, n: nat): nat {
    (if Held(s, n) then 1 else 0) + Requests(s.toVehicle, n) + Requests(s.running, n) + Replies(s.returning, n)
      + (if n in s.controller.responses then 1 else 0) + Losses(s.lost, n)
  }

  /** Each issued number is in exactly one place, other numbers are nowhere. */
  ghost predicate OnePlaceEach(s: State) {
    forall n: nat :: Places(s, n) == if n < s.controller.next then 1 else 0
  }

  /** Number `n` belongs to a stream, and `m` carries that stream's request. */
  ghost predicate Carries(s: State, m: Message) {
    && m.number in s.owner && s.owner[m.number] in s.streams
    && m.vehicle == s.streams[s.owner[m.number]].vehicle
    && m.request == s.streams[s.owner[m.number]].request
  }

  /** The response came from running the request of the stream that owns `n`. */
  ghost predicate Produced(s: State, n: nat, response: Response) {
    && n in s.owner && s.owner[n] in s.streams
    && Execution(s.streams[s.owner[n]].vehicle, s.streams[s.owner[n]].request, n, response) in s.executed
  }

  ghost function NumberOf(pc: Pc): Option<nat> {
    match pc
    case Numbered(n) => Some(n)
    case Waiting(n) => Some(n)
    case Sleeping(n) => Some(n)
    case Done(n) => Some(n)
    case _ => None
  }

  /** `k` reports after the first OK. */
  ghost function Reports(k: nat): seq<Out> {
    if k == 0 then [Ok] else Reports(k - 1) + [InProgress]
  }

  ghost predicate StreamOk(s: State, id: nat, stream: Stream) {
    && (NumberOf(stream.pc).Some? ==> NumberOf(stream.pc).value in s.owner && s.owner[NumberOf(stream.pc).value] == id)
    && match stream.pc
       case Opened => stream.out == Reports(0)
       case Numbered(_) => stream.out == Reports(0)
       case Waiting(_) => exists k: nat :: stream.out == Reports(k)
       case Sleeping(_) => exists k: nat :: k >= 1 && stream.out == Reports(k)
       case Done(n) => n in s.controller.responses
                       && exists k: nat :: k >= 1 && stream.out == Reports(k) + [Final(s.controller.responses[n])]
       case Broken => true
  }

  ghost predicate NumbersOk(s: State) {
    && (forall n: nat :: n in s.owner <==> n < s.controller.next)
    && (forall n: nat :: n in s.owner ==> s.owner[n] in s.streams)
    && OnePlaceEach(s)
  }

  /** No number runs twice, and what has run is no longer on its way to run. */
  ghost predicate RunsOnce(s: State) {
    && (forall i, j :: 0 <= i < j < |s.executed| ==> s.executed[i].number != s.executed[j].number)
    && (forall i :: 0 <= i < |s.executed| ==>
          var n := s.executed[i].number;
          n in s.owner && !Held(s, n) && Requests(s.toVehicle, n) + Requests(s.running, n) == 0)
  }

  ghost predicate CargoOk(s: State) {
    && (forall i :: 0 <= i < |s.toVehicle| ==> Carries(s, s.toVehicle[i]))
    && (forall i :: 0 <= i < |s.running| ==> Carries(s, s.running[i]))
    && (forall i :: 0 <= i < |s.returning| ==> Produced(s, s.returning[i].number, s.returning[i].response))
    && (forall n: nat :: n in s.controller.responses ==> Produced(s, n, s.controller.responses[n]))
  }

  ghost predicate StreamsOk(s: State) {
    forall id :: id in s.streams ==> StreamOk(s, id, s.streams[id])
  }

  ghost predicate Inv(s: State) {
    NumbersOk(s) && RunsOnce(s) && CargoOk(s) && StreamsOk(s)
  }
}
