/** Every run of the swarm protocol keeps each number in one place and each reply
    with its own request; what the streams yield follows. */
module SwarmSafety {
  import opened Wrappers
  import opened SwarmController
  import opened SwarmProtocol

  // ----- bags -----

  lemma RequestsAppend(q: seq<Message>, m: Message, n: nat)
    ensures Requests(q + [m], n) == Requests(q, n) + if m.number == n then 1 else 0
  {
    assert (q + [m])[..|q|] == q;
  }

  lemma RepliesAppend(q: seq<Reply>, r: Reply, n: nat)
    ensures Replies(q + [r], n) == Replies(q, n) + if r.number == n then 1 else 0
  {
    assert (q + [r])[..|q|] == q;
  }

  lemma LossesAppend(q: seq<nat>, m: nat, n: nat)
    ensures Losses(q + [m], n) == Losses(q, n) + if m == n then 1 else 0
  {
    assert (q + [m])[..|q|] == q;
  }

  lemma {:induction false} RequestsRemove(q: seq<Message>, i: nat, n: nat)
    requires i < |q|
    ensures Requests(q, n) == Requests(Remove(q, i), n) + if q[i].number == n then 1 else 0
  {
    var last := |q| - 1;
    if i < last {
      RequestsRemove(q[..last], i, n);
      assert Remove(q, i) == Remove(q[..last], i) + [q[last]];
      RequestsAppend(Remove(q[..last], i), q[last], n);
    } else {
      assert Remove(q, i) == q[..last];
    }
  }

  lemma {:induction false} RepliesRemove(q: seq<Reply>, i: nat, n: nat)
    requires i < |q|
    ensures Replies(q, n) == Replies(Remove(q, i), n) + if q[i].number == n then 1 else 0
  {
    var last := |q| - 1;
    if i < last {
      RepliesRemove(q[..last], i, n);
      assert Remove(q, i) == Remove(q[..last], i) + [q[last]];
      RepliesAppend(Remove(q[..last], i), q[last], n);
    } else {
      assert Remove(q, i) == q[..last];
    }
  }

  lemma RemoveMembers<T>(q: seq<T>, i: nat, k: nat)
    requires i < |q| && k < |Remove(q, i)|
    ensures Remove(q, i)[k] in q
  {}

  // ----- one stream moves on -----

  /** Only stream `id` changed, and it stays the same request. */
  ghost predicate OnlyStreamChanged(s: State, s': State, id: nat) {
    && id in s.streams && s'.streams.Keys == s.streams.Keys
    && (forall u :: u in s.streams && u != id ==> s'.streams[u] == s.streams[u])
    && s'.streams[id].vehicle == s.streams[id].vehicle && s'.streams[id].request == s.streams[id].request
    && s'.owner == s.owner && s'.controller == s.controller && s'.running == s.running
    && s'.returning == s.returning && s'.executed == s.executed
  }

  lemma StreamCargo(s: State, s': State, id: nat)
    requires CargoOk(s) && OnlyStreamChanged(s, s', id)
    requires forall i :: 0 <= i < |s'.toVehicle| ==> s'.toVehicle[i] in s.toVehicle || Carries(s, s'.toVehicle[i])
    ensures CargoOk(s')
  {
    forall i | 0 <= i < |s'.toVehicle| ensures Carries(s', s'.toVehicle[i]) {
      assert Carries(s, s'.toVehicle[i]);
    }
    forall i | 0 <= i < |s'.running| ensures Carries(s', s'.running[i]) {
      assert Carries(s, s.running[i]);
    }
    forall i | 0 <= i < |s'.returning| ensures Produced(s', s'.returning[i].number, s'.returning[i].response) {
      assert Produced(s, s.returning[i].number, s.returning[i].response);
    }
    forall n: nat | n in s'.controller.responses ensures Produced(s', n, s'.controller.responses[n]) {
      assert Produced(s, n, s.controller.responses[n]);
    }
  }

  lemma StreamStreams(s: State, s': State, id: nat)
    requires StreamsOk(s) && OnlyStreamChanged(s, s', id) && StreamOk(s', id, s'.streams[id])
    ensures StreamsOk(s')
  {
    forall u | u in s'.streams ensures StreamOk(s', u, s'.streams[u]) {
      assert StreamOk(s, u, s.streams[u]);
    }
  }

  /** Report, Poll and the departures of a stream that holds no unsent number. */
  lemma QuietStreamStep(s: State, s': State, id: nat)
    requires Inv(s) && OnlyStreamChanged(s, s', id)
    requires s'.toVehicle == s.toVehicle && s'.lost == s.lost
    requires !s.streams[id].pc.Numbered? && !s'.streams[id].pc.Numbered?
    requires StreamOk(s', id, s'.streams[id])
    ensures Inv(s')
  {
    StreamCargo(s, s', id);
    StreamStreams(s, s', id);
    forall n: nat ensures Held(s', n) <==> Held(s, n) {}
    forall n: nat ensures Places(s', n) == Places(s, n) {}
  }

  lemma ReportKeepsInv(s: State, id: nat)
    requires Inv(s) && id in s.streams && StreamStep(s, Report(id)).Some?
    ensures Inv(StreamStep(s, Report(id)).value)
  {
    var s' := StreamStep(s, Report(id)).value;
    assert StreamOk(s, id, s.streams[id]);
    var k: nat :| s.streams[id].out == Reports(k);
    assert s'.streams[id].out == Reports(k + 1);
    QuietStreamStep(s, s', id);
  }

  lemma PollKeepsInv(s: State, id: nat)
    requires Inv(s) && id in s.streams && StreamStep(s, Poll(id)).Some?
    ensures Inv(StreamStep(s, Poll(id)).value)
  {
    var s' := StreamStep(s, Poll(id)).value;
    assert StreamOk(s, id, s.streams[id]);
    var k: nat :| k >= 1 && s.streams[id].out == Reports(k);
    assert Reports(k) + [] == Reports(k);
    QuietStreamStep(s, s', id);
  }

  lemma LeaveKeepsInv(s: State, id: nat)
    requires Inv(s) && id in s.streams && !s.streams[id].pc.Numbered? && StreamStep(s, Leave(id)).Some?
    ensures Inv(StreamStep(s, Leave(id)).value)
  {
    QuietStreamStep(s, StreamStep(s, Leave(id)).value, id);
  }

  /** Sending or giving up a held number: `extra` says where it went. */
  lemma HeldNumberMoves(s: State, s': State, id: nat)
    requires Inv(s) && OnlyStreamChanged(s, s', id)
    requires s.streams[id].pc.Numbered? && !s'.streams[id].pc.Numbered?
    ensures var m := s.streams[id].pc.number;
            && Held(s, m) && m in s.owner
            && forall n: nat :: Held(s', n) <==> Held(s, n) && n != m
  {
    assert StreamOk(s, id, s.streams[id]);
  }

  /** A held number has not run. */
  lemma HeldHasNotRun(s: State, m: nat)
    requires RunsOnce(s) && Held(s, m)
    ensures forall i :: 0 <= i < |s.executed| ==> s.executed[i].number != m
  {}

  lemma DropPlaces(s: State, s': State, id: nat, n: nat)
    requires Inv(s) && OnlyStreamChanged(s, s', id) && s.streams[id].pc.Numbered? && !s'.streams[id].pc.Numbered?
    requires s'.toVehicle == s.toVehicle && s'.lost == s.lost + [s.streams[id].pc.number]
    ensures Places(s', n) == Places(s, n)
  {
    HeldNumberMoves(s, s', id);
    LossesAppend(s.lost, s.streams[id].pc.number, n);
  }

  /** A number given up before it was sent is lost. */
  lemma DropKeepsInv(s: State, id: nat, out: seq<Out>)
    requires Inv(s) && id in s.streams && s.streams[id].pc.Numbered?
    ensures Inv(WithStream(s, id, Broken, out).(lost := s.lost + [s.streams[id].pc.number]))
  {
    var s' := WithStream(s, id, Broken, out).(lost := s.lost + [s.streams[id].pc.number]);
    StreamCargo(s, s', id);
    StreamStreams(s, s', id);
    HeldNumberMoves(s, s', id);
    forall n: nat ensures Places(s', n) == Places(s, n) {
      DropPlaces(s, s', id, n);
    }
  }

  lemma SendRunsOnce(s: State, s': State, id: nat)
    requires Inv(s) && id in s.streams && StreamStep(s, Send(id)) == Some(s')
    ensures RunsOnce(s')
  {
    var m := s.streams[id].pc.number;
    HeldNumberMoves(s, s', id);
    HeldHasNotRun(s, m);
    forall i | 0 <= i < |s'.executed|
      ensures var n := s'.executed[i].number;
              n in s'.owner && !Held(s', n) && Requests(s'.toVehicle, n) + Requests(s'.running, n) == 0
    {
      RequestsAppend(s.toVehicle, s'.toVehicle[|s.toVehicle|], s'.executed[i].number);
      assert !Held(s, s.executed[i].number);
    }
  }

  lemma SendKeepsInv(s: State, id: nat)
    requires Inv(s) && id in s.streams && StreamStep(s, Send(id)).Some?
    ensures Inv(StreamStep(s, Send(id)).value)
  {
    var s' := StreamStep(s, Send(id)).value;
    assert StreamOk(s, id, s.streams[id]);
    assert s.streams[id].out + [] == s.streams[id].out;
    StreamCargo(s, s', id);
    StreamStreams(s, s', id);
    HeldNumberMoves(s, s', id);
    SendRunsOnce(s, s', id);
    forall n: nat ensures Places(s', n) == Places(s, n) {
      SendPlaces(s, s', id, n);
    }
  }

  lemma SendPlaces(s: State, s': State, id: nat, n: nat)
    requires id in s.streams && StreamStep(s, Send(id)) == Some(s')
    requires Held(s, s.streams[id].pc.number) && (Held(s', n) <==> Held(s, n) && n != s.streams[id].pc.number)
    ensures Places(s', n) == Places(s, n)
  {
    RequestsAppend(s.toVehicle, s'.toVehicle[|s.toVehicle|], n);
  }

  // ----- streams that are new or get a number -----

  lemma MoreOwnersKeepCargo(s: State, s': State)
    requires CargoOk(s) && s'.toVehicle == s.toVehicle && s'.running == s.running && s'.returning == s.returning
    requires s'.controller.responses == s.controller.responses && s'.executed == s.executed
    requires forall n: nat :: n in s.owner ==> n in s'.owner && s'.owner[n] == s.owner[n]
    requires s.streams.Keys <= s'.streams.Keys
    requires forall u | u in s.streams ::
      s'.streams[u].vehicle == s.streams[u].vehicle && s'.streams[u].request == s.streams[u].request
    ensures CargoOk(s')
  {
    forall i | 0 <= i < |s'.toVehicle| ensures Carries(s', s'.toVehicle[i]) {
      assert Carries(s, s.toVehicle[i]);
    }
    forall i | 0 <= i < |s'.running| ensures Carries(s', s'.running[i]) {
      assert Carries(s, s.running[i]);
    }
    forall i | 0 <= i < |s'.returning| ensures Produced(s', s'.returning[i].number, s'.returning[i].response) {
      assert Produced(s, s.returning[i].number, s.returning[i].response);
    }
    forall n: nat | n in s'.controller.responses ensures Produced(s', n, s'.controller.responses[n]) {
      assert Produced(s, n, s.controller.responses[n]);
    }
  }

  /** The state after stream `id` got the next number. */
  function Issued(s: State, id: nat): State
    requires id in s.streams
  {
    WithStream(s, id, Numbered(s.controller.next), []).(
      controller := Issue(s.controller).1, owner := s.owner[s.controller.next := id])
  }

  lemma IssuedPlaces(s: State, id: nat, n: nat)
    requires NumbersOk(s) && id in s.streams && s.streams[id].pc.Opened?
    ensures Held(Issued(s, id), n) <==> Held(s, n) || n == s.controller.next
    ensures Places(Issued(s, id), n) == Places(s, n) + if n == s.controller.next then 1 else 0
  {
    assert s.controller.next !in s.owner;
  }

  lemma IssuedNumbers(s: State, id: nat)
    requires NumbersOk(s) && id in s.streams && s.streams[id].pc.Opened?
    ensures NumbersOk(Issued(s, id))
  {
    var s' := Issued(s, id);
    forall n: nat ensures Places(s', n) == if n < s'.controller.next then 1 else 0 {
      IssuedPlaces(s, id, n);
      assert Places(s, n) == if n < s.controller.next then 1 else 0;
    }
  }

  lemma IssuedRunsOnce(s: State, id: nat)
    requires NumbersOk(s) && RunsOnce(s) && id in s.streams && s.streams[id].pc.Opened?
    ensures RunsOnce(Issued(s, id))
  {
    forall i | 0 <= i < |s.executed| ensures !Held(Issued(s, id), s.executed[i].number) {
      IssuedPlaces(s, id, s.executed[i].number);
    }
  }

  lemma IssuedStreams(s: State, id: nat)
    requires NumbersOk(s) && StreamsOk(s) && id in s.streams && s.streams[id].pc.Opened?
    ensures StreamsOk(Issued(s, id))
  {
    var s' := Issued(s, id);
    assert s.controller.next !in s.owner;
    assert s.streams[id].out + [] == s.streams[id].out;
    forall u | u in s'.streams ensures StreamOk(s', u, s'.streams[u]) {
      assert StreamOk(s, u, s.streams[u]);
    }
  }

  lemma NumberKeepsInv(s: State, id: nat)
    requires Inv(s) && id in s.streams && StreamStep(s, Number(id)).Some?
    ensures Inv(StreamStep(s, Number(id)).value)
  {
    assert StreamStep(s, Number(id)).value == Issued(s, id);
    MoreOwnersKeepCargo(s, Issued(s, id));
    IssuedNumbers(s, id);
    IssuedRunsOnce(s, id);
    IssuedStreams(s, id);
  }

  /** The state after stream `id` was opened. */
  function WithOpened(s: State, id: nat, vehicle: string, request: string): State {
    s.(streams := s.streams[id := Stream(vehicle, request, Opened, [Ok])])
  }

  lemma OpenedPlaces(s: State, id: nat, vehicle: string, request: string, n: nat)
    requires NumbersOk(s) && id !in s.streams
    ensures Held(WithOpened(s, id, vehicle, request), n) <==> Held(s, n)
    ensures Places(WithOpened(s, id, vehicle, request), n) == Places(s, n)
  {}

  lemma OpenedStreams(s: State, id: nat, vehicle: string, request: string)
    requires StreamsOk(s) && id !in s.streams
    ensures StreamsOk(WithOpened(s, id, vehicle, request))
  {
    var s' := WithOpened(s, id, vehicle, request);
    forall u | u in s'.streams ensures StreamOk(s', u, s'.streams[u]) {
      if u != id { assert StreamOk(s, u, s.streams[u]); }
    }
  }

  lemma OpenedNumbers(s: State, id: nat, vehicle: string, request: string)
    requires NumbersOk(s) && RunsOnce(s) && id !in s.streams
    ensures NumbersOk(WithOpened(s, id, vehicle, request)) && RunsOnce(WithOpened(s, id, vehicle, request))
  {
    forall n: nat
      ensures Held(WithOpened(s, id, vehicle, request), n) <==> Held(s, n)
      ensures Places(WithOpened(s, id, vehicle, request), n) == Places(s, n)
    {
      OpenedPlaces(s, id, vehicle, request, n);
    }
  }

  lemma OpenKeepsInv(s: State, id: nat, vehicle: string, request: string)
    requires Inv(s) && id !in s.streams
    ensures Inv(WithOpened(s, id, vehicle, request))
  {
    MoreOwnersKeepCargo(s, WithOpened(s, id, vehicle, request));
    OpenedNumbers(s, id, vehicle, request);
    OpenedStreams(s, id, vehicle, request);
  }

  // ----- the network and the vehicles -----

  /** Actions that touch no stream, no number and no recorded response, and only
      move messages and replies on. */
  ghost predicate Transport(s: State, s': State) {
    && s'.streams == s.streams && s'.owner == s.owner && s'.controller == s.controller
    && s'.executed == s.executed
    && (forall i :: 0 <= i < |s'.toVehicle| ==> s'.toVehicle[i] in s.toVehicle)
    && (forall i :: 0 <= i < |s'.running| ==> s'.running[i] in s.running || s'.running[i] in s.toVehicle)
    && (forall i :: 0 <= i < |s'.returning| ==> s'.returning[i] in s.returning)
  }

  lemma TransportCargo(s: State, s': State)
    requires CargoOk(s) && Transport(s, s')
    ensures CargoOk(s')
  {
    forall i | 0 <= i < |s'.toVehicle| ensures Carries(s', s'.toVehicle[i]) {
      assert Carries(s, s'.toVehicle[i]);
    }
    forall i | 0 <= i < |s'.running| ensures Carries(s', s'.running[i]) {
      assert Carries(s, s'.running[i]);
    }
    forall i | 0 <= i < |s'.returning| ensures Produced(s', s'.returning[i].number, s'.returning[i].response) {
      assert Produced(s, s'.returning[i].number, s'.returning[i].response);
    }
    forall n: nat | n in s'.controller.responses ensures Produced(s', n, s'.controller.responses[n]) {
      assert Produced(s, n, s.controller.responses[n]);
    }
  }

  lemma TransportStreams(s: State, s': State)
    requires StreamsOk(s) && s'.streams == s.streams && s'.owner == s.owner && s'.controller == s.controller
    ensures StreamsOk(s')
  {
    forall u | u in s'.streams ensures StreamOk(s', u, s'.streams[u]) {
      assert StreamOk(s, u, s.streams[u]);
    }
  }

  lemma TransportKeepsInv(s: State, s': State)
    requires Inv(s) && Transport(s, s')
    requires forall n: nat :: Places(s', n) == Places(s, n)
    requires forall n: nat ::
      Requests(s'.toVehicle, n) + Requests(s'.running, n) <= Requests(s.toVehicle, n) + Requests(s.running, n)
    ensures Inv(s')
  {
    TransportCargo(s, s');
    TransportStreams(s, s');
    forall i | 0 <= i < |s'.executed|
      ensures !Held(s', s'.executed[i].number)
      ensures Requests(s'.toVehicle, s'.executed[i].number) + Requests(s'.running, s'.executed[i].number) == 0
    {
      assert !Held(s, s.executed[i].number);
    }
  }

  /** Whether a number is held depends on the streams and their owners alone. */
  lemma HeldKept(s: State, s': State, n: nat)
    requires s'.streams == s.streams && s'.owner == s.owner
    ensures Held(s', n) <==> Held(s, n)
  {}

  /** What leaves one of the bags for another, or is recorded or lost, stays in one place. */
  lemma SamePlaces(s: State, s': State, n: nat)
    requires s'.streams == s.streams && s'.owner == s.owner
    requires Requests(s.toVehicle, n) + Requests(s.running, n) + Replies(s.returning, n)
               + (if n in s.controller.responses then 1 else 0) + Losses(s.lost, n)
          == Requests(s'.toVehicle, n) + Requests(s'.running, n) + Replies(s'.returning, n)
               + (if n in s'.controller.responses then 1 else 0) + Losses(s'.lost, n)
    ensures Places(s', n) == Places(s, n)
  {
    HeldKept(s, s', n);
  }

  /** Delivering the `i`th message of a bag to another. */
  lemma DeliveredFrom(q: seq<Message>, q': seq<Message>, to: seq<Message>, to': seq<Message>, i: nat, n: nat)
    requires i < |q| && q' == Remove(q, i) && to' == to + [q[i]]
    ensures Requests(q', n) + Requests(to', n) == Requests(q, n) + Requests(to, n)
  {
    RequestsRemove(q, i, n);
    RequestsAppend(to, q[i], n);
  }

  lemma DeliverPlaces(s: State, s': State, i: nat, n: nat)
    requires i < |s.toVehicle| && s' == s.(toVehicle := Remove(s.toVehicle, i), running := s.running + [s.toVehicle[i]])
    ensures Requests(s'.toVehicle, n) + Requests(s'.running, n) == Requests(s.toVehicle, n) + Requests(s.running, n)
    ensures Places(s', n) == Places(s, n)
  {
    DeliveredFrom(s.toVehicle, s'.toVehicle, s.running, s'.running, i, n);
    SamePlaces(s, s', n);
  }

  lemma DeliverKeepsInv(s: State, i: nat)
    requires Inv(s) && i < |s.toVehicle|
    ensures Inv(Next(s, Deliver(i)).value)
  {
    var s' := Next(s, Deliver(i)).value;
    forall n: nat
      ensures Requests(s'.toVehicle, n) + Requests(s'.running, n) == Requests(s.toVehicle, n) + Requests(s.running, n)
      ensures Places(s', n) == Places(s, n)
    {
      DeliverPlaces(s, s', i, n);
    }
    TransportKeepsInv(s, s');
  }

  /** Losing the `i`th message of a bag. */
  lemma LostFrom(q: seq<Message>, q': seq<Message>, lost: seq<nat>, lost': seq<nat>, i: nat, n: nat)
    requires i < |q| && q' == Remove(q, i) && lost' == lost + [q[i].number]
    ensures Requests(q, n) == Requests(q', n) + if q[i].number == n then 1 else 0
    ensures Losses(lost', n) == Losses(lost, n) + if q[i].number == n then 1 else 0
  {
    RequestsRemove(q, i, n);
    LossesAppend(lost, q[i].number, n);
  }

  lemma LoseRequestPlaces(s: State, s': State, i: nat, n: nat)
    requires i < |s.toVehicle|
    requires s' == s.(toVehicle := Remove(s.toVehicle, i), lost := s.lost + [s.toVehicle[i].number])
    ensures Requests(s'.toVehicle, n) <= Requests(s.toVehicle, n)
    ensures Places(s', n) == Places(s, n)
  {
    LostFrom(s.toVehicle, s'.toVehicle, s.lost, s'.lost, i, n);
    SamePlaces(s, s', n);
  }

  lemma LoseRequestKeepsInv(s: State, i: nat)
    requires Inv(s) && i < |s.toVehicle|
    ensures Inv(Next(s, LoseRequest(i)).value)
  {
    var s' := Next(s, LoseRequest(i)).value;
    forall n: nat ensures Requests(s'.toVehicle, n) <= Requests(s.toVehicle, n) && Places(s', n) == Places(s, n) {
      LoseRequestPlaces(s, s', i, n);
    }
    TransportKeepsInv(s, s');
  }

  lemma CrashPlaces(s: State, s': State, i: nat, n: nat)
    requires i < |s.running| && s' == s.(running := Remove(s.running, i), lost := s.lost + [s.running[i].number])
    ensures Requests(s'.running, n) <= Requests(s.running, n)
    ensures Places(s', n) == Places(s, n)
  {
    LostFrom(s.running, s'.running, s.lost, s'.lost, i, n);
    SamePlaces(s, s', n);
  }

  lemma CrashKeepsInv(s: State, i: nat)
    requires Inv(s) && i < |s.running|
    ensures Inv(Next(s, Crash(i)).value)
  {
    var s' := Next(s, Crash(i)).value;
    forall n: nat ensures Requests(s'.running, n) <= Requests(s.running, n) && Places(s', n) == Places(s, n) {
      CrashPlaces(s, s', i, n);
    }
    TransportKeepsInv(s, s');
  }

  lemma LostReply(q: seq<Reply>, q': seq<Reply>, lost: seq<nat>, lost': seq<nat>, i: nat, n: nat)
    requires i < |q| && q' == Remove(q, i) && lost' == lost + [q[i].number]
    ensures Replies(q', n) + Losses(lost', n) == Replies(q, n) + Losses(lost, n)
  {
    RepliesRemove(q, i, n);
    LossesAppend(lost, q[i].number, n);
  }

  lemma LoseReplyPlaces(s: State, s': State, i: nat, n: nat)
    requires i < |s.returning|
    requires s' == s.(returning := Remove(s.returning, i), lost := s.lost + [s.returning[i].number])
    ensures Places(s', n) == Places(s, n)
  {
    LostReply(s.returning, s'.returning, s.lost, s'.lost, i, n);
    SamePlaces(s, s', n);
  }

  lemma LoseReplyKeepsInv(s: State, i: nat)
    requires Inv(s) && i < |s.returning|
    ensures Inv(Next(s, LoseReply(i)).value)
  {
    var s' := Next(s, LoseReply(i)).value;
    forall n: nat ensures Places(s', n) == Places(s, n) {
      LoseReplyPlaces(s, s', i, n);
    }
    TransportKeepsInv(s, s');
  }

  /** A number that is running is nowhere else, and has not run before. */
  lemma RunningIsOnlyThere(s: State, i: nat)
    requires Inv(s) && i < |s.running|
    ensures var m := s.running[i].number;
            && m in s.owner && !Held(s, m) && Requests(s.toVehicle, m) == 0 && Requests(Remove(s.running, i), m) == 0
            && forall k :: 0 <= k < |s.executed| ==> s.executed[k].number != m
  {
    var m := s.running[i].number;
    RequestsRemove(s.running, i, m);
    assert Carries(s, s.running[i]);
    assert Places(s, m) == 1;
  }

  lemma FinishCargo(s: State, s': State, i: nat, response: Response)
    requires CargoOk(s) && i < |s.running| && s' == s.(running := Remove(s.running, i),
                       returning := s.returning + [Reply(s.running[i].number, response)],
                       executed := s.executed
                         + [Execution(s.running[i].vehicle, s.running[i].request, s.running[i].number, response)])
    ensures CargoOk(s')
  {
    var m := s.running[i];
    assert s'.executed[|s.executed|] == Execution(m.vehicle, m.request, m.number, response);
    forall k | 0 <= k < |s'.toVehicle| ensures Carries(s', s'.toVehicle[k]) {
      assert Carries(s, s.toVehicle[k]);
    }
    forall k | 0 <= k < |s'.running| ensures Carries(s', s'.running[k]) {
      RemoveMembers(s.running, i, k);
      assert Carries(s, s'.running[k]);
    }
    forall k | 0 <= k < |s'.returning| ensures Produced(s', s'.returning[k].number, s'.returning[k].response) {
      if k < |s.returning| {
        assert Produced(s, s.returning[k].number, s.returning[k].response);
      } else {
        assert Carries(s, m);
      }
    }
    forall n: nat | n in s'.controller.responses ensures Produced(s', n, s'.controller.responses[n]) {
      assert Produced(s, n, s.controller.responses[n]);
    }
  }

  lemma FinishRunsOnce(s: State, s': State, i: nat, response: Response)
    requires Inv(s) && i < |s.running| && s' == s.(running := Remove(s.running, i),
                       returning := s.returning + [Reply(s.running[i].number, response)],
                       executed := s.executed
                         + [Execution(s.running[i].vehicle, s.running[i].request, s.running[i].number, response)])
    ensures RunsOnce(s')
  {
    RunningIsOnlyThere(s, i);
    forall k | 0 <= k < |s'.executed|
      ensures var n := s'.executed[k].number;
              n in s'.owner && !Held(s', n) && Requests(s'.toVehicle, n) + Requests(s'.running, n) == 0
    {
      if k < |s.executed| {
        assert !Held(s, s.executed[k].number);
        RequestsRemove(s.running, i, s.executed[k].number);
      }
    }
  }

  /** The `i`th running command ends and its reply sets out. */
  lemma AnsweredFrom(q: seq<Message>, q': seq<Message>, to: seq<Reply>, to': seq<Reply>, i: nat, response: Response,
                     n: nat)
    requires i < |q| && q' == Remove(q, i) && to' == to + [Reply(q[i].number, response)]
    ensures Requests(q', n) + Replies(to', n) == Requests(q, n) + Replies(to, n)
  {
    RequestsRemove(q, i, n);
    RepliesAppend(to, Reply(q[i].number, response), n);
  }

  lemma FinishPlaces(s: State, s': State, i: nat, response: Response, n: nat)
    requires i < |s.running| && s' == s.(running := Remove(s.running, i),
                       returning := s.returning + [Reply(s.running[i].number, response)],
                       executed := s.executed
                         + [Execution(s.running[i].vehicle, s.running[i].request, s.running[i].number, response)])
    ensures Places(s', n) == Places(s, n)
  {
    AnsweredFrom(s.running, s'.running, s.returning, s'.returning, i, response, n);
    SamePlaces(s, s', n);
  }

  lemma FinishKeepsInv(s: State, i: nat, response: Response)
    requires Inv(s) && i < |s.running|
    ensures Inv(Next(s, Finish(i, response)).value)
  {
    var s' := Next(s, Finish(i, response)).value;
    FinishCargo(s, s', i, response);
    TransportStreams(s, s');
    FinishRunsOnce(s, s', i, response);
    forall n: nat ensures Places(s', n) == Places(s, n) {
      FinishPlaces(s, s', i, response, n);
    }
  }

  /** A reply on its way back has not been recorded yet. */
  lemma ReturningIsNotRecorded(s: State, i: nat)
    requires Inv(s) && i < |s.returning|
    ensures s.returning[i].number !in s.controller.responses
  {
    RepliesRemove(s.returning, i, s.returning[i].number);
    assert Places(s, s.returning[i].number) <= 1;
  }

  lemma ReceiveCargo(s: State, s': State, i: nat)
    requires CargoOk(s) && i < |s.returning| && s' == s.(returning := Remove(s.returning, i),
                       controller := Record(s.controller, s.returning[i].number, s.returning[i].response))
    ensures CargoOk(s')
  {
    forall k | 0 <= k < |s'.toVehicle| ensures Carries(s', s'.toVehicle[k]) {
      assert Carries(s, s.toVehicle[k]);
    }
    forall k | 0 <= k < |s'.running| ensures Carries(s', s'.running[k]) {
      assert Carries(s, s.running[k]);
    }
    forall k | 0 <= k < |s'.returning| ensures Produced(s', s'.returning[k].number, s'.returning[k].response) {
      RemoveMembers(s.returning, i, k);
      assert Produced(s, s'.returning[k].number, s'.returning[k].response);
    }
    forall n: nat | n in s'.controller.responses ensures Produced(s', n, s'.controller.responses[n]) {
      if n == s.returning[i].number {
        assert Produced(s, n, s.returning[i].response);
      } else {
        assert Produced(s, n, s.controller.responses[n]);
      }
    }
  }

  lemma ReceivePlaces(s: State, s': State, i: nat, n: nat)
    requires i < |s.returning| && s' == s.(returning := Remove(s.returning, i),
                       controller := Record(s.controller, s.returning[i].number, s.returning[i].response))
    requires s.returning[i].number !in s.controller.responses
    ensures Places(s', n) == Places(s, n) && (Held(s', n) <==> Held(s, n))
  {
    RepliesRemove(s.returning, i, n);
    HeldKept(s, s', n);
    SamePlaces(s, s', n);
  }

  lemma ReceiveStreams(s: State, s': State, i: nat)
    requires StreamsOk(s) && i < |s.returning| && s' == s.(returning := Remove(s.returning, i),
                       controller := Record(s.controller, s.returning[i].number, s.returning[i].response))
    requires s.returning[i].number !in s.controller.responses
    ensures StreamsOk(s')
  {
    forall u | u in s'.streams ensures StreamOk(s', u, s'.streams[u]) {
      assert StreamOk(s, u, s.streams[u]);
    }
  }

  lemma ReceiveKeepsInv(s: State, i: nat)
    requires Inv(s) && i < |s.returning|
    ensures Inv(Next(s, Receive(i)).value)
  {
    var s' := Next(s, Receive(i)).value;
    ReceiveCargo(s, s', i);
    ReturningIsNotRecorded(s, i);
    ReceiveStreams(s, s', i);
    forall n: nat ensures Places(s', n) == Places(s, n) && (Held(s', n) <==> Held(s, n)) {
      ReceivePlaces(s, s', i, n);
    }
  }

  // ----- every run -----

  lemma StreamActionKeepsInv(s: State, a: Action)
    requires Inv(s) && (a.Number? || a.Send? || a.SendFails? || a.Report? || a.Poll? || a.Leave?) && a.id in s.streams
    ensures StreamStep(s, a).Some? ==> Inv(StreamStep(s, a).value)
  {
    if StreamStep(s, a).Some? {
      match a
      case Number(id) => NumberKeepsInv(s, id);
      case Send(id) => SendKeepsInv(s, id);
      case SendFails(id) => DropKeepsInv(s, id, [Error]);
      case Report(id) => ReportKeepsInv(s, id);
      case Poll(id) => PollKeepsInv(s, id);
      case Leave(id) => if s.streams[id].pc.Numbered? { DropKeepsInv(s, id, []); } else { LeaveKeepsInv(s, id); }
    }
  }

  lemma NextKeepsInv(s: State, a: Action)
    requires Inv(s)
    ensures Next(s, a).Some? ==> Inv(Next(s, a).value)
  {
    if Next(s, a).Some? {
      match a
      case Open(id, vehicle, request) => OpenKeepsInv(s, id, vehicle, request);
      case Deliver(i) => DeliverKeepsInv(s, i);
      case Finish(i, response) => FinishKeepsInv(s, i, response);
      case Crash(i) => CrashKeepsInv(s, i);
      case Receive(i) => ReceiveKeepsInv(s, i);
      case LoseRequest(i) => LoseRequestKeepsInv(s, i);
      case LoseReply(i) => LoseReplyKeepsInv(s, i);
      case _ => StreamActionKeepsInv(s, a);
    }
  }

  lemma {:induction false} RunsKeepInv(s: State, actions: seq<Action>)
    requires Inv(s)
    ensures Execute(s, actions).Some? ==> Inv(Execute(s, actions).value)
  {
    if actions != [] {
      var before := actions[..|actions| - 1];
      RunsKeepInv(s, before);
      if Execute(s, before).Some? {
        NextKeepsInv(Execute(s, before).value, actions[|actions| - 1]);
      }
    }
  }

  lemma InitialInv()
    ensures Inv(Initial())
  {
    forall n: nat ensures Places(Initial(), n) == 0 {}
  }

  /** Main result: in every run, issued numbers belong to different streams and each
      is in exactly one of the places: with its stream, on its way to a vehicle,
      running, on its way back, recorded or lost. */
  lemma NumbersAreInOnePlace(actions: seq<Action>)
    requires Execute(Initial(), actions).Some?
    ensures var s := Execute(Initial(), actions).value;
            && (forall n: nat :: Places(s, n) == if n < s.controller.next then 1 else 0)
            && (forall id, id' :: id in s.streams && id' in s.streams && id != id' && NumberOf(s.streams[id].pc).Some?
                  ==> NumberOf(s.streams[id].pc) != NumberOf(s.streams[id'].pc))
  {
    InitialInv();
    RunsKeepInv(Initial(), actions);
    var s := Execute(Initial(), actions).value;
    forall id | id in s.streams ensures StreamOk(s, id, s.streams[id]) {}
  }

  /** Main result: a stream that ends with a response yielded OK, then IN_PROGRESS at
      least once, then the response to its own request: the one its own vehicle
      produced, in the only execution under its number. */
  lemma FinalResponseIsItsOwn(actions: seq<Action>, id: nat)
    requires Execute(Initial(), actions).Some?
    requires id in Execute(Initial(), actions).value.streams && Execute(Initial(), actions).value.streams[id].pc.Done?
    ensures var s := Execute(Initial(), actions).value;
            var stream := s.streams[id];
            exists k: nat, j: nat :: k >= 1 && j < |s.executed|
              && s.executed[j].vehicle == stream.vehicle && s.executed[j].request == stream.request
              && s.executed[j].number == stream.pc.number
              && stream.out == Reports(k) + [Final(s.executed[j].response)]
              && forall i :: 0 <= i < |s.executed| && s.executed[i].number == stream.pc.number ==> i == j
  {
    InitialInv();
    RunsKeepInv(Initial(), actions);
    var s := Execute(Initial(), actions).value;
    var n := s.streams[id].pc.number;
    assert StreamOk(s, id, s.streams[id]);
    var k: nat :| k >= 1 && s.streams[id].out == Reports(k) + [Final(s.controller.responses[n])];
    assert Produced(s, n, s.controller.responses[n]);
    var j :| 0 <= j < |s.executed|
        && s.executed[j] == Execution(s.streams[id].vehicle, s.streams[id].request, n, s.controller.responses[n]);
  }
}
