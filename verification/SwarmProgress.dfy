/** When a stream that waits for a response can still get it. */
module SwarmProgress {
  import opened Wrappers
  import opened SwarmController
  import opened SwarmProtocol
  import opened SwarmSafety

  // ----- a stream that is not lost can finish -----

  /** How many steps away the response of number `n` is. */
  ghost function Distance(s: State, id: nat, n: nat): nat
    requires id in s.streams
  {
    (if Requests(s.toVehicle, n) > 0 then 6 else if Requests(s.running, n) > 0 then 4
     else if Replies(s.returning, n) > 0 then 2 else 0)
    + (if s.streams[id].pc.Waiting? then 2 else if s.streams[id].pc.Sleeping? then 1 else 0)
  }

  lemma {:induction false} FindMessage(q: seq<Message>, n: nat) returns (i: nat)
    requires Requests(q, n) > 0
    ensures i < |q| && q[i].number == n
  {
    if q[|q| - 1].number == n { i := |q| - 1; } else { i := FindMessage(q[..|q| - 1], n); }
  }

  lemma {:induction false} FindReply(q: seq<Reply>, n: nat) returns (i: nat)
    requires Replies(q, n) > 0
    ensures i < |q| && q[i].number == n
  {
    if q[|q| - 1].number == n { i := |q| - 1; } else { i := FindReply(q[..|q| - 1], n); }
  }

  /** Stream `id` polls for the response to number `n`. */
  ghost predicate Waits(s: State, id: nat, n: nat) {
    id in s.streams && (s.streams[id].pc == Waiting(n) || s.streams[id].pc == Sleeping(n))
  }

  ghost predicate Pending(s: State, id: nat, n: nat) {
    Waits(s, id, n) && Losses(s.lost, n) == 0
  }

  /** `actions` is a run that ends the stream with a response. */
  ghost predicate Finishes(s: State, actions: seq<Action>, id: nat, n: nat) {
    var after := Execute(s, actions);
    after.Some? && id in after.value.streams && after.value.streams[id].pc == Done(n)
  }

  lemma PendingIsSomewhere(s: State, id: nat, n: nat)
    requires Inv(s) && Pending(s, id, n)
    ensures Requests(s.toVehicle, n) > 0 || Requests(s.running, n) > 0 || Replies(s.returning, n) > 0
         || n in s.controller.responses
  {
    assert StreamOk(s, id, s.streams[id]);
    assert Places(s, n) == 1;
    assert !Held(s, n);
  }

  ghost predicate Closer(s: State, s': State, id: nat, n: nat)
    requires id in s.streams
  {
    id in s'.streams
      && (s'.streams[id].pc == Done(n) || (Pending(s', id, n) && Distance(s', id, n) < Distance(s, id, n)))
  }

  lemma DeliverIsCloser(s: State, id: nat, n: nat) returns (a: Action)
    requires Inv(s) && Pending(s, id, n) && Requests(s.toVehicle, n) > 0
    ensures Next(s, a).Some? && Closer(s, Next(s, a).value, id, n)
  {
    var i := FindMessage(s.toVehicle, n);
    assert Places(s, n) <= 1;
    RequestsRemove(s.toVehicle, i, n);
    RequestsAppend(s.running, s.toVehicle[i], n);
    a := Deliver(i);
  }

  lemma FinishIsCloser(s: State, id: nat, n: nat) returns (a: Action)
    requires Inv(s) && Pending(s, id, n) && Requests(s.running, n) > 0
    ensures Next(s, a).Some? && Closer(s, Next(s, a).value, id, n)
  {
    var i := FindMessage(s.running, n);
    assert Places(s, n) <= 1;
    RequestsRemove(s.running, i, n);
    a := Finish(i, Response(0, ""));
  }

  lemma ReceiveIsCloser(s: State, id: nat, n: nat) returns (a: Action)
    requires Inv(s) && Pending(s, id, n) && Replies(s.returning, n) > 0
    ensures Next(s, a).Some? && Closer(s, Next(s, a).value, id, n)
  {
    var i := FindReply(s.returning, n);
    assert Places(s, n) <= 1;
    RepliesRemove(s.returning, i, n);
    a := Receive(i);
  }

  lemma RecordedIsCloser(s: State, id: nat, n: nat) returns (a: Action)
    requires Inv(s) && Pending(s, id, n) && n in s.controller.responses
    ensures Next(s, a).Some? && Closer(s, Next(s, a).value, id, n)
  {
    a := if s.streams[id].pc.Waiting? then Report(id) else Poll(id);
    assert Next(s, a) == StreamStep(s, a);
  }

  /** The next action that brings the response of `n` closer. */
  lemma CloserStep(s: State, id: nat, n: nat) returns (a: Action)
    requires Inv(s) && Pending(s, id, n)
    ensures Next(s, a).Some? && Closer(s, Next(s, a).value, id, n)
  {
    PendingIsSomewhere(s, id, n);
    if Requests(s.toVehicle, n) > 0 {
      a := DeliverIsCloser(s, id, n);
    } else if Requests(s.running, n) > 0 {
      a := FinishIsCloser(s, id, n);
    } else if Replies(s.returning, n) > 0 {
      a := ReceiveIsCloser(s, id, n);
    } else {
      a := RecordedIsCloser(s, id, n);
    }
  }

  lemma {:induction false} ExecuteFirst(s: State, a: Action, rest: seq<Action>)
    requires Next(s, a).Some?
    ensures Execute(s, [a] + rest) == Execute(Next(s, a).value, rest)
  {
    if rest == [] {
      assert [a] + rest == [a] && [a][..0] == [];
      assert Execute(s, []) == Some(s);
    } else {
      ExecuteFirst(s, a, rest[..|rest| - 1]);
      assert ([a] + rest)[..|rest|] == [a] + rest[..|rest| - 1];
    }
  }

  lemma {:induction false} PendingStreamsCanFinish(s: State, id: nat, n: nat) returns (actions: seq<Action>)
    requires Inv(s) && Pending(s, id, n)
    ensures Finishes(s, actions, id, n)
    decreases Distance(s, id, n)
  {
    var a := CloserStep(s, id, n);
    var s' := Next(s, a).value;
    NextKeepsInv(s, a);
    var rest := [];
    if s'.streams[id].pc != Done(n) {
      rest := PendingStreamsCanFinish(s', id, n);
    } else {
      assert Execute(s', []) == Some(s');
    }
    ExecuteFirst(s, a, rest);
    actions := [a] + rest;
  }

  // ----- a stream that is lost cannot -----

  /** An action loses at most one number, and finds none again. */
  lemma LostGrows(s: State, a: Action)
    requires Next(s, a).Some?
    ensures Next(s, a).value.lost == s.lost || exists m :: Next(s, a).value.lost == s.lost + [m]
  {}

  lemma LossesStay(s: State, a: Action, n: nat)
    requires Next(s, a).Some?
    ensures Losses(Next(s, a).value.lost, n) >= Losses(s.lost, n)
  {
    var lost := Next(s, a).value.lost;
    LostGrows(s, a);
    if lost != s.lost {
      var m :| lost == s.lost + [m];
      LossesAppend(s.lost, m, n);
    }
  }

  lemma {:induction false} LostStaysLost(s: State, actions: seq<Action>, n: nat)
    requires Inv(s) && Execute(s, actions).Some? && Losses(s.lost, n) > 0
    ensures Inv(Execute(s, actions).value) && Losses(Execute(s, actions).value.lost, n) > 0
  {
    RunsKeepInv(s, actions);
    if actions != [] {
      var before := actions[..|actions| - 1];
      LostStaysLost(s, before, n);
      LossesStay(Execute(s, before).value, actions[|actions| - 1], n);
    }
  }

  /** A number that is lost has no response. */
  lemma LostIsNotRecorded(s: State, id: nat, n: nat)
    requires Inv(s) && Losses(s.lost, n) > 0 && id in s.streams
    ensures s.streams[id].pc != Done(n)
  {
    assert Places(s, n) <= 1;
    assert StreamOk(s, id, s.streams[id]);
  }

  /** Main result: from every reachable state a stream that waits for a response can
      still end with it if and only if its number is not lost. A lost one is polled
      for ever. */
  lemma WaitingStreamsFinishIff(actions: seq<Action>, id: nat, n: nat)
    requires Execute(Initial(), actions).Some? && Waits(Execute(Initial(), actions).value, id, n)
    ensures (exists more: seq<Action> :: Finishes(Execute(Initial(), actions).value, more, id, n))
      <==> Losses(Execute(Initial(), actions).value.lost, n) == 0
  {
    InitialInv();
    RunsKeepInv(Initial(), actions);
    var s := Execute(Initial(), actions).value;
    if Losses(s.lost, n) == 0 {
      var more := PendingStreamsCanFinish(s, id, n);
    } else {
      forall more: seq<Action> ensures !Finishes(s, more, id, n) {
        if Finishes(s, more, id, n) {
          LostStaysLost(s, more, n);
          LostIsNotRecorded(Execute(s, more).value, id, n);
        }
      }
    }
  }
}
