/** What each stream yields, counted against its polls. */
module SwarmReports {
  import opened Wrappers
  import opened SwarmController
  import opened SwarmProtocol

  ghost function Polls(actions: seq<Action>, id: nat): nat {
    if actions == [] then 0
    else Polls(actions[..|actions| - 1], id) + if actions[|actions| - 1] == Poll(id) then 1 else 0
  }

  /** What a stream that polled `polls` times has yielded: OK, one IN_PROGRESS before each
      poll, and then the response, or an error in place of all that if the send failed. */
  ghost predicate Yielded(stream: Stream, polls: nat, failed: bool) {
    && (failed ==> stream.pc.Broken?)
    && match stream.pc
       case Opened => stream.out == [Ok] && polls == 0
       case Numbered(_) => stream.out == [Ok] && polls == 0
       case Waiting(_) => stream.out == Reports(polls)
       case Sleeping(_) => stream.out == Reports(polls + 1)
       case Done(_) => exists response :: stream.out == Reports(polls) + [Final(response)]
       case Broken =>
         if failed then stream.out == [Ok, Error] && polls == 0
         else stream.out == Reports(polls) || stream.out == Reports(polls + 1)
  }

  lemma SnocPolls(actions: seq<Action>, a: Action, id: nat)
    ensures Polls(actions + [a], id) == Polls(actions, id) + if a == Poll(id) then 1 else 0
    ensures SendFails(id) in actions + [a] <==> SendFails(id) in actions || a == SendFails(id)
  {
    assert (actions + [a])[..|actions|] == actions;
  }

  /** The streams that an action does not concern. */
  lemma OthersYieldNothing(s: State, a: Action, id: nat)
    requires Next(s, a).Some? && id in s.streams
    requires a.Number? || a.Send? || a.SendFails? || a.Report? || a.Poll? || a.Leave? ==> a.id != id
    ensures id in Next(s, a).value.streams && Next(s, a).value.streams[id] == s.streams[id]
  {}

  lemma OneReportMore(k: nat)
    ensures Reports(k) + [InProgress] == Reports(k + 1) && Reports(k) + [] == Reports(k)
  {}

  lemma OwnStepYields(s: State, a: Action, polls: nat, failed: bool)
    requires a.Number? || a.Send? || a.SendFails? || a.Report? || a.Poll? || a.Leave?
    requires a.id in s.streams && StreamStep(s, a).Some? && Yielded(s.streams[a.id], polls, failed)
    ensures a.id in StreamStep(s, a).value.streams
    ensures Yielded(StreamStep(s, a).value.streams[a.id], polls + (if a.Poll? then 1 else 0), failed || a.SendFails?)
  {
    var stream := s.streams[a.id];
    assert stream.out + [] == stream.out;
    OneReportMore(polls);
    assert Reports(0) == [Ok] && [Ok] + [Error] == [Ok, Error];
    if a.Poll? && Lookup(s.controller, stream.pc.number).Some? {
      var response := Lookup(s.controller, stream.pc.number).value;
      assert StreamStep(s, a).value.streams[a.id].out == Reports(polls + 1) + [Final(response)];
    }
  }

  lemma NextYields(s: State, actions: seq<Action>, a: Action, id: nat)
    requires Next(s, a).Some? && id in s.streams && Yielded(s.streams[id], Polls(actions, id), SendFails(id) in actions)
    ensures id in Next(s, a).value.streams
    ensures Yielded(Next(s, a).value.streams[id], Polls(actions + [a], id), SendFails(id) in actions + [a])
  {
    SnocPolls(actions, a, id);
    if (a.Number? || a.Send? || a.SendFails? || a.Report? || a.Poll? || a.Leave?) && a.id == id {
      OwnStepYields(s, a, Polls(actions, id), SendFails(id) in actions);
    } else {
      OthersYieldNothing(s, a, id);
    }
  }

  /** An id that no stream has was never polled for. */
  lemma {:induction false} UnopenedIsSilent(actions: seq<Action>, id: nat)
    requires Execute(Initial(), actions).Some? && id !in Execute(Initial(), actions).value.streams
    ensures Polls(actions, id) == 0 && SendFails(id) !in actions
  {
    if actions != [] {
      var before, a := actions[..|actions| - 1], actions[|actions| - 1];
      StreamsStay(Execute(Initial(), before).value, a);
      UnopenedIsSilent(before, id);
      assert actions == before + [a];
    }
  }

  lemma StreamsStay(s: State, a: Action)
    requires Next(s, a).Some?
    ensures s.streams.Keys <= Next(s, a).value.streams.Keys
  {}

  /** Main result: in every run each stream yields OK, then IN_PROGRESS exactly once before
      each of its polls, and the response after the last; it yields an error, and nothing
      else after OK, exactly if its send failed. */
  lemma {:induction false} ReportsMatchPolls(actions: seq<Action>, id: nat)
    requires Execute(Initial(), actions).Some? && id in Execute(Initial(), actions).value.streams
    ensures Yielded(Execute(Initial(), actions).value.streams[id], Polls(actions, id), SendFails(id) in actions)
  {
    if actions != [] {
      var before, a := actions[..|actions| - 1], actions[|actions| - 1];
      var s := Execute(Initial(), before).value;
      assert actions == before + [a];
      if id in s.streams {
        ReportsMatchPolls(before, id);
        NextYields(s, before, a, id);
      } else {
        UnopenedIsSilent(before, id);
        SnocPolls(before, a, id);
        OpenedNow(s, a, id);
      }
    }
  }

  lemma OpenedNow(s: State, a: Action, id: nat)
    requires Next(s, a).Some? && id !in s.streams && id in Next(s, a).value.streams
    ensures a.Open? && Next(s, a).value.streams[id].pc.Opened? && Next(s, a).value.streams[id].out == [Ok]
  {}
}
