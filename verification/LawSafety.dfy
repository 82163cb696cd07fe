/** The safety of the law protocol: an invariant of every run, and what it says
    about commands, law changes, failsafes and rejected calls. */
module LawSafety {
  import opened Wrappers
  import opened Laws
  import opened Admission
  import opened Failsafes
  import opened LawProtocol

  // ----- extending the log -----

  lemma PrefixKept(log: seq<Event>, es: seq<Event>, c: nat)
    requires c <= |log|
    ensures (log + es)[..c] == log[..c]
  {}

  lemma LawAtAppend(log: seq<Event>, e: Event)
    ensures LawAt(log + [e]) == if e.Committed? then Some(e.law) else LawAt(log)
  {
    assert (log + [e])[..|log|] == log;
  }

  lemma FiringsAppend(log: seq<Event>, e: Event)
    ensures FiringsOf(log + [e]) == FiringsOf(log) + if e.Fired? then [Firing(e.law, e.name)] else []
  {
    assert (log + [e])[..|log|] == log;
  }

  lemma SentAppend(log: seq<Event>, e: Event, t: nat, since: nat)
    requires since <= |log|
    ensures SentSince(log + [e], t, since)
         == SentSince(log, t, since) + if e.Sent? && e.task == t then [(e.cmd, StatusFrom(e.source))] else []
  {
    assert (log + [e])[..|log|] == log;
  }

  lemma StartupAppend(log: seq<Event>, e: Event, t: nat)
    ensures StartupOf(log + [e], t)
         == StartupOf(log, t) + if e.Startup? && e.task == t then [(e.cmd, StatusFrom(e.source))] else []
  {
    assert (log + [e])[..|log|] == log;
  }

  lemma {:induction false} StartupKept(log: seq<Event>, es: seq<Event>, t: nat)
    requires forall i :: 0 <= i < |es| ==> !es[i].Startup? || es[i].task != t
    ensures StartupOf(log + es, t) == StartupOf(log, t)
  {
    if es == [] {
      assert log + es == log;
    } else {
      var n := |es| - 1;
      StartupKept(log, es[..n], t);
      StartupAppend(log + es[..n], es[n], t);
      assert log + es == (log + es[..n]) + [es[n]];
    }
  }

  lemma {:induction false} NoTraceNoStartup(log: seq<Event>, t: nat)
    requires NoTrace(log, t)
    ensures StartupOf(log, t) == []
  {
    if log != [] {
      NoTraceNoStartup(log[..|log| - 1], t);
    }
  }

  lemma PermittedAtKept(s: Setup, log: seq<Event>, es: seq<Event>, t: nat, call: Call, c: nat)
    requires BASE in s.book && PermittedAt(s, log, t, call, c)
    ensures PermittedAt(s, log + es, t, call, c)
  {
    PrefixKept(log, es, c);
  }

  lemma AskedForKept(s: Setup, log: seq<Event>, es: seq<Event>, t: nat, o: Origin, law: string)
    requires BASE in s.book && AskedFor(s, log, t, o, law)
    requires forall i :: 0 <= i < |es| ==> !es[i].Startup? || es[i].task != t
    ensures AskedFor(s, log + es, t, o, law)
  {
    StartupKept(log, es, t);
    if o.FromCall? {
      PermittedAtKept(s, log, es, t, o.call, o.checkedAt);
      PrefixKept(log, es, o.matchedAt);
    }
  }

  lemma InOrderAppend(s: Setup, log: seq<Event>, e: Event)
    requires BASE in s.book && LogInOrder(s, log) && InOrder(s, log, e)
    ensures LogInOrder(s, log + [e])
  {
    forall i | 0 <= i < |log + [e]| ensures InOrder(s, (log + [e])[..i], (log + [e])[i]) {
      PrefixKept(log, [e], i);
      if i == |log| { assert log[..i] == log; }
    }
  }

  /** What other coroutines append does not disturb a coroutine's own facts. */
  lemma TaskOkAppend(s: Setup, log: seq<Event>, e: Event, t: nat, pc: Pc)
    requires BASE in s.book && TaskOk(s, log, t, pc)
    requires e.task != t && (HoldsWrite(pc) ==> LockFree(e))
    ensures TaskOk(s, log + [e], t, pc)
  {
    match pc
    case Permitted(call, c) => PermittedAtKept(s, log, [e], t, call, c);
    case Matching(call, c) => PermittedAtKept(s, log, [e], t, call, c);
    case Handling(call, c) => PermittedAtKept(s, log, [e], t, call, c);
    case WantLaw(o, target) => AskedForKept(s, log, [e], t, o, Effective(s.book, target));
    case Entering(o, law, since, b) =>
      AskedForKept(s, log, [e], t, o, law);
      SentAppend(log, e, t, since);
    case Failsafing(since, b) => SentAppend(log, e, t, since);
    case Starting(b) => StartupAppend(log, e, t);
    case _ =>
  }

  lemma TaskOkExtend(s: Setup, log: seq<Event>, es: seq<Event>, t: nat, pc: Pc)
    requires BASE in s.book && TaskOk(s, log, t, pc) && |es| <= 2
    requires forall i :: 0 <= i < |es| ==> es[i].task != t && (HoldsWrite(pc) ==> LockFree(es[i]))
    ensures TaskOk(s, log + es, t, pc)
  {
    if |es| == 0 {
      assert log + es == log;
    } else if |es| == 1 {
      assert es == [es[0]];
      TaskOkAppend(s, log, es[0], t, pc);
    } else {
      TaskOkAppend(s, log, es[0], t, pc);
      TaskOkAppend(s, log + [es[0]], es[1], t, pc);
      assert log + es == (log + [es[0]]) + [es[1]];
    }
  }

  // ----- one step, from the point of view of the coroutine itself -----

  ghost predicate StepPre(s: Setup, log: seq<Event>, t: nat, pc: Pc, sh: Shared, env: Env) {
    && BASE in s.book
    && sh.law == LawAt(log) && (sh.law.Some? ==> sh.law.value in s.book)
    && TaskOk(s, log, t, pc) && LogInOrder(s, log) && env.now == |log|
  }

  ghost predicate BatchOk(s: Setup, b: Batch) {
    b.Ok() && (b.phase != Ready ==> s.known(b.cmds[|b.results|]))
  }

  /** A batch step keeps the batch and its log in step. */
  lemma BatchStepKeeps(s: Setup, b: Batch, env: Env)
    requires BatchOk(s, b) && !b.Done() && BatchStep(s, b, env).Some?
    ensures var next := BatchStep(s, b, env).value;
            && BatchOk(s, next.batch) && next.batch.cmds == b.cmds
            && (next.sent.None? ==> next.batch.results == b.results)
            && (next.sent.Some? ==>
                  && next.sent.value.0 == b.cmds[|b.results|]
                  && next.batch.results == b.results + [StatusFrom(next.sent.value.1)]
                  && (next.sent.value.1.Missing? <==> !s.known(next.sent.value.0)))
  {}

  lemma ZipAppend(cmds: seq<string>, results: seq<int>, status: int)
    requires |results| < |cmds|
    ensures Zip(cmds, results + [status]) == Zip(cmds, results) + [(cmds[|results|], status)]
  {}

  /** The batch of `cmds` that `t` sends holding the lock, as far as it has come. */
  ghost predicate SendingOk(s: Setup, log: seq<Event>, t: nat, since: nat, cmds: seq<string>, b: Batch) {
    AloneSince(log, t, since) && BatchOk(s, b) && b.cmds == cmds && SentSince(log, t, since) == Zip(b.cmds, b.results)
  }

  lemma SendingOkAfterSend(s: Setup, log: seq<Event>, t: nat, since: nat, cmds: seq<string>, b: Batch, b': Batch,
                           source: Source)
    requires SendingOk(s, log, t, since, cmds, b) && !b.Done()
    requires BatchOk(s, b') && b'.cmds == b.cmds && b'.results == b.results + [StatusFrom(source)]
    ensures SendingOk(s, log + [Sent(t, b.cmds[|b.results|], source)], t, since, cmds, b')
  {
    SentAppend(log, Sent(t, b.cmds[|b.results|], source), t, since);
    ZipAppend(b.cmds, b.results, StatusFrom(source));
  }

  /** One step of a batch under the lock, whatever it is for. */
  lemma SendingStep(s: Setup, log: seq<Event>, t: nat, since: nat, cmds: seq<string>, b: Batch, env: Env)
    requires BASE in s.book && LogInOrder(s, log)
    requires SendingOk(s, log, t, since, cmds, b) && !b.Done() && BatchStep(s, b, env).Some?
    ensures var next := BatchStep(s, b, env).value;
            var es := SentEvents(t, next.sent);
            SendingOk(s, log + es, t, since, cmds, next.batch) && LogInOrder(s, log + es)
  {
    var next := BatchStep(s, b, env).value;
    BatchStepKeeps(s, b, env);
    if next.sent.None? {
      assert log + [] == log;
    } else {
      InOrderAppend(s, log, Sent(t, next.sent.value.0, next.sent.value.1));
      SendingOkAfterSend(s, log, t, since, cmds, b, next.batch, next.sent.value.1);
    }
  }

  lemma EnteringSends(s: Setup, log: seq<Event>, t: nat, pc: Pc, sh: Shared, env: Env)
    requires StepPre(s, log, t, pc, sh, env) && pc.Entering? && !pc.batch.Done()
    ensures var e := Advance(s, t, pc, sh, env);
            e.Some? ==>
              && |e.value.events| <= 1
              && TaskOk(s, log + e.value.events, t, e.value.pc) && LogInOrder(s, log + e.value.events)
  {
    if BatchStep(s, pc.batch, env).Some? {
      assert SendingOk(s, log, t, pc.since, s.book[pc.law].enter, pc.batch);
      SendingStep(s, log, t, pc.since, s.book[pc.law].enter, pc.batch, env);
      AskedForKept(s, log, Advance(s, t, pc, sh, env).value.events, t, pc.origin, pc.law);
    }
  }

  /** The step of a failsafe that is sending, as an effect. */
  lemma FailsafeEffect(s: Setup, t: nat, pc: Pc, sh: Shared, env: Env)
    requires BASE in s.book && pc.Failsafing? && pc.batch.Ok() && !pc.batch.Done()
    ensures Advance(s, t, pc, sh, env).Some? <==> BatchStep(s, pc.batch, env).Some?
    ensures BatchStep(s, pc.batch, env).Some? ==>
      var next := BatchStep(s, pc.batch, env).value;
      Advance(s, t, pc, sh, env).value
        == Effect(Failsafing(pc.since, next.batch), sh, SentEvents(t, next.sent), next.spawn)
  {}

  /** What a failsafe sent so far fits what it fired. */
  lemma SendingIsTaskOk(s: Setup, log: seq<Event>, t: nat, since: nat, b: Batch, es: seq<Event>)
    requires BASE in s.book && SendsFailsafe(log, t, since)
    requires SendingOk(s, log + es, t, since, log[since + 1].cmds, b)
    ensures TaskOk(s, log + es, t, Failsafing(since, b))
  {
    assert (log + es)[since + 1] == log[since + 1];
  }

  lemma FailsafeTaskSends(s: Setup, log: seq<Event>, t: nat, since: nat, b: Batch, env: Env)
    requires BASE in s.book && LogInOrder(s, log) && SendsFailsafe(log, t, since)
    requires SendingOk(s, log, t, since, log[since + 1].cmds, b) && !b.Done() && BatchStep(s, b, env).Some?
    ensures var next := BatchStep(s, b, env).value;
            var es := SentEvents(t, next.sent);
            |es| <= 1 && TaskOk(s, log + es, t, Failsafing(since, next.batch)) && LogInOrder(s, log + es)
  {
    var next := BatchStep(s, b, env).value;
    SendingStep(s, log, t, since, log[since + 1].cmds, b, env);
    SendingIsTaskOk(s, log, t, since, next.batch, SentEvents(t, next.sent));
  }

  lemma FailsafeSends(s: Setup, log: seq<Event>, t: nat, pc: Pc, sh: Shared, env: Env)
    requires StepPre(s, log, t, pc, sh, env) && pc.Failsafing? && !pc.batch.Done()
    ensures var e := Advance(s, t, pc, sh, env);
            e.Some? ==>
              && |e.value.events| <= 1
              && TaskOk(s, log + e.value.events, t, e.value.pc) && LogInOrder(s, log + e.value.events)
  {
    FailsafeEffect(s, t, pc, sh, env);
    if BatchStep(s, pc.batch, env).Some? {
      FailsafeTaskSends(s, log, t, pc.since, pc.batch, env);
    }
  }

  lemma DoneInOrder(s: Setup, log: seq<Event>, t: nat, since: nat, results: seq<int>)
    requires BASE in s.book && SendsFailsafe(log, t, since) && |results| == |log[since + 1].cmds|
    requires SentSince(log, t, since) == Zip(log[since + 1].cmds, results)
    ensures InOrder(s, log, FailsafeDone(t, since))
  {}

  lemma FailsafeEnds(s: Setup, log: seq<Event>, t: nat, pc: Pc, sh: Shared, env: Env)
    requires StepPre(s, log, t, pc, sh, env) && pc.Failsafing? && pc.batch.Done()
    ensures LogInOrder(s, log + [FailsafeDone(t, pc.since)])
  {
    DoneInOrder(s, log, t, pc.since, pc.batch.results);
    InOrderAppend(s, log, FailsafeDone(t, pc.since));
  }

  lemma StartupSends(s: Setup, log: seq<Event>, t: nat, pc: Pc, sh: Shared, env: Env)
    requires StepPre(s, log, t, pc, sh, env) && pc.Starting? && !pc.batch.Done()
    ensures var e := Advance(s, t, pc, sh, env);
            e.Some? ==>
              && |e.value.events| <= 1
              && TaskOk(s, log + e.value.events, t, e.value.pc) && LogInOrder(s, log + e.value.events)
  {
    if BatchStep(s, pc.batch, env).Some? {
      var e := Advance(s, t, pc, sh, env).value;
      BatchStepKeeps(s, pc.batch, env);
      if e.events == [] {
        assert log + [] == log;
      } else {
        var next := BatchStep(s, pc.batch, env).value;
        assert e.events == [Startup(t, next.sent.value.0, next.sent.value.1)];
        InOrderAppend(s, log, e.events[0]);
        StartupAppend(log, e.events[0], t);
        ZipAppend(pc.batch.cmds, pc.batch.results, StatusFrom(next.sent.value.1));
      }
    }
  }

  lemma StartupEnds(s: Setup, log: seq<Event>, t: nat, pc: Pc, sh: Shared, env: Env)
    requires StepPre(s, log, t, pc, sh, env) && pc.Starting? && pc.batch.Done()
    ensures var e := Advance(s, t, pc, sh, env);
            e.Some? && e.value.events == [] && TaskOk(s, log, t, e.value.pc)
  {
    if AllCompleted(pc.batch.results) {
      AllCompletedResults(pc.batch.results);
    }
  }

  lemma AllCompletedResults(results: seq<int>)
    requires AllCompleted(results)
    ensures results == seq(|results|, _ => COMPLETED)
  {}

  /** How the section of a law change ends. */
  function EndOf(t: nat, pc: Pc): Event
    requires pc.Entering?
  {
    if AllCompleted(pc.batch.results) then Committed(t, pc.origin, pc.law, pc.since) else Abandoned(t, pc.law, pc.since)
  }

  lemma EnteringEnds(s: Setup, t: nat, pc: Pc, sh: Shared, env: Env)
    requires BASE in s.book && pc.Entering? && pc.batch.Ok() && pc.batch.Done()
    ensures var e := Advance(s, t, pc, sh, env);
            e.Some? && e.value.pc == AfterLaw(t, pc.origin).0
              && e.value.events == [EndOf(t, pc)] + AfterLaw(t, pc.origin).1
  {}

  lemma EndIsInOrder(s: Setup, log: seq<Event>, t: nat, pc: Pc)
    requires BASE in s.book && pc.Entering? && TaskOk(s, log, t, pc) && pc.batch.Done()
    ensures InOrder(s, log, EndOf(t, pc))
    ensures pc.origin.FromCall? ==> PermittedAt(s, log, t, pc.origin.call, pc.origin.checkedAt)
  {
    if AllCompleted(pc.batch.results) {
      AllCompletedResults(pc.batch.results);
    } else {
      assert InOrder(s, log, Abandoned(t, pc.law, pc.since));
    }
  }

  /** The end of the section, and the handler that starts after it. */
  lemma EndThenBegin(s: Setup, log: seq<Event>, end: Event, t: nat, o: Origin)
    requires BASE in s.book && LogInOrder(s, log) && InOrder(s, log, end)
    requires o.FromCall? ==> PermittedAt(s, log, t, o.call, o.checkedAt)
    ensures var es := [end] + AfterLaw(t, o).1;
            LogInOrder(s, log + es) && TaskOk(s, log + es, t, AfterLaw(t, o).0)
  {
    InOrderAppend(s, log, end);
    if o.FromCall? {
      var began := Began(t, o.call, o.checkedAt);
      PermittedAtKept(s, log, [end], t, o.call, o.checkedAt);
      InOrderAppend(s, log + [end], began);
      PermittedAtKept(s, log, [end, began], t, o.call, o.checkedAt);
      assert log + [end, began] == (log + [end]) + [began];
      assert [end] + [began] == [end, began];
    } else {
      assert [end] + [] == [end];
    }
  }

  lemma EnteringEndsInOrder(s: Setup, log: seq<Event>, t: nat, pc: Pc, sh: Shared, env: Env)
    requires StepPre(s, log, t, pc, sh, env) && pc.Entering? && pc.batch.Done()
    ensures var e := Advance(s, t, pc, sh, env);
            && e.Some? && |e.value.events| <= 2
            && TaskOk(s, log + e.value.events, t, e.value.pc) && LogInOrder(s, log + e.value.events)
  {
    EnteringEnds(s, t, pc, sh, env);
    EndIsInOrder(s, log, t, pc);
    EndThenBegin(s, log, EndOf(t, pc), t, pc.origin);
  }

  lemma CheckingStep(s: Setup, log: seq<Event>, t: nat, pc: Pc, sh: Shared, env: Env)
    requires StepPre(s, log, t, pc, sh, env) && pc.Checking?
    ensures var e := Advance(s, t, pc, sh, env);
            && e.Some? && |e.value.events| <= 1
            && TaskOk(s, log + e.value.events, t, e.value.pc) && LogInOrder(s, log + e.value.events)
  {
    var e := Advance(s, t, pc, sh, env).value;
    if e.events == [] {
      assert log + [] == log;
    } else {
      assert e.events == [e.events[0]];
      InOrderAppend(s, log, e.events[0]);
      assert (log + e.events)[..|log|] == log;
    }
  }

  lemma MatchingStep(s: Setup, log: seq<Event>, t: nat, pc: Pc, sh: Shared, env: Env)
    requires StepPre(s, log, t, pc, sh, env) && pc.Matching?
    ensures var e := Advance(s, t, pc, sh, env);
            && e.Some? && |e.value.events| <= 1
            && TaskOk(s, log + e.value.events, t, e.value.pc) && LogInOrder(s, log + e.value.events)
  {
    var e := Advance(s, t, pc, sh, env).value;
    if e.events == [] {
      assert log + [] == log;
    } else {
      assert e.events == [e.events[0]];
      InOrderAppend(s, log, e.events[0]);
      assert (log + e.events)[..|log|] == log;
      PermittedAtKept(s, log, e.events, t, pc.call, pc.checkedAt);
    }
  }

  /** Taking the lock for a law change, as an effect. */
  lemma LawTaken(s: Setup, t: nat, pc: Pc, sh: Shared, env: Env)
    requires BASE in s.book && pc.WantLaw? && Advance(s, t, pc, sh, env).Some?
    ensures var e, law := Advance(s, t, pc, sh, env).value, Effective(s.book, pc.target);
            || (e.events == [] && e.pc == Crashed)
            || (law in s.book && e.events == [Locked(t)]
                && e.pc == Entering(pc.origin, law, env.now, Batch(s.book[law].enter, [], Ready)))
  {}

  lemma LockedForLaw(s: Setup, log: seq<Event>, t: nat, o: Origin, law: string)
    requires BASE in s.book && LogInOrder(s, log) && law in s.book && AskedFor(s, log, t, o, law)
    ensures LogInOrder(s, log + [Locked(t)])
    ensures TaskOk(s, log + [Locked(t)], t, Entering(o, law, |log|, Batch(s.book[law].enter, [], Ready)))
  {
    InOrderAppend(s, log, Locked(t));
    AskedForKept(s, log, [Locked(t)], t, o, law);
    SentAppend(log, Locked(t), t, |log|);
  }

  lemma WantLawStep(s: Setup, log: seq<Event>, t: nat, pc: Pc, sh: Shared, env: Env)
    requires StepPre(s, log, t, pc, sh, env) && pc.WantLaw?
    ensures var e := Advance(s, t, pc, sh, env);
            e.Some? ==>
              && |e.value.events| <= 1
              && TaskOk(s, log + e.value.events, t, e.value.pc) && LogInOrder(s, log + e.value.events)
  {
    if Advance(s, t, pc, sh, env).Some? {
      var law := Effective(s.book, pc.target);
      LawTaken(s, t, pc, sh, env);
      assert log + [] == log;
      if law in s.book {
        LockedForLaw(s, log, t, pc.origin, law);
      }
    }
  }

  /** Taking the lock for a failsafe, as an effect. */
  lemma FailsafeTaken(s: Setup, t: nat, pc: Pc, sh: Shared, env: Env)
    requires BASE in s.book && pc.WantFailsafe? && Advance(s, t, pc, sh, env).Some?
    ensures var e := Advance(s, t, pc, sh, env).value;
            || (e.events == [] && e.pc == Crashed)
            || (exists cmds ::
                  sh.law.Some? && e.events == [Locked(t), Fired(t, sh.law.value, pc.name, cmds, pc.seenAt)]
                    && e.pc == Failsafing(env.now, Batch(cmds, [], Ready)))
  {}

  lemma WantFailsafeStep(s: Setup, log: seq<Event>, t: nat, pc: Pc, sh: Shared, env: Env)
    requires StepPre(s, log, t, pc, sh, env) && pc.WantFailsafe?
    ensures var e := Advance(s, t, pc, sh, env);
            e.Some? ==>
              && |e.value.events| <= 2
              && TaskOk(s, log + e.value.events, t, e.value.pc) && LogInOrder(s, log + e.value.events)
  {
    var e := Advance(s, t, pc, sh, env);
    if e.Some? {
      FailsafeTaken(s, t, pc, sh, env);
      if e.value.events == [] {
        assert log + [] == log;
      } else {
        var cmds :| e.value.events == [Locked(t), Fired(t, sh.law.value, pc.name, cmds, pc.seenAt)]
                    && e.value.pc == Failsafing(env.now, Batch(cmds, [], Ready));
        FirstSecond(s, log, t, Fired(t, sh.law.value, pc.name, cmds, pc.seenAt));
      }
    }
  }

  lemma ReadingStep(s: Setup, log: seq<Event>, t: nat, pc: Pc, sh: Shared, env: Env)
    requires StepPre(s, log, t, pc, sh, env) && pc.Reading?
    ensures var e := Advance(s, t, pc, sh, env);
            && e.Some? && |e.value.events| <= 1
            && TaskOk(s, log + e.value.events, t, e.value.pc) && LogInOrder(s, log + e.value.events)
  {
    var e := Advance(s, t, pc, sh, env).value;
    assert e.events == [Read(t, sh.law)];
    InOrderAppend(s, log, Read(t, sh.law));
    assert (log + e.events)[|log|] == Read(t, sh.law);
  }

  lemma NothingSentYet(log: seq<Event>, t: nat, fired: Event)
    requires fired.Fired?
    ensures SentSince(log + [Locked(t), fired], t, |log|) == []
  {
    assert log + [Locked(t), fired] == (log + [Locked(t)]) + [fired];
    SentAppend(log, Locked(t), t, |log|);
    SentAppend(log + [Locked(t)], fired, t, |log|);
  }

  lemma LockedThenFired(s: Setup, log: seq<Event>, t: nat, fired: Event)
    requires BASE in s.book && LogInOrder(s, log) && fired.Fired? && fired.task == t
    requires LawAt(log) == Some(fired.law) && SawRemote(log, t, fired.seenAt)
    ensures LogInOrder(s, log + [Locked(t), fired])
  {
    var locked := log + [Locked(t)];
    LawAtAppend(log, Locked(t));
    InOrderAppend(s, log, Locked(t));
    assert AloneSince(locked, t, |log|);
    InOrderAppend(s, locked, fired);
    assert log + [Locked(t), fired] == locked + [fired];
  }

  /** Taking the lock and firing. */
  lemma FirstSecond(s: Setup, log: seq<Event>, t: nat, fired: Event)
    requires BASE in s.book && LogInOrder(s, log) && fired.Fired? && fired.task == t
    requires LawAt(log) == Some(fired.law) && SawRemote(log, t, fired.seenAt)
    ensures var es := [Locked(t), fired];
            LogInOrder(s, log + es) && TaskOk(s, log + es, t, Failsafing(|log|, Batch(fired.cmds, [], Ready)))
  {
    LockedThenFired(s, log, t, fired);
    NothingSentYet(log, t, fired);
    assert SendsFailsafe(log + [Locked(t), fired], t, |log|);
  }

  /** Every step of a coroutine leaves its own facts and the log in order. */
  lemma OwnStep(s: Setup, log: seq<Event>, t: nat, pc: Pc, sh: Shared, env: Env)
    requires StepPre(s, log, t, pc, sh, env)
    ensures var e := Advance(s, t, pc, sh, env);
            e.Some? ==>
              && |e.value.events| <= 2
              && TaskOk(s, log + e.value.events, t, e.value.pc) && LogInOrder(s, log + e.value.events)
  {
    match pc
    case Checking(_) => CheckingStep(s, log, t, pc, sh, env);
    case Matching(_, _) => MatchingStep(s, log, t, pc, sh, env);
    case WantLaw(_, _) => WantLawStep(s, log, t, pc, sh, env);
    case WantFailsafe(_, _) => WantFailsafeStep(s, log, t, pc, sh, env);
    case Reading(_) => ReadingStep(s, log, t, pc, sh, env);
    case Entering(_, _, _, b) =>
      if b.Done() { EnteringEndsInOrder(s, log, t, pc, sh, env); } else { EnteringSends(s, log, t, pc, sh, env); }
    case Failsafing(_, b) =>
      if b.Done() { FailsafeEnds(s, log, t, pc, sh, env); } else { FailsafeSends(s, log, t, pc, sh, env); }
    case Starting(b) =>
      if b.Done() {
        StartupEnds(s, log, t, pc, sh, env);
        assert log + [] == log;
      } else {
        StartupSends(s, log, t, pc, sh, env);
      }
    case _ => assert log + [] == log;
  }

  // ----- one step, from the point of view of everything else -----

  /** The events of a step belong to the coroutine that takes it, and while another
      one holds the write lock they are of the lock-free kind. */
  lemma StepEvents(s: Setup, t: nat, pc: Pc, sh: Shared, env: Env)
    requires BASE in s.book
    ensures var e := Advance(s, t, pc, sh, env);
            e.Some? ==>
              forall i :: 0 <= i < |e.value.events| ==>
                && e.value.events[i].task == t
                && (sh.writer && !HoldsRead(pc) && !HoldsWrite(pc) ==> LockFree(e.value.events[i]))
  {}

  lemma LawAtKept(log: seq<Event>, es: seq<Event>)
    requires |es| <= 2 && forall i :: 0 <= i < |es| ==> !es[i].Committed?
    ensures LawAt(log + es) == LawAt(log)
  {
    if |es| == 0 {
      assert log + es == log;
    } else if |es| == 1 {
      assert es == [es[0]];
      LawAtAppend(log, es[0]);
    } else {
      LawAtAppend(log, es[0]);
      LawAtAppend(log + [es[0]], es[1]);
      assert log + es == (log + [es[0]]) + [es[1]];
    }
  }

  /** Which steps change the law, and how they are logged. */
  lemma LawShape(s: Setup, t: nat, pc: Pc, sh: Shared, env: Env)
    requires BASE in s.book
    ensures var e := Advance(s, t, pc, sh, env);
            e.Some? ==>
              var es := e.value.events;
              && |es| <= 2
              && (forall i :: 1 <= i < |es| ==> !es[i].Committed?)
              && (if |es| > 0 && es[0].Committed? then pc.Entering? && es[0].law == pc.law
                   && e.value.shared.law == Some(pc.law)
                  else e.value.shared.law == sh.law)
  {}

  /** The shared law follows the log. */
  lemma StepLaw(s: Setup, log: seq<Event>, t: nat, pc: Pc, sh: Shared, env: Env)
    requires StepPre(s, log, t, pc, sh, env)
    ensures var e := Advance(s, t, pc, sh, env);
            e.Some? ==> LawFollows(s, e.value.shared, log + e.value.events)
  {
    LawShape(s, t, pc, sh, env);
    var e := Advance(s, t, pc, sh, env);
    if e.Some? {
      LawAfter(log, e.value.events, e.value.shared.law);
    }
  }

  lemma LawAfter(log: seq<Event>, es: seq<Event>, law: Option<string>)
    requires |es| <= 2 && forall i :: 1 <= i < |es| ==> !es[i].Committed?
    requires law == if |es| > 0 && es[0].Committed? then Some(es[0].law) else LawAt(log)
    ensures law == LawAt(log + es)
  {
    if |es| > 0 && es[0].Committed? {
      LawAtAppend(log, es[0]);
      LawAtKept(log + [es[0]], es[1..]);
      assert log + es == (log + [es[0]]) + es[1..];
    } else {
      LawAtKept(log, es);
    }
  }

  lemma FiringsKept(log: seq<Event>, es: seq<Event>)
    requires |es| <= 2 && forall i :: 0 <= i < |es| ==> !es[i].Fired?
    ensures FiringsOf(log + es) == FiringsOf(log)
  {
    if |es| == 0 {
      assert log + es == log;
    } else if |es| == 1 {
      assert es == [es[0]];
      FiringsAppend(log, es[0]);
    } else {
      FiringsAppend(log, es[0]);
      FiringsAppend(log + [es[0]], es[1]);
      assert log + es == (log + [es[0]]) + [es[1]];
    }
  }

  lemma FireAllAppend(table: Table, firings: seq<Firing>, f: Firing)
    ensures FireAll(table, firings + [f]) == Fire(FireAll(table, firings), f)
  {
    assert (firings + [f])[..|firings|] == firings;
  }

  lemma FiringsAfter(table: Table, log: seq<Event>, t: nat, fired: Event)
    requires fired.Fired?
    ensures FireAll(table, FiringsOf(log + [Locked(t), fired]))
         == Fire(FireAll(table, FiringsOf(log)), Firing(fired.law, fired.name))
    ensures FiringsOf(log + [Locked(t)]) == FiringsOf(log)
  {
    FiringsAppend(log, Locked(t));
    FiringsAppend(log + [Locked(t)], fired);
    assert log + [Locked(t), fired] == (log + [Locked(t)]) + [fired];
    assert FiringsOf(log) + [] == FiringsOf(log);
    FireAllAppend(table, FiringsOf(log), Firing(fired.law, fired.name));
  }

  /** Which steps change the failsafe lists, and how they are logged. */
  lemma TableShape(s: Setup, t: nat, pc: Pc, sh: Shared, env: Env)
    requires BASE in s.book
    ensures var e := Advance(s, t, pc, sh, env);
            e.Some? ==>
              var es := e.value.events;
              if pc.WantFailsafe? && es != []
              then sh.law.Some? && HasList(sh.table, BASE, pc.name)
                   && es == [Locked(t),
                        Fired(t, sh.law.value, pc.name, FailsafeCommands(sh.table, sh.law.value, pc.name), pc.seenAt)]
                   && e.value.shared.table == Fire(sh.table, Firing(sh.law.value, pc.name))
              else |es| <= 2 && e.value.shared.table == sh.table && forall i :: 0 <= i < |es| ==> !es[i].Fired?
  {}

  lemma FiredInOrderAppend(table: Table, log: seq<Event>, e: Event)
    requires FiredInOrder(table, log) && (e.Fired? ==> FiredOk(table, log, e))
    ensures FiredInOrder(table, log + [e])
  {
    forall i | 0 <= i < |log + [e]| && (log + [e])[i].Fired? ensures FiredOk(table, (log + [e])[..i], (log + [e])[i]) {
      PrefixKept(log, [e], i);
      if i == |log| { assert log[..i] == log; }
    }
  }

  lemma FiredInOrderExtend(table: Table, log: seq<Event>, es: seq<Event>)
    requires FiredInOrder(table, log) && |es| <= 2 && forall i :: 0 <= i < |es| ==> !es[i].Fired?
    ensures FiredInOrder(table, log + es)
  {
    if |es| == 0 {
      assert log + es == log;
    } else if |es| == 1 {
      assert es == [es[0]];
      FiredInOrderAppend(table, log, es[0]);
    } else {
      FiredInOrderAppend(table, log, es[0]);
      FiredInOrderAppend(table, log + [es[0]], es[1]);
      assert log + es == (log + [es[0]]) + [es[1]];
    }
  }

  lemma ListsAfterFiring(table: Table, now: Table, log: seq<Event>, t: nat, fired: Event)
    requires now == FireAll(table, FiringsOf(log)) && FiredInOrder(table, log) && fired.Fired?
    requires HasList(now, BASE, fired.name) && fired.cmds == FailsafeCommands(now, fired.law, fired.name)
    ensures var es := [Locked(t), fired];
            && Fire(now, Firing(fired.law, fired.name)) == FireAll(table, FiringsOf(log + es))
            && FiredInOrder(table, log + es)
  {
    FiringsAfter(table, log, t, fired);
    FiredInOrderAppend(table, log, Locked(t));
    FiredInOrderAppend(table, log + [Locked(t)], fired);
    assert log + [Locked(t), fired] == (log + [Locked(t)]) + [fired];
  }

  /** The failsafe lists follow the log, and what is fired is what they say. */
  lemma StepTable(s: Setup, table: Table, log: seq<Event>, t: nat, pc: Pc, sh: Shared, env: Env)
    requires BASE in s.book && ListsFollow(table, sh, log)
    ensures var e := Advance(s, t, pc, sh, env);
            e.Some? ==> ListsFollow(table, e.value.shared, log + e.value.events)
  {
    TableShape(s, t, pc, sh, env);
    var e := Advance(s, t, pc, sh, env);
    if e.Some? {
      if pc.WantFailsafe? && e.value.events != [] {
        ListsAfterFiring(table, sh.table, log, t, e.value.events[1]);
      } else {
        FiringsKept(log, e.value.events);
        FiredInOrderExtend(table, log, e.value.events);
      }
    }
  }

  // ----- the lock -----

  /** How a step changes the lock, given what the coroutine held. */
  lemma StepLock(s: Setup, t: nat, pc: Pc, sh: Shared, env: Env)
    requires BASE in s.book
    requires HoldsWrite(pc) ==> sh.writer
    ensures var e := Advance(s, t, pc, sh, env);
            e.Some? ==>
              var sh', pc' := e.value.shared, e.value.pc;
              && sh'.readers == sh.readers + (if HoldsRead(pc') then 1 else 0) - (if HoldsRead(pc) then 1 else 0)
              && (HoldsWrite(pc') ==> sh'.writer)
              && (!HoldsWrite(pc') ==> sh'.writer == (sh.writer && !HoldsWrite(pc)))
              && (HoldsWrite(pc') && !HoldsWrite(pc) ==> !sh.writer && sh.readers == 0 && !HoldsRead(pc))
              && (HoldsRead(pc') && !HoldsRead(pc) ==> !sh.writer && !HoldsWrite(pc))
              && !(HoldsRead(pc') && HoldsRead(pc))
  {}

  lemma CountAfter(before: set<nat>, after: set<nat>, t: nat, was: bool, now: bool)
    requires was <==> t in before
    requires now <==> t in after
    requires forall u :: u != t ==> (u in before <==> u in after)
    ensures |after| == |before| + (if now then 1 else 0) - (if was then 1 else 0)
  {
    if was && now {
      assert after == before;
    } else if was {
      assert before == after + {t};
    } else if now {
      assert after == before + {t};
    } else {
      assert after == before;
    }
  }

  lemma HoldersAfter(tasks: map<nat, Pc>, t: nat, pc: Pc)
    ensures var was := t in tasks;
            && |Readers(tasks[t := pc])|
                 == |Readers(tasks)| + (if HoldsRead(pc) then 1 else 0) - (if was && HoldsRead(tasks[t]) then 1 else 0)
            && |Writers(tasks[t := pc])|
                 == |Writers(tasks)|
                   + (if HoldsWrite(pc) then 1 else 0) - (if was && HoldsWrite(tasks[t]) then 1 else 0)
  {
    CountAfter(Readers(tasks), Readers(tasks[t := pc]), t, t in tasks && HoldsRead(tasks[t]), HoldsRead(pc));
    CountAfter(Writers(tasks), Writers(tasks[t := pc]), t, t in tasks && HoldsWrite(tasks[t]), HoldsWrite(pc));
  }

  lemma HolderIsCounted(sh: Shared, tasks: map<nat, Pc>, t: nat)
    requires LockOk(sh, tasks) && t in tasks
    ensures HoldsRead(tasks[t]) ==> sh.readers >= 1 && !sh.writer
    ensures HoldsWrite(tasks[t]) ==> sh.writer && sh.readers == 0 && Writers(tasks) == {t}
  {
    if HoldsRead(tasks[t]) {
      assert t in Readers(tasks);
      assert |Readers(tasks)| == |Readers(tasks) - {t}| + 1;
    }
    if HoldsWrite(tasks[t]) {
      assert t in Writers(tasks);
      assert |Writers(tasks)| == |Writers(tasks) - {t}| + 1;
    }
  }

  lemma LockOkAfterStep(s: Setup, state: State, t: nat, env: Env)
    requires BASE in s.book && LockOk(state.shared, state.tasks) && t in state.tasks
    ensures var e := Advance(s, t, state.tasks[t], state.shared, env);
            e.Some? ==> LockOk(e.value.shared, state.tasks[t := e.value.pc])
  {
    HolderIsCounted(state.shared, state.tasks, t);
    StepLock(s, t, state.tasks[t], state.shared, env);
    var e := Advance(s, t, state.tasks[t], state.shared, env);
    if e.Some? {
      HoldersAfter(state.tasks, t, e.value.pc);
    }
  }

  // ----- every action keeps the invariant -----

  /** While `u` holds the write lock, no other coroutine holds either lock. */
  lemma WriterIsAlone(sh: Shared, tasks: map<nat, Pc>, u: nat, t: nat)
    requires LockOk(sh, tasks) && u in tasks && t in tasks && u != t && HoldsWrite(tasks[u])
    ensures sh.writer && !HoldsRead(tasks[t]) && !HoldsWrite(tasks[t])
  {
    HolderIsCounted(sh, tasks, u);
    HolderIsCounted(sh, tasks, t);
    assert t !in Writers(tasks);
  }

  /** What a step starts is a coroutine at its beginning. */
  lemma OnlyNestedIsSpawned(s: Setup, t: nat, pc: Pc, sh: Shared, env: Env)
    requires BASE in s.book && Advance(s, t, pc, sh, env).Some? && Advance(s, t, pc, sh, env).value.spawn.Some?
    ensures exists cmd :: Advance(s, t, pc, sh, env).value.spawn == Some(NestedPc(s, cmd))
  {}

  lemma NewTaskOk(s: Setup, log: seq<Event>, tasks: map<nat, Pc>, next: nat, pc: Pc)
    requires BASE in s.book && NumbersOk(tasks, next, log)
    requires Initial(pc) || pc.Serving? || pc.Rejected?
    ensures TaskOk(s, log, next, pc)
  {
    assert NoTrace(log, next);
    NoTraceNoStartup(log, next);
  }

  lemma NumbersAfter(tasks: map<nat, Pc>, next: nat, log: seq<Event>, t: nat, pc: Pc, es: seq<Event>)
    requires NumbersOk(tasks, next, log) && t <= next && forall i :: 0 <= i < |es| ==> es[i].task == t
    ensures NumbersOk(tasks[t := pc], if t == next then next + 1 else next, log + es)
  {
    forall i | 0 <= i < |log + es| ensures (log + es)[i].task in tasks[t := pc] {
      assert i < |log| ==> (log + es)[i] == log[i];
    }
  }

  lemma TasksOkAfter(s: Setup, log: seq<Event>, tasks: map<nat, Pc>, t: nat, pc: Pc)
    requires BASE in s.book && TaskOk(s, log, t, pc)
    requires forall u :: u in tasks && u != t ==> TaskOk(s, log, u, tasks[u])
    ensures TasksOk(s, log, tasks[t := pc])
  {}

  /** A coroutine that starts has left no trace and holds no lock. */
  lemma SpawnedKeepsInv(s: Setup, table: Table, state: State, pc: Pc)
    requires BASE in s.book && Inv(s, table, state)
    requires Initial(pc) || pc.Serving? || pc.Rejected?
    ensures Inv(s, table, Spawned(state, pc))
  {
    HoldersAfter(state.tasks, state.next, pc);
    NewTaskOk(s, state.log, state.tasks, state.next, pc);
    NumbersAfter(state.tasks, state.next, state.log, state.next, pc, []);
    assert state.log + [] == state.log;
    TasksOkAfter(s, state.log, state.tasks, state.next, pc);
  }

  lemma OthersKept(s: Setup, table: Table, state: State, t: nat, u: nat, es: seq<Event>)
    requires BASE in s.book && Inv(s, table, state) && t in state.tasks && u in state.tasks && u != t && |es| <= 2
    requires forall i :: 0 <= i < |es| ==>
               es[i].task == t
               && (state.shared.writer && !HoldsRead(state.tasks[t]) && !HoldsWrite(state.tasks[t]) ==> LockFree(es[i]))
    ensures TaskOk(s, state.log + es, u, state.tasks[u])
  {
    if HoldsWrite(state.tasks[u]) {
      WriterIsAlone(state.shared, state.tasks, u, t);
    }
    TaskOkExtend(s, state.log, es, u, state.tasks[u]);
  }

  /** A step, leaving aside the coroutine it may start. */
  lemma OwnPartKeepsInv(s: Setup, table: Table, state: State, t: nat, env: Env)
    requires BASE in s.book && Inv(s, table, state) && t in state.tasks && env.now == |state.log|
    ensures var e := Advance(s, t, state.tasks[t], state.shared, env);
            e.Some? ==>
              Inv(s, table, State(e.value.shared, state.tasks[t := e.value.pc], state.next, state.log + e.value.events))
  {
    var e := Advance(s, t, state.tasks[t], state.shared, env);
    assert TaskOk(s, state.log, t, state.tasks[t]);
    if e.Some? {
      LockOkAfterStep(s, state, t, env);
      OwnStep(s, state.log, t, state.tasks[t], state.shared, env);
      StepLaw(s, state.log, t, state.tasks[t], state.shared, env);
      StepTable(s, table, state.log, t, state.tasks[t], state.shared, env);
      StepEvents(s, t, state.tasks[t], state.shared, env);
      EffectKeepsInv(s, table, state, t, e.value);
    }
  }

  lemma EffectKeepsInv(s: Setup, table: Table, state: State, t: nat, e: Effect)
    requires BASE in s.book && Inv(s, table, state) && t in state.tasks && |e.events| <= 2
    requires LockOk(e.shared, state.tasks[t := e.pc])
    requires LawFollows(s, e.shared, state.log + e.events) && ListsFollow(table, e.shared, state.log + e.events)
    requires LogInOrder(s, state.log + e.events) && TaskOk(s, state.log + e.events, t, e.pc)
    requires forall i :: 0 <= i < |e.events| ==>
               e.events[i].task == t
               && (state.shared.writer && !HoldsRead(state.tasks[t]) && !HoldsWrite(state.tasks[t]) ==>
                    LockFree(e.events[i]))
    ensures Inv(s, table, State(e.shared, state.tasks[t := e.pc], state.next, state.log + e.events))
  {
    forall u | u in state.tasks && u != t ensures TaskOk(s, state.log + e.events, u, state.tasks[u]) {
      OthersKept(s, table, state, t, u, e.events);
    }
    TasksOkAfter(s, state.log + e.events, state.tasks, t, e.pc);
    NumbersAfter(state.tasks, state.next, state.log, t, e.pc, e.events);
  }

  lemma StepKeepsInv(s: Setup, table: Table, state: State, t: nat, answer: Reply)
    requires BASE in s.book && Inv(s, table, state) && t in state.tasks
    ensures var e := Advance(s, t, state.tasks[t], state.shared, EnvOf(state, t, answer));
            e.Some? ==> Inv(s, table, Apply(state, t, e.value))
  {
    var env := EnvOf(state, t, answer);
    OwnPartKeepsInv(s, table, state, t, env);
    var e := Advance(s, t, state.tasks[t], state.shared, env);
    if e.Some? && e.value.spawn.Some? {
      OnlyNestedIsSpawned(s, t, state.tasks[t], state.shared, env);
      var after := State(e.value.shared, state.tasks[t := e.value.pc], state.next, state.log + e.value.events);
      SpawnedKeepsInv(s, table, after, e.value.spawn.value);
    }
  }

  lemma CancelKeepsLock(sh: Shared, tasks: map<nat, Pc>, t: nat)
    requires LockOk(sh, tasks) && t in tasks
    ensures var e := Cancel(tasks[t], sh);
            LockOk(e.shared, tasks[t := Crashed]) && e == Effect(Crashed, e.shared, [])
            && e.shared.law == sh.law && e.shared.table == sh.table
  {
    HolderIsCounted(sh, tasks, t);
    HoldersAfter(tasks, t, Crashed);
  }

  lemma InterruptKeepsInv(s: Setup, table: Table, state: State, t: nat)
    requires BASE in s.book && Inv(s, table, state) && t in state.tasks
    ensures Inv(s, table, Apply(state, t, Cancel(state.tasks[t], state.shared)))
  {
    CancelKeepsLock(state.shared, state.tasks, t);
    assert state.log + [] == state.log;
    NumbersAfter(state.tasks, state.next, state.log, t, Crashed, []);
    TasksOkAfter(s, state.log, state.tasks, t, Crashed);
  }

  lemma NextKeepsInv(s: Setup, table: Table, state: State, a: Action)
    requires BASE in s.book && Inv(s, table, state)
    ensures Next(s, state, a).Some? ==> Inv(s, table, Next(s, state, a).value)
  {
    if Next(s, state, a).Some? {
      match a
      case Spawn(pc) => SpawnedKeepsInv(s, table, state, pc);
      case Step(t, answer) => StepKeepsInv(s, table, state, t, answer);
      case Interrupt(t) => InterruptKeepsInv(s, table, state, t);
    }
  }

  /** Every run, however the coroutines interleave, keeps the invariant. */
  lemma {:induction false} RunsKeepInv(s: Setup, table: Table, actions: seq<Action>)
    requires BASE in s.book
    ensures Execute(s, table, actions).Some? ==> Inv(s, table, Execute(s, table, actions).value)
  {
    if actions == [] {
      assert Readers(map[]) == {} && Writers(map[]) == {};
    } else {
      var before := actions[..|actions| - 1];
      RunsKeepInv(s, table, before);
      if Execute(s, table, before).Some? {
        NextKeepsInv(s, table, Execute(s, table, before).value, actions[|actions| - 1]);
      }
    }
  }
}
