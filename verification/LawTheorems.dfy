/** What every run of the law protocol guarantees. */
module LawTheorems {
  import opened Wrappers
  import opened Laws
  import opened Admission
  import opened Failsafes
  import opened LawProtocol
  import opened LawSafety

  // ----- safety -----

  /** What the invariant says of the log alone. */
  lemma RunsAreInOrder(s: Setup, table: Table, actions: seq<Action>)
    requires BASE in s.book && Execute(s, table, actions).Some?
    ensures var state := Execute(s, table, actions).value;
            LogInOrder(s, state.log) && LawFollows(s, state.shared, state.log)
              && ListsFollow(table, state.shared, state.log)
  {
    RunsKeepInv(s, table, actions);
  }

  /** Main result: in every interleaving, each command whose handler starts was
      permitted by the law in force at its own check. */
  lemma HandledCallsWerePermitted(s: Setup, table: Table, actions: seq<Action>, i: nat)
    requires BASE in s.book && Execute(s, table, actions).Some?
    requires i < |Execute(s, table, actions).value.log| && Execute(s, table, actions).value.log[i].Began?
    ensures var log := Execute(s, table, actions).value.log;
            exists c: nat :: c < i && log[c] == Checked(log[i].task, log[i].call, true)
              && LawAt(log[..c]).Some? && LawAt(log[..c]).value in s.book
              && Permits(s.matches, s.book[LawAt(log[..c]).value], s.book[BASE], log[i].call)
  {
    RunsAreInOrder(s, table, actions);
    var log := Execute(s, table, actions).value.log;
    assert InOrder(s, log[..i], log[i]);
    var c := log[i].checkedAt;
    assert log[..i][..c] == log[..c];
    assert log[c] == Checked(log[i].task, log[i].call, true);
  }

  /** Main result: the law in force is the last one committed, and a law is
      committed only for the start of the vehicle or for the match, under the law
      then in force, of a call that passed its check. */
  lemma LawChangesOnlyAsAskedFor(s: Setup, table: Table, actions: seq<Action>)
    requires BASE in s.book && Execute(s, table, actions).Some?
    ensures var state := Execute(s, table, actions).value;
            && state.shared.law == LawAt(state.log)
            && (state.shared.law.Some? ==> state.shared.law.value in s.book)
            && (forall i :: 0 <= i < |state.log| && state.log[i].Committed? ==>
                  AskedFor(s, state.log[..i], state.log[i].task, state.log[i].origin, state.log[i].law))
  {
    RunsAreInOrder(s, table, actions);
    var log := Execute(s, table, actions).value.log;
    forall i | 0 <= i < |log| && log[i].Committed?
      ensures AskedFor(s, log[..i], log[i].task, log[i].origin, log[i].law)
    {
      assert InOrder(s, log[..i], log[i]);
    }
  }

  /** From position `since` on, only `t`, which took the write lock there, did anything
      that needs the lock. */
  ghost predicate ExclusiveSection(log: seq<Event>, t: nat, since: nat, i: nat)
    requires i < |log|
  {
    && since < i && log[since] == Locked(t)
    && forall j :: since < j < i ==> log[j].task == t || LockFree(log[j])
  }

  lemma SectionOf(log: seq<Event>, t: nat, since: nat, i: nat)
    requires i < |log| && AloneSince(log[..i], t, since)
    ensures ExclusiveSection(log, t, since, i)
  {
    assert log[..i][since] == log[since];
    forall j | since < j < i ensures log[j].task == t || LockFree(log[j]) {
      assert log[..i][j] == log[j];
    }
  }

  /** The commit at `i` closes an exclusive section in which the whole enter batch
      of the law was sent, one result per command in order, and each result was a
      response saying COMPLETED: no name was unknown and no call failed. */
  ghost predicate CommitIsSerial(s: Setup, log: seq<Event>, i: nat)
    requires i < |log| && log[i].Committed?
  {
    var e := log[i];
    && e.law in s.book
    && ExclusiveSection(log, e.task, e.since, i)
    && SentSince(log[..i], e.task, e.since) == Zip(s.book[e.law].enter, seq(|s.book[e.law].enter|, _ => COMPLETED))
    && forall j :: e.since < j < i && log[j].Sent? && log[j].task == e.task ==>
         s.known(log[j].cmd) && log[j].source == Answered(Response(COMPLETED))
  }

  /** What a section sent is on its list. */
  lemma {:induction false} SentIsListed(log: seq<Event>, t: nat, since: nat, j: nat)
    requires since <= j < |log| && log[j].Sent? && log[j].task == t
    ensures (log[j].cmd, StatusFrom(log[j].source)) in SentSince(log, t, since)
  {
    if j < |log| - 1 {
      SentIsListed(log[..|log| - 1], t, since, j);
    }
  }

  /** Neither an unknown name nor an RPC error counts as completed. */
  lemma OnlyResponsesComplete(source: Source)
    requires StatusFrom(source) == COMPLETED
    ensures source == Answered(Response(COMPLETED))
  {}

  lemma CompletedSources(s: Setup, log: seq<Event>, t: nat, since: nat, cmds: seq<string>, j: nat)
    requires BASE in s.book && LogInOrder(s, log)
    requires SentSince(log, t, since) == Zip(cmds, seq(|cmds|, _ => COMPLETED))
    requires since < j < |log| && log[j].Sent? && log[j].task == t
    ensures s.known(log[j].cmd) && log[j].source == Answered(Response(COMPLETED))
  {
    SentIsListed(log, t, since, j);
    var k :| 0 <= k < |cmds| && SentSince(log, t, since)[k] == (log[j].cmd, StatusFrom(log[j].source));
    assert Zip(cmds, seq(|cmds|, _ => COMPLETED))[k].1 == COMPLETED;
    OnlyResponsesComplete(log[j].source);
    assert InOrder(s, log[..j], log[j]);
  }

  lemma PrefixInOrder(s: Setup, log: seq<Event>, i: nat)
    requires BASE in s.book && LogInOrder(s, log) && i <= |log|
    ensures LogInOrder(s, log[..i])
  {
    forall j | 0 <= j < i ensures InOrder(s, log[..i][..j], log[..i][j]) {
      assert log[..i][..j] == log[..j];
      assert InOrder(s, log[..j], log[j]);
    }
  }

  lemma CommitsAreSerial(s: Setup, log: seq<Event>, i: nat)
    requires BASE in s.book && LogInOrder(s, log) && i < |log| && log[i].Committed?
    ensures CommitIsSerial(s, log, i)
  {
    var e := log[i];
    assert InOrder(s, log[..i], e);
    SectionOf(log, e.task, e.since, i);
    PrefixInOrder(s, log, i);
    forall j | e.since < j < i && log[j].Sent? && log[j].task == e.task
      ensures s.known(log[j].cmd) && log[j].source == Answered(Response(COMPLETED))
    {
      CompletedSources(s, log[..i], e.task, e.since, s.book[e.law].enter, j);
    }
  }

  /** Main result: law changes are serialised. A batch with a failure commits
      nothing: it ends in `Abandoned`, which leaves the law in force as it was. */
  lemma LawChangesAreSerialised(s: Setup, table: Table, actions: seq<Action>, i: nat)
    requires BASE in s.book && Execute(s, table, actions).Some?
    requires i < |Execute(s, table, actions).value.log|
    ensures var log := Execute(s, table, actions).value.log;
            && (log[i].Committed? ==> CommitIsSerial(s, log, i))
            && (log[i].Abandoned? ==> LawAt(log[..i + 1]) == LawAt(log[..i]))
  {
    RunsAreInOrder(s, table, actions);
    var log := Execute(s, table, actions).value.log;
    LawAfterEvent(log, i);
    if log[i].Committed? {
      CommitsAreSerial(s, log, i);
    }
  }

  lemma LawAfterEvent(log: seq<Event>, i: nat)
    requires i < |log|
    ensures LawAt(log[..i + 1]) == if log[i].Committed? then Some(log[i].law) else LawAt(log[..i])
  {
    assert log[..i + 1] == log[..i] + [log[i]];
    LawAtAppend(log[..i], log[i]);
  }

  /** A batch is abandoned only because of a result other than COMPLETED. */
  lemma OnlyFailuresAbandon(s: Setup, table: Table, actions: seq<Action>, i: nat)
    requires BASE in s.book && Execute(s, table, actions).Some?
    requires i < |Execute(s, table, actions).value.log| && Execute(s, table, actions).value.log[i].Abandoned?
    ensures var log := Execute(s, table, actions).value.log;
            exists k: nat :: k < |SentSince(log[..i], log[i].task, log[i].since)|
              && SentSince(log[..i], log[i].task, log[i].since)[k].1 != COMPLETED
  {
    RunsAreInOrder(s, table, actions);
    var log := Execute(s, table, actions).value.log;
    var e := log[i];
    assert InOrder(s, log[..i], e);
    var results: seq<int> :| |results| == |s.book[e.law].enter| && !AllCompleted(results)
                             && SentSince(log[..i], e.task, e.since) == Zip(s.book[e.law].enter, results);
    var k :| 0 <= k < |results| && results[k] != COMPLETED;
    assert SentSince(log[..i], e.task, e.since)[k].1 == results[k];
  }

  lemma MissingIffUnknown(s: Setup, log: seq<Event>, e: Event)
    requires BASE in s.book && (e.Sent? || e.Startup?) && InOrder(s, log, e)
    ensures e.source.Missing? <==> !s.known(e.cmd)
  {}

  lemma StatusOfSource(source: Source)
    ensures StatusFrom(source)
         == if source.Missing? then 5
            else if source.reply.RpcError? then source.reply.code + 2
            else source.reply.status
  {}

  /** A result is `Missing`, with its own error status, exactly for a command unknown
      to the descriptor table; an RPC error counts with its code plus 2. */
  lemma UnknownCommandsFail(s: Setup, table: Table, actions: seq<Action>, i: nat)
    requires BASE in s.book && Execute(s, table, actions).Some?
    requires i < |Execute(s, table, actions).value.log|
    ensures var e := Execute(s, table, actions).value.log[i];
            e.Sent? || e.Startup? ==>
              && (e.source.Missing? <==> !s.known(e.cmd))
              && StatusFrom(e.source)
                   == if !s.known(e.cmd) then 5
                      else if e.source.reply.RpcError? then e.source.reply.code + 2
                      else e.source.reply.status
  {
    RunsAreInOrder(s, table, actions);
    var log := Execute(s, table, actions).value.log;
    if log[i].Sent? || log[i].Startup? {
      MissingIffUnknown(s, log[..i], log[i]);
      StatusOfSource(log[i].source);
    }
  }

  /** Main result: a rejected call leaves nothing in the log but its failed check:
      no handler, no law change, no command sent. */
  lemma RejectedCallsChangeNothing(s: Setup, table: Table, actions: seq<Action>, t: nat)
    requires BASE in s.book && Execute(s, table, actions).Some?
    requires t in Execute(s, table, actions).value.tasks && Execute(s, table, actions).value.tasks[t].Rejected?
    ensures var state := Execute(s, table, actions).value;
            forall i :: 0 <= i < |state.log| && state.log[i].task == t ==>
              state.log[i] == Checked(t, state.tasks[t].call, false)
  {
    RunsKeepInv(s, table, actions);
    assert TaskOk(s, Execute(s, table, actions).value.log, t, Execute(s, table, actions).value.tasks[t]);
  }

  /** Main result: in every run the lists of the base law and of the others are
      what the firings so far make of them: whole copies of the original base list. */
  lemma FailsafeListsInEveryRun(s: Setup, table: Table, actions: seq<Action>, law: string, name: string)
    requires BASE in s.book && Execute(s, table, actions).Some?
    requires HasList(table, BASE, name) && law != BASE && HasList(table, law, name)
    ensures var state := Execute(s, table, actions).value;
            var firings := FiringsOf(state.log);
            && HasList(state.shared.table, BASE, name) && HasList(state.shared.table, law, name)
            && state.shared.table[BASE][name] == Times(table[BASE][name], BaseCopies(firings, name))
            && state.shared.table[law][name]
                 == table[law][name] + Times(table[BASE][name], LawCopies(firings, law, name))
  {
    RunsAreInOrder(s, table, actions);
    var firings := FiringsOf(Execute(s, table, actions).value.log);
    BaseListDoubles(table, firings, name);
    ListsGrowByWholeCopies(table, firings, law, name);
  }

  // ----- what a failsafe sends -----

  ghost function Commands(sent: seq<(string, int)>): seq<string> {
    seq(|sent|, i requires 0 <= i < |sent| => sent[i].0)
  }

  lemma ZipCommands(cmds: seq<string>, results: seq<int>)
    requires |results| == |cmds|
    ensures Commands(Zip(cmds, results)) == cmds
  {}

  /** The failsafe that ended at `i` sent, holding the lock, the own commands of the law
      in force and then the base commands: one whole copy of the original list or more,
      and exactly k copies on the k-th firing of a law with its own list, if none
      happened under the base law. */
  ghost predicate FailsafeIsComplete(table: Table, log: seq<Event>, i: nat)
    requires i < |log| && log[i].FailsafeDone?
  {
    var t, since := log[i].task, log[i].since;
    && ExclusiveSection(log, t, since, i) && since + 1 < i && log[since + 1].Fired?
    && LawAt(log[..since]) == Some(log[since + 1].law)
    && var law, name, before := log[since + 1].law, log[since + 1].name, FiringsOf(log[..since]);
       && HasList(table, BASE, name)
       && Commands(SentSince(log[..i], t, since))
          == OwnCommands(table, law, name) + Times(table[BASE][name], CopiesSent(table, before, law, name))
       && (law != BASE && HasList(table, law, name) && Count(before, Firing(BASE, name)) == 0 ==>
             CopiesSent(table, before, law, name) == Count(before, Firing(law, name)) + 1)
  }

  lemma JustBeforeFiring(log: seq<Event>, since: nat)
    requires since + 1 < |log| && log[since].Locked?
    ensures FiringsOf(log[..since + 1]) == FiringsOf(log[..since]) && LawAt(log[..since + 1]) == LawAt(log[..since])
  {
    assert log[..since + 1] == log[..since] + [log[since]];
    FiringsAppend(log[..since], log[since]);
    LawAtAppend(log[..since], log[since]);
    assert FiringsOf(log[..since]) + [] == FiringsOf(log[..since]);
  }

  lemma FiredCommands(table: Table, log: seq<Event>, since: nat)
    requires FiredInOrder(table, log) && since + 1 < |log| && log[since].Locked? && log[since + 1].Fired?
    ensures var e, before := log[since + 1], FiringsOf(log[..since]);
            && HasList(table, BASE, e.name)
            && e.cmds == OwnCommands(table, e.law, e.name)
                 + Times(table[BASE][e.name], CopiesSent(table, before, e.law, e.name))
            && (e.law != BASE && HasList(table, e.law, e.name) && Count(before, Firing(BASE, e.name)) == 0 ==>
                  CopiesSent(table, before, e.law, e.name) == Count(before, Firing(e.law, e.name)) + 1)
  {
    var e, before := log[since + 1], FiringsOf(log[..since]);
    JustBeforeFiring(log, since);
    assert FiredOk(table, log[..since + 1], e);
    ListsStay(table, before, BASE, e.name);
    FiringSendsOwnThenBase(table, before, e.law, e.name);
    if e.law != BASE && HasList(table, e.law, e.name) && Count(before, Firing(BASE, e.name)) == 0 {
      KthFiringSendsKCopies(table, before, e.law, e.name);
    }
  }

  lemma FailsafeSection(s: Setup, log: seq<Event>, i: nat)
    requires BASE in s.book && LogInOrder(s, log) && i < |log| && log[i].FailsafeDone?
    ensures var t, since := log[i].task, log[i].since;
            && ExclusiveSection(log, t, since, i) && since + 1 < i && log[since + 1].Fired?
            && LawAt(log[..since]) == Some(log[since + 1].law)
            && Commands(SentSince(log[..i], t, since)) == log[since + 1].cmds
  {
    var t, since := log[i].task, log[i].since;
    assert InOrder(s, log[..i], log[i]);
    SectionOf(log, t, since, i);
    assert log[..i][since + 1] == log[since + 1];
    var cmds := log[since + 1].cmds;
    var results: seq<int> :| |results| == |cmds| && SentSince(log[..i], t, since) == Zip(cmds, results);
    ZipCommands(cmds, results);
    assert InOrder(s, log[..since + 1], log[since + 1]);
    JustBeforeFiring(log, since);
  }

  /** Main result: in every run, every failsafe that ended sent what it should. */
  lemma FailsafesAreComplete(s: Setup, table: Table, actions: seq<Action>, i: nat)
    requires BASE in s.book && Execute(s, table, actions).Some?
    requires i < |Execute(s, table, actions).value.log| && Execute(s, table, actions).value.log[i].FailsafeDone?
    ensures FailsafeIsComplete(table, Execute(s, table, actions).value.log, i)
  {
    RunsAreInOrder(s, table, actions);
    var log := Execute(s, table, actions).value.log;
    FailsafeSection(s, log, i);
    FiredCommands(table, log, log[i].since);
  }

  // ----- entering a law that is in force -----

  /** The last commit in `log[m..i]`, if there is one. */
  ghost function LastCommit(log: seq<Event>, m: nat, i: nat): (r: Option<nat>)
    requires m <= i <= |log|
    ensures r.Some? ==> m <= r.value < i && log[r.value].Committed?
    decreases i
  {
    if m == i then None
    else if log[i - 1].Committed? then Some(i - 1)
    else LastCommit(log, m, i - 1)
  }

  lemma {:induction false} LawAfterLastCommit(log: seq<Event>, m: nat, i: nat)
    requires m <= i <= |log|
    ensures match LastCommit(log, m, i)
            case None => LawAt(log[..i]) == LawAt(log[..m]) && forall j :: m <= j < i ==> !log[j].Committed?
            case Some(j) => m <= j < i && log[j].Committed? && LawAt(log[..i]) == Some(log[j].law)
                            && forall k :: j < k < i ==> !log[k].Committed?
    decreases i
  {
    if m < i {
      assert log[..i] == log[..i - 1] + [log[i - 1]];
      LawAtAppend(log[..i - 1], log[i - 1]);
      if !log[i - 1].Committed? {
        LawAfterLastCommit(log, m, i - 1);
      }
    }
  }

  /** A commit that enters a law already in force. */
  ghost predicate Reenters(log: seq<Event>, i: nat)
    requires i < |log| && log[i].Committed?
  {
    LawAt(log[..i]) == Some(log[i].law)
  }

  /** The law a commit was asked for, and the law in force when it was. */
  lemma CommitWasMatched(s: Setup, log: seq<Event>, i: nat)
    requires BASE in s.book && LogInOrder(s, log) && i < |log| && log[i].Committed? && log[i].origin.FromCall?
    ensures var m := log[i].origin.matchedAt;
            && m < i && log[m].Matched? && log[i].law == Effective(s.book, log[m].target)
            && LawAt(log[..m]).Some? && LawAt(log[..m]).value in s.book && LawAt(log[..m]) != Some(log[m].target)
  {
    var m := log[i].origin.matchedAt;
    assert InOrder(s, log[..i], log[i]);
    assert log[..i][m] == log[m];
    assert InOrder(s, log[..m], log[m]);
  }

  /** Main result: the state is looked at only once, when the call is matched. The law
      entered is one already in force if and only if the last commit since then was to
      that very law or, without one, the target is unknown and REMOTE was in force. */
  lemma ReentersIff(s: Setup, table: Table, actions: seq<Action>, i: nat)
    requires BASE in s.book && Execute(s, table, actions).Some?
    requires i < |Execute(s, table, actions).value.log|
    requires var e := Execute(s, table, actions).value.log[i]; e.Committed? && e.origin.FromCall?
    ensures var log := Execute(s, table, actions).value.log;
            var m := log[i].origin.matchedAt;
            && m < i && log[m].Matched?
            && (Reenters(log, i) <==>
                  match LastCommit(log, m, i)
                  case Some(j) => log[j].law == log[i].law
                  case None => log[m].target !in s.book && LawAt(log[..m]) == Some(REMOTE))
  {
    RunsAreInOrder(s, table, actions);
    var log := Execute(s, table, actions).value.log;
    CommitWasMatched(s, log, i);
    LawAfterLastCommit(log, log[i].origin.matchedAt, i);
  }

  // ----- the watchdog's failsafe -----

  /** What the watchdog saw before it fired. */
  lemma FiringFollowsRead(s: Setup, log: seq<Event>, i: nat)
    requires BASE in s.book && LogInOrder(s, log) && i < |log| && log[i].Fired? && log[i].seenAt.Some?
    ensures var r := log[i].seenAt.value;
            r < i && log[r] == Read(log[i].task, Some(REMOTE)) && LawAt(log[..r]) == Some(REMOTE)
    ensures LawAt(log[..i]) == Some(log[i].law)
  {
    var r := log[i].seenAt.value;
    assert InOrder(s, log[..i], log[i]);
    assert log[..i][r] == log[r];
    assert InOrder(s, log[..r], log[r]);
  }

  /** Main result: the watchdog fires because it has read that the law is REMOTE, but
      the failsafe takes the lock anew. It runs the list of another law if and only if
      another law was the last to be committed in between. */
  lemma WatchdogFiresUnderAnotherLawIff(s: Setup, table: Table, actions: seq<Action>, i: nat)
    requires BASE in s.book && Execute(s, table, actions).Some?
    requires i < |Execute(s, table, actions).value.log|
    requires var e := Execute(s, table, actions).value.log[i]; e.Fired? && e.seenAt.Some?
    ensures var log := Execute(s, table, actions).value.log;
            var r := log[i].seenAt.value;
            && r < i && log[r] == Read(log[i].task, Some(REMOTE)) && LawAt(log[..r]) == Some(REMOTE)
            && (log[i].law != REMOTE <==>
                  match LastCommit(log, r, i)
                  case Some(j) => log[j].law != REMOTE
                  case None => false)
  {
    RunsAreInOrder(s, table, actions);
    var log := Execute(s, table, actions).value.log;
    FiringFollowsRead(s, log, i);
    LawAfterLastCommit(log, log[i].seenAt.value, i);
  }
}
