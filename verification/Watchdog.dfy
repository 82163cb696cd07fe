/** The command handler's loop: it polls the command socket, and when a silence
    after a message lasts long enough under REMOTE law it runs the server
    disconnect failsafe, once per silence. */
module Watchdog {

  import opened Wrappers

  /** What one round of the loop observes. `law` is what `get_law` answers if asked,
      `survives` says whether the failsafe returns if it is called, and `parses`
      whether the frame is a command. */
  datatype Poll =
    | Quiet(now: real, law: string, survives: bool)
    | Message(now: real, parses: bool)

  /** Python's truth of a number that may be missing. */
  predicate Truthy(x: Option<real>) {
    x.Some? && x.value != 0.0
  }

  // ----- what the loop is for -----

  /** Round `i` is quiet, round `m` brought the last message before it, and the
      silence has by then lasted `timeout` under REMOTE law. */
  ghost predicate Overdue(timeout: Option<real>, polls: seq<Poll>, m: nat, i: nat) {
    && m < i < |polls|
    && polls[m].Message? && Truthy(Some(polls[m].now))
    && (forall k :: m < k <= i ==> polls[k].Quiet?)
    && Truthy(timeout)
    && polls[i].now - polls[m].now >= timeout.value
    && polls[i].law == "REMOTE"
  }

  /** Round `i` is the first overdue round of its silence. */
  ghost predicate FirstOverdue(timeout: Option<real>, polls: seq<Poll>, m: nat, i: nat) {
    Overdue(timeout, polls, m, i) && forall j :: m < j < i ==> !Overdue(timeout, polls, m, j)
  }

  ghost predicate ShouldFire(timeout: Option<real>, polls: seq<Poll>, i: nat) {
    exists m: nat :: FirstOverdue(timeout, polls, m, i)
  }

  /** Round `i` ends the loop with an exception, if it is reached. */
  ghost predicate Fatal(timeout: Option<real>, polls: seq<Poll>, i: nat)
    requires i < |polls|
  {
    match polls[i]
    case Quiet(_, _, survives) => ShouldFire(timeout, polls, i) && !survives
    case Message(_, parses) => !parses
  }

  /** The loop is still running when round `n` comes. */
  ghost predicate Reached(timeout: Option<real>, polls: seq<Poll>, n: nat) {
    n <= |polls| && forall i :: 0 <= i < n ==> !Fatal(timeout, polls, i)
  }

  ghost predicate Fires(timeout: Option<real>, polls: seq<Poll>, i: nat) {
    Reached(timeout, polls, i) && ShouldFire(timeout, polls, i)
  }

  ghost predicate Spawns(timeout: Option<real>, polls: seq<Poll>, i: nat) {
    Reached(timeout, polls, i) && i < |polls| && polls[i].Message? && polls[i].parses
  }

  ghost predicate Increasing(s: seq<nat>) {
    forall j, k :: 0 <= j < k < |s| ==> s[j] < s[k]
  }

  /** `m` is the last message before round `n`. */
  ghost predicate LastMessage(polls: seq<Poll>, n: nat, m: nat) {
    m < n <= |polls| && polls[m].Message? && forall k :: m < k < n ==> polls[k].Quiet?
  }

  ghost predicate AnyOverdue(timeout: Option<real>, polls: seq<Poll>, m: nat, n: nat) {
    exists j :: m < j < n && Overdue(timeout, polls, m, j)
  }

  /** The loop variable: the time of the last message, if its silence has not
      fired yet. */
  ghost predicate Armed(timeout: Option<real>, polls: seq<Poll>, n: nat, last: Option<real>) {
    match last
    case Some(ts) => exists m: nat ::
      LastMessage(polls, n, m) && ts == polls[m].now && !AnyOverdue(timeout, polls, m, n)
    case None => forall m: nat :: LastMessage(polls, n, m) ==> AnyOverdue(timeout, polls, m, n)
  }

  /** Whether the loop fires in a quiet round, in terms of its variable. */
  lemma FiresIffArmedAndLate(timeout: Option<real>, polls: seq<Poll>, i: nat, last: Option<real>)
    requires i < |polls| && polls[i].Quiet? && Armed(timeout, polls, i, last)
    ensures ShouldFire(timeout, polls, i)
      <==> Truthy(timeout) && Truthy(last) && polls[i].now - last.value >= timeout.value && polls[i].law == "REMOTE"
  {
    if last.Some? {
      var m: nat :| LastMessage(polls, i, m) && last.value == polls[m].now && !AnyOverdue(timeout, polls, m, i);
      if Truthy(timeout) && Truthy(last) && polls[i].now - last.value >= timeout.value && polls[i].law == "REMOTE" {
        assert FirstOverdue(timeout, polls, m, i);
      }
      if ShouldFire(timeout, polls, i) {
        var m': nat :| FirstOverdue(timeout, polls, m', i);
        assert LastMessage(polls, i, m');
        assert m' == m;
      }
    } else if ShouldFire(timeout, polls, i) {
      var m: nat :| FirstOverdue(timeout, polls, m, i);
      assert LastMessage(polls, i, m);
    }
  }

  lemma StaysArmed(timeout: Option<real>, polls: seq<Poll>, i: nat, last: Option<real>)
    requires i < |polls| && polls[i].Quiet? && Armed(timeout, polls, i, last)
    ensures Armed(timeout, polls, i + 1, if ShouldFire(timeout, polls, i) then None else last)
  {
    forall m: nat ensures LastMessage(polls, i + 1, m) <==> LastMessage(polls, i, m) {}
    forall m: nat | LastMessage(polls, i, m)
      ensures AnyOverdue(timeout, polls, m, i + 1)
              <==> AnyOverdue(timeout, polls, m, i) || Overdue(timeout, polls, m, i)
    {}
    if ShouldFire(timeout, polls, i) {
      var m: nat :| FirstOverdue(timeout, polls, m, i);
      assert LastMessage(polls, i, m);
      forall m': nat | LastMessage(polls, i, m') ensures m' == m {}
    } else if last.Some? {
      var m: nat :| LastMessage(polls, i, m) && last.value == polls[m].now && !AnyOverdue(timeout, polls, m, i);
      assert Overdue(timeout, polls, m, i) ==> FirstOverdue(timeout, polls, m, i);
      assert LastMessage(polls, i + 1, m);
      assert !AnyOverdue(timeout, polls, m, i + 1);
    } else {
      var n := i + 1;
      forall m: nat | LastMessage(polls, n, m) ensures AnyOverdue(timeout, polls, m, n) {
        assert LastMessage(polls, i, m);
      }
    }
  }

  lemma FatalEndsAll(timeout: Option<real>, polls: seq<Poll>, i: nat, k: nat)
    requires i < |polls| && Fatal(timeout, polls, i) && i < k
    ensures !Reached(timeout, polls, k)
  {}

  /** The loop itself. `fired` lists the rounds in which the failsafe was called,
      `spawned` those whose message was handed to a task. An exception, of a frame
      that is no command or of the failsafe, ends it. */
  method HandleCommands(timeout: Option<real>, polls: seq<Poll>)
    returns (fired: seq<nat>, spawned: seq<nat>, ended: bool)
    ensures Increasing(fired) && (forall i: nat :: i in fired <==> Fires(timeout, polls, i))
    ensures Increasing(spawned) && (forall i: nat :: i in spawned <==> Spawns(timeout, polls, i))
    ensures ended <==> !Reached(timeout, polls, |polls|)
  {
    fired, spawned := [], [];
    var lastManualCommandTs: Option<real> := None;
    for i := 0 to |polls|
      invariant Armed(timeout, polls, i, lastManualCommandTs) && Reached(timeout, polls, i)
      invariant Increasing(fired) && forall k: nat :: k in fired <==> k < i && Fires(timeout, polls, k)
      invariant Increasing(spawned) && forall k: nat :: k in spawned <==> k < i && Spawns(timeout, polls, k)
      invariant (forall j :: 0 <= j < |fired| ==> fired[j] < i) && (forall j :: 0 <= j < |spawned| ==> spawned[j] < i)
    {
      match polls[i]
      case Quiet(now, law, survives) =>
        FiresIffArmedAndLate(timeout, polls, i, lastManualCommandTs);
        StaysArmed(timeout, polls, i, lastManualCommandTs);
        if Truthy(timeout) && Truthy(lastManualCommandTs) && now - lastManualCommandTs.value >= timeout.value
          && law == "REMOTE" {
          fired := fired + [i];
          if !survives {
            forall k: nat | k > i ensures !Reached(timeout, polls, k) {
              FatalEndsAll(timeout, polls, i, k);
            }
            return fired, spawned, true;
          }
          lastManualCommandTs := None;
        }
      case Message(now, parses) =>
        lastManualCommandTs := Some(now);
        assert LastMessage(polls, i + 1, i);
        if !parses {
          forall k: nat | k > i ensures !Reached(timeout, polls, k) {
            FatalEndsAll(timeout, polls, i, k);
          }
          return fired, spawned, true;
        }
        spawned := spawned + [i];
    }
    ended := false;
  }

  // ----- consequences -----

  /** Every failsafe comes at least `timeout` after the last message, under REMOTE law. */
  lemma FiresLate(timeout: Option<real>, polls: seq<Poll>, i: nat)
    requires ShouldFire(timeout, polls, i)
    ensures exists m: nat :: LastMessage(polls, i, m) && Truthy(timeout) && polls[i].Quiet?
              && polls[i].now - polls[m].now >= timeout.value && polls[i].law == "REMOTE"
  {
    var m: nat :| FirstOverdue(timeout, polls, m, i);
    assert LastMessage(polls, i, m);
  }

  /** The last message was at a real time and the silence since then, under REMOTE law in
      round `i`, is at least as long as a timeout that is set. */
  ghost predicate SilentTooLong(timeout: Option<real>, polls: seq<Poll>, m: nat, i: nat) {
    && LastMessage(polls, i, m) && i < |polls| && polls[i].Quiet? && polls[m].now != 0.0
    && timeout.Some? && timeout.value != 0.0
    && polls[i].now >= polls[m].now + timeout.value && polls[i].law == "REMOTE"
  }

  /** Main result: a silence that is too long makes the loop fire, in the round that finds
      it so or before, and only once, if no exception ends the loop until then; and the
      loop fires for no other reason. */
  lemma SilenceFiresOnce(timeout: Option<real>, polls: seq<Poll>, m: nat, i: nat)
    requires SilentTooLong(timeout, polls, m, i) && Reached(timeout, polls, i)
    ensures exists k :: m < k <= i && Fires(timeout, polls, k)
    ensures forall k, l :: m < k <= i && m < l <= i && Fires(timeout, polls, k) && Fires(timeout, polls, l) ==> k == l
  {
    var k := m + 1;
    while k < i && !Overdue(timeout, polls, m, k)
      invariant m < k <= i && forall j :: m < j < k ==> !Overdue(timeout, polls, m, j)
      decreases i - k
    {
      k := k + 1;
    }
    assert FirstOverdue(timeout, polls, m, k) && Fires(timeout, polls, k);
    forall a, b | m < a < b <= i && Fires(timeout, polls, a) && Fires(timeout, polls, b) ensures false {
      MessageBetweenFires(timeout, polls, a, b);
    }
  }

  lemma OnlySilenceFires(timeout: Option<real>, polls: seq<Poll>, i: nat)
    requires Fires(timeout, polls, i)
    ensures exists m: nat :: SilentTooLong(timeout, polls, m, i)
  {
    var m: nat :| FirstOverdue(timeout, polls, m, i);
    assert SilentTooLong(timeout, polls, m, i);
  }

  /** The loop runs on as long as every frame was a command and every failsafe returned,
      and then hands each further command to a task. */
  lemma OnlyExceptionsEndTheLoop(timeout: Option<real>, polls: seq<Poll>, n: nat)
    requires n <= |polls|
    ensures Reached(timeout, polls, n)
      <==> forall i :: 0 <= i < n ==>
             (polls[i].Message? ==> polls[i].parses)
             && (polls[i].Quiet? && Fires(timeout, polls, i) ==> polls[i].survives)
    ensures n < |polls| && Reached(timeout, polls, n) ==>
              (Spawns(timeout, polls, n) <==> polls[n].Message? && polls[n].parses)
  {
    if forall i :: 0 <= i < n ==>
         (polls[i].Message? ==> polls[i].parses)
         && (polls[i].Quiet? && Fires(timeout, polls, i) ==> polls[i].survives)
    {
      ReachedStepwise(timeout, polls, n);
    }
    if Reached(timeout, polls, n) {
      forall i | 0 <= i < n
        ensures (polls[i].Message? ==> polls[i].parses)
                && (polls[i].Quiet? && Fires(timeout, polls, i) ==> polls[i].survives)
      {
        assert !Fatal(timeout, polls, i);
      }
    }
  }

  lemma {:induction false} ReachedStepwise(timeout: Option<real>, polls: seq<Poll>, n: nat)
    requires n <= |polls|
    requires forall i :: 0 <= i < n ==>
               (polls[i].Message? ==> polls[i].parses)
               && (polls[i].Quiet? && Fires(timeout, polls, i) ==> polls[i].survives)
    ensures Reached(timeout, polls, n)
  {
    if n > 0 {
      ReachedStepwise(timeout, polls, n - 1);
      assert polls[n - 1].Quiet? && ShouldFire(timeout, polls, n - 1) ==> Fires(timeout, polls, n - 1);
    }
  }

  /** Between two failsafes a new message arrived. */
  lemma MessageBetweenFires(timeout: Option<real>, polls: seq<Poll>, i: nat, j: nat)
    requires i < j && ShouldFire(timeout, polls, i) && ShouldFire(timeout, polls, j)
    ensures exists m: nat :: i < m < j && polls[m].Message?
  {
    var a: nat :| FirstOverdue(timeout, polls, a, i);
    var b: nat :| FirstOverdue(timeout, polls, b, j);
    assert i < b < j;
  }

  /** The message whose silence fired in round `i`. */
  ghost function CauseOf(timeout: Option<real>, polls: seq<Poll>, i: nat): (m: nat)
    requires ShouldFire(timeout, polls, i)
    ensures FirstOverdue(timeout, polls, m, i)
  {
    var m: nat :| FirstOverdue(timeout, polls, m, i);
    m
  }

  lemma CausesDiffer(timeout: Option<real>, polls: seq<Poll>, i: nat, j: nat)
    requires i < j && ShouldFire(timeout, polls, i) && ShouldFire(timeout, polls, j)
    ensures CauseOf(timeout, polls, i) < CauseOf(timeout, polls, j)
  {
    assert i < CauseOf(timeout, polls, j);
  }

  /** There are never more failsafes than messages. */
  lemma FiresNeverOutnumberMessages(timeout: Option<real>, polls: seq<Poll>, fired: seq<nat>, spawned: seq<nat>)
    requires Increasing(fired) && forall i: nat :: i in fired <==> Fires(timeout, polls, i)
    requires Increasing(spawned) && forall i: nat :: i in spawned <==> Spawns(timeout, polls, i)
    ensures |fired| <= |spawned|
  {
    var causes := seq(|fired|, k requires 0 <= k < |fired| && fired[k] in fired => CauseOf(timeout, polls, fired[k]));
    forall j, k | 0 <= j < k < |causes| ensures causes[j] < causes[k] {
      assert fired[j] in fired && fired[k] in fired;
      CausesDiffer(timeout, polls, fired[j], fired[k]);
    }
    forall k | 0 <= k < |causes| ensures causes[k] in spawned {
      assert Fires(timeout, polls, fired[k]) && FirstOverdue(timeout, polls, causes[k], fired[k]);
      assert !Fatal(timeout, polls, causes[k]);
      assert Spawns(timeout, polls, causes[k]);
    }
    IncreasingSubsequenceIsShorter(causes, spawned);
  }

  lemma {:induction false} IncreasingSubsequenceIsShorter(s: seq<nat>, t: seq<nat>)
    requires Increasing(s) && Increasing(t) && forall k :: 0 <= k < |s| ==> s[k] in t
    ensures |s| <= |t|
  {
    if s != [] {
      var last := s[|s| - 1];
      var p :| 0 <= p < |t| && t[p] == last;
      forall k | 0 <= k < |s| - 1 ensures s[k] in t[..p] {
        var q :| 0 <= q < |t| && t[q] == s[k];
      }
      IncreasingSubsequenceIsShorter(s[..|s| - 1], t[..p]);
    }
  }
}
