/** What one command does to the control law when it is let through, refused or
    leads to a law change, with nothing running in between. */
module Admission {
  import opened Wrappers
  import opened Laws

  /** The identity under which the authority sends its own commands. */
  const AUTHORITY := "authority"

  /** What stays fixed: the law book, the pattern matcher, the descriptor table and the
      identity of the commands the authority sends. */
  datatype Setup = Setup(book: LawBook, matches: Matcher, known: string -> bool, sender: string)

  function Results(known: string -> bool, cmds: seq<string>, replies: nat -> Reply): (r: seq<int>)
    ensures |r| == |cmds|
  {
    seq(|cmds|, i requires 0 <= i < |cmds| => ResultOf(known, cmds[i], replies(i)))
  }

  /** `set_law`: enter the target law if all its enter commands complete. The
      first component is the state afterwards. */
  function SetLaw(s: Setup, state: Option<string>, target: string, replies: nat -> Reply): (Option<string>,
                  Outcome<bool>) {
    var law := Effective(s.book, target);
    if state == Some(target) then (state, Returns(true))
    else if law !in s.book then (state, Raises)
    else if AllCompleted(Results(s.known, s.book[law].enter, replies)) then (Some(law), Returns(true))
    else (state, Returns(false))
  }

  /** The law change a permitted call asks for, if it asks for another law. */
  function NextState(s: Setup, state: Option<string>, call: Call): Option<string>
    requires BASE in s.book && state.Some? && state.value in s.book
  {
    var target := MatchTarget(s.matches, s.book[state.value], s.book[BASE], call);
    if target.Some? && target.value != "" && target != state then target else None
  }

  datatype Decision = Reached | Refused | Failed

  /** `intercept`, for a caller that gave an identity. */
  function Intercept(s: Setup, state: Option<string>, identity: string, call: Call,
                     replies: nat -> Reply): (Option<string>, Decision)
    requires BASE in s.book && (state.Some? ==> state.value in s.book)
  {
    if identity == "" then (state, Refused)
    else if identity == AUTHORITY then (state, Reached)
    else if state.None? then (state, Failed)
    else if !Permits(s.matches, s.book[state.value], s.book[BASE], call) then (state, Refused)
    else
      match NextState(s, state, call)
      case None => (state, Reached)
      case Some(target) =>
        var (after, result) := SetLaw(s, state, target, replies);
        (after, if result.Raises? then Failed else Reached)
  }

  /** A state is moved only by a permitted call, and only to the law its match
      names (or to REMOTE for an unknown name) once all enter commands completed. */
  lemma OnlyPermittedMatchesChangeTheLaw(s: Setup, state: Option<string>, identity: string, call: Call,
          replies: nat -> Reply)
    requires BASE in s.book && (state.Some? ==> state.value in s.book)
    ensures var (after, decision) := Intercept(s, state, identity, call, replies);
            && (decision != Reached ==> after == state)
            && (after.Some? ==> after.value in s.book)
            && (after != state ==>
                  && state.Some? && identity !in {"", AUTHORITY}
                  && Permits(s.matches, s.book[state.value], s.book[BASE], call)
                  && MatchTarget(s.matches, s.book[state.value], s.book[BASE], call).Some?
                  && after == Some(Effective(s.book,
                       MatchTarget(s.matches, s.book[state.value], s.book[BASE], call).value))
                  && forall i :: 0 <= i < |s.book[after.value].enter| ==>
                       ResultOf(s.known, s.book[after.value].enter[i], replies(i)) == COMPLETED)
  {
    var (after, decision) := Intercept(s, state, identity, call, replies);
    if after != state {
      var results := Results(s.known, s.book[after.value].enter, replies);
      assert AllCompleted(results);
      assert forall i :: 0 <= i < |results| ==>
        results[i] == ResultOf(s.known, s.book[after.value].enter[i], replies(i));
    }
  }

  // ----- what is decided, in terms of the patterns and rules alone -----

  ghost predicate NoneMatches(m: Matcher, patterns: seq<string>, call: Call) {
    forall i :: 0 <= i < |patterns| ==> !m(call, patterns[i])
  }

  /** Main result: a call is refused if and only if it has no identity or, with a law in
      force and not coming from the authority, no pattern of that law or of the base law
      matches it. A call of the authority is let through and changes nothing; any other
      one fails exactly if no law is in force or the law it asks for is not there. */
  lemma WhoIsRefused(s: Setup, state: Option<string>, identity: string, call: Call, replies: nat -> Reply)
    requires BASE in s.book && (state.Some? ==> state.value in s.book)
    ensures var (after, decision) := Intercept(s, state, identity, call, replies);
            && (decision == Refused <==>
                  || identity == ""
                  || (identity != "authority" && state.Some?
                      && NoneMatches(s.matches, s.book[state.value].allowed, call)
                      && NoneMatches(s.matches, s.book["__BASE__"].allowed, call)))
            && (identity == "authority" ==> decision == Reached)
            && (identity in {"", "authority"} || decision != Reached ==> after == state)
            && (state.None? && identity !in {"", "authority"} ==> decision == Failed)
  {
    OnlyPermittedMatchesChangeTheLaw(s, state, identity, call, replies);
  }

  ghost predicate FirstRule(m: Matcher, rules: seq<Rule>, call: Call, target: string) {
    exists i :: 0 <= i < |rules| && m(call, rules[i].pattern) && rules[i].target == target
      && forall j :: 0 <= j < i ==> !m(call, rules[j].pattern)
  }

  ghost predicate NoRule(m: Matcher, rules: seq<Rule>, call: Call) {
    forall i :: 0 <= i < |rules| ==> !m(call, rules[i].pattern)
  }

  /** The call asks for `target`: by the first base rule that matches or, if none does, by
      the first rule of the law in force. */
  ghost predicate AsksFor(s: Setup, law: string, call: Call, target: string)
    requires BASE in s.book && law in s.book
  {
    || FirstRule(s.matches, s.book[BASE].rules, call, target)
    || (NoRule(s.matches, s.book[BASE].rules, call) && FirstRule(s.matches, s.book[law].rules, call, target))
  }

  lemma MatchTargetIff(s: Setup, law: string, call: Call, target: string)
    requires BASE in s.book && law in s.book
    ensures MatchTarget(s.matches, s.book[law], s.book[BASE], call) == Some(target) <==> AsksFor(s, law, call, target)
  {
    FirstTargetIsFirst(s.matches, s.book[BASE].rules, call);
    FirstTargetIsFirst(s.matches, s.book[law].rules, call);
  }

  /** Every command is known and answered by a response that says it completed. */
  ghost predicate AllAnswered(known: string -> bool, cmds: seq<string>, replies: nat -> Reply) {
    forall i :: 0 <= i < |cmds| ==> known(cmds[i]) && replies(i) == Response(2)
  }

  lemma AllCompletedIff(known: string -> bool, cmds: seq<string>, replies: nat -> Reply)
    ensures AllCompleted(Results(known, cmds, replies)) <==> AllAnswered(known, cmds, replies)
  {
    var results := Results(known, cmds, replies);
    forall i | 0 <= i < |cmds| ensures results[i] == COMPLETED <==> known(cmds[i]) && replies(i) == Response(2) {
      assert results[i] == ResultOf(known, cmds[i], replies(i));
    }
  }

  /** Main result: a call that is admitted and asks for `target` changes the law if and
      only if that is another law, there is such a law or REMOTE to stand in for it, and
      every enter command of it is known and completes. It reaches its handler unless
      neither law is there. */
  lemma WhatAnAdmittedCallDoes(s: Setup, law: string, identity: string, call: Call, replies: nat -> Reply,
                               target: string)
    requires BASE in s.book && law in s.book && identity !in {"", "authority"} && AsksFor(s, law, call, target)
    requires !NoneMatches(s.matches, s.book[law].allowed, call) || !NoneMatches(s.matches, s.book[BASE].allowed, call)
    ensures var to := if target in s.book then target else "REMOTE";
            Intercept(s, Some(law), identity, call, replies)
              == if target == "" || target == law then (Some(law), Reached)
                 else if to !in s.book then (Some(law), Failed)
                 else if AllAnswered(s.known, s.book[to].enter, replies) then (Some(to), Reached)
                 else (Some(law), Reached)
  {
    MatchTargetIff(s, law, call, target);
    var to := if target in s.book then target else "REMOTE";
    if to in s.book {
      AllCompletedIff(s.known, s.book[to].enter, replies);
    }
  }

  /** One that is admitted and asks for nothing reaches its handler under the same law. */
  lemma WhatAnIdleCallDoes(s: Setup, law: string, identity: string, call: Call, replies: nat -> Reply)
    requires BASE in s.book && law in s.book && identity !in {"", "authority"}
    requires NoRule(s.matches, s.book[BASE].rules, call) && NoRule(s.matches, s.book[law].rules, call)
    requires !NoneMatches(s.matches, s.book[law].allowed, call) || !NoneMatches(s.matches, s.book[BASE].allowed, call)
    ensures Intercept(s, Some(law), identity, call, replies) == (Some(law), Reached)
  {
    FirstTargetIsFirst(s.matches, s.book[BASE].rules, call);
    FirstTargetIsFirst(s.matches, s.book[law].rules, call);
  }
}
