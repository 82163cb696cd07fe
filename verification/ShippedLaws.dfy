/** The law file that ships with the vehicle, and what it makes of a sequence of
    commands when each admission runs to completion before the next. */
module ShippedLaws {
  import opened Wrappers
  import opened Laws
  import opened Admission

  const LOCAL := "LOCAL"
  const MISSION_START := "server.Mission.Start"
  const MISSION_STOP := "server.Mission.Stop"
  const RETURN_TO_HOME := "server.Control.ReturnToHome"
  const SERVER := "server."
  const SERVER_CONTROL := "server.Control."
  const INTERNAL_CONTROL := "internal.Control."
  const ANY_SERVER := "server.*"
  const ANY_SERVER_CONTROL := "server.Control.*"
  const ANY_INTERNAL_CONTROL := "internal.Control.*"

  const ADD_DATASINKS := "Compute.AddDatasinks|{\"datasinks\": "
    + "[{\"id\": \"telemetry\"}, {\"id\": \"object-engine\"}, {\"id\": \"obstacle-engine\"}]}"

  const BASE_LAW := Law(
    [ADD_DATASINKS],
    [ANY_SERVER],
    [Rule(ANY_SERVER_CONTROL, REMOTE), Rule(MISSION_START, LOCAL)])

  const REMOTE_LAW := Law(
    [],
    [],
    [Rule(MISSION_START, LOCAL), Rule(RETURN_TO_HOME, LOCAL)])

  const LOCAL_LAW := Law(
    [],
    [ANY_INTERNAL_CONTROL, "internal.Compute.*", "internal.Report.*", "external.Mission.Notify"],
    [Rule(MISSION_STOP, REMOTE)])

  const BOOK: LawBook := map[BASE := BASE_LAW, REMOTE := REMOTE_LAW, LOCAL := LOCAL_LAW]

  /** The matcher of the source, for some reading of payloads. */
  function Matching(parse: string -> Option<Payload>): Matcher {
    (call: Call, pattern: string) => CheckEqual(parse, call, pattern)
  }

  function Shipped(m: Matcher, known: string -> bool): Setup {
    Setup(BOOK, m, known, AUTHORITY)
  }

  /** A command with the identity its sender gave, and the replies it would see if
      it triggered enter commands. */
  datatype Request = Request(identity: string, service: string, methodName: string, payload: Payload,
                             replies: nat -> Reply)

  function NameOf(r: Request): string {
    r.identity + "." + r.service + "." + r.methodName
  }

  function Admit(s: Setup, state: string, r: Request): (Option<string>, Decision)
    requires BASE in s.book && state in s.book
  {
    Intercept(s, Some(state), r.identity, Call(NameOf(r), r.payload), r.replies)
  }

  /** The commands that decide who is in control. */
  predicate Decides(name: string) {
    SERVER_CONTROL <= name || name == MISSION_START || name == MISSION_STOP
  }

  // ----- the patterns -----

  lemma StarPattern(parse: string -> Option<Payload>, call: Call, prefix: string)
    requires Literal(prefix) && '|' !in prefix
    ensures CheckEqual(parse, call, prefix + "*") <==> prefix <= call.name
  {
    SplitWithout(prefix + "*", '|');
    GlobPrefix(prefix, call.name);
  }

  lemma PlainPattern(parse: string -> Option<Payload>, call: Call, pattern: string)
    requires Literal(pattern) && '|' !in pattern
    ensures CheckEqual(parse, call, pattern) <==> call.name == pattern
  {
    SplitWithout(pattern, '|');
    GlobLiteral(pattern, call.name);
  }

  lemma ServerPattern(parse: string -> Option<Payload>, call: Call)
    ensures CheckEqual(parse, call, ANY_SERVER) <==> SERVER <= call.name
  {
    assert SERVER + "*" == ANY_SERVER;
    StarPattern(parse, call, SERVER);
  }

  lemma ServerControlPattern(parse: string -> Option<Payload>, call: Call)
    ensures CheckEqual(parse, call, ANY_SERVER_CONTROL) <==> SERVER_CONTROL <= call.name
  {
    assert SERVER_CONTROL + "*" == ANY_SERVER_CONTROL;
    StarPattern(parse, call, SERVER_CONTROL);
  }

  lemma InternalControlPattern(parse: string -> Option<Payload>, call: Call)
    ensures CheckEqual(parse, call, ANY_INTERNAL_CONTROL) <==> INTERNAL_CONTROL <= call.name
  {
    assert INTERNAL_CONTROL + "*" == ANY_INTERNAL_CONTROL;
    StarPattern(parse, call, INTERNAL_CONTROL);
  }

  lemma MissionStartPattern(parse: string -> Option<Payload>, call: Call)
    ensures CheckEqual(parse, call, MISSION_START) <==> call.name == MISSION_START
  {
    PlainPattern(parse, call, MISSION_START);
  }

  lemma MissionStopPattern(parse: string -> Option<Payload>, call: Call)
    ensures CheckEqual(parse, call, MISSION_STOP) <==> call.name == MISSION_STOP
  {
    PlainPattern(parse, call, MISSION_STOP);
  }

  lemma ReturnToHomePattern(parse: string -> Option<Payload>, call: Call)
    ensures CheckEqual(parse, call, RETURN_TO_HOME) <==> call.name == RETURN_TO_HOME
  {
    PlainPattern(parse, call, RETURN_TO_HOME);
  }

  /** How the patterns of the shipped laws read a command name. */
  ghost predicate ReadsPatterns(m: Matcher, call: Call) {
    && (m(call, ANY_SERVER) <==> SERVER <= call.name)
    && (m(call, ANY_SERVER_CONTROL) <==> SERVER_CONTROL <= call.name)
    && (m(call, ANY_INTERNAL_CONTROL) <==> INTERNAL_CONTROL <= call.name)
    && (m(call, MISSION_START) <==> call.name == MISSION_START)
    && (m(call, MISSION_STOP) <==> call.name == MISSION_STOP)
    && (m(call, RETURN_TO_HOME) <==> call.name == RETURN_TO_HOME)
  }

  /** The matcher of the source reads them so, whatever it makes of payloads. */
  lemma MatchingReadsPatterns(parse: string -> Option<Payload>, call: Call)
    ensures ReadsPatterns(Matching(parse), call)
  {
    ServerPattern(parse, call);
    ServerControlPattern(parse, call);
    InternalControlPattern(parse, call);
    MissionStartPattern(parse, call);
    MissionStopPattern(parse, call);
    ReturnToHomePattern(parse, call);
  }

  lemma InternalComputePattern(parse: string -> Option<Payload>, call: Call)
    ensures CheckEqual(parse, call, "internal.Compute.*") <==> "internal.Compute." <= call.name
  {
    assert "internal.Compute." + "*" == "internal.Compute.*";
    StarPattern(parse, call, "internal.Compute.");
  }

  lemma InternalReportPattern(parse: string -> Option<Payload>, call: Call)
    ensures CheckEqual(parse, call, "internal.Report.*") <==> "internal.Report." <= call.name
  {
    assert "internal.Report." + "*" == "internal.Report.*";
    StarPattern(parse, call, "internal.Report.");
  }

  lemma NotifyPattern(parse: string -> Option<Payload>, call: Call)
    ensures CheckEqual(parse, call, "external.Mission.Notify") <==> call.name == "external.Mission.Notify"
  {
    PlainPattern(parse, call, "external.Mission.Notify");
  }

  /** What the mission and the compute services may call while the mission is in control. */
  ghost predicate MissionMayCall(name: string) {
    || "internal.Control." <= name || "internal.Compute." <= name || "internal.Report." <= name
    || name == "external.Mission.Notify"
  }

  lemma AllowedByLocal(parse: string -> Option<Payload>, call: Call)
    ensures AnyMatch(Matching(parse), LOCAL_LAW.allowed, call) <==> MissionMayCall(call.name)
  {
    FourPatterns(Matching(parse), LOCAL_LAW.allowed, call);
    InternalControlPattern(parse, call);
    InternalComputePattern(parse, call);
    InternalReportPattern(parse, call);
    NotifyPattern(parse, call);
  }

  /** Main result: under the shipped laws the server may call anything at any time, and the
      mission and the compute services may call what they need only under LOCAL. */
  lemma WhoIsAllowed(parse: string -> Option<Payload>, state: string, call: Call)
    requires state in BOOK
    ensures Permits(Matching(parse), BOOK[state], BASE_LAW, call)
      <==> SERVER <= call.name || (state == LOCAL && MissionMayCall(call.name))
  {
    MatchingReadsPatterns(parse, call);
    AllowedByLocal(parse, call);
    AllowedIn(Matching(parse), state, call);
  }

  lemma AllowedIn(m: Matcher, state: string, call: Call)
    requires state in BOOK && ReadsPatterns(m, call)
    requires AnyMatch(m, LOCAL_LAW.allowed, call) <==> MissionMayCall(call.name)
    ensures Permits(m, BOOK[state], BASE_LAW, call)
      <==> SERVER <= call.name || (state == LOCAL && MissionMayCall(call.name))
  {
    AllowedByBase(m, call);
    assert state != LOCAL ==> (AnyMatch(m, BOOK[state].allowed, call) ==> AnyMatch(m, BASE_LAW.allowed, call));
  }

  lemma FourPatterns(m: Matcher, patterns: seq<string>, call: Call)
    requires |patterns| == 4
    ensures AnyMatch(m, patterns, call)
      <==> m(call, patterns[0]) || m(call, patterns[1]) || m(call, patterns[2]) || m(call, patterns[3])
  {}

  // ----- which law a command leads to -----

  lemma OneRule(m: Matcher, rules: seq<Rule>, call: Call)
    requires |rules| == 1
    ensures FirstTarget(m, rules, call) == if m(call, rules[0].pattern) then Some(rules[0].target) else None
  {
    assert rules[1..] == [];
  }

  lemma TwoRules(m: Matcher, rules: seq<Rule>, call: Call)
    requires |rules| == 2
    ensures FirstTarget(m, rules, call)
         == if m(call, rules[0].pattern) then Some(rules[0].target)
            else if m(call, rules[1].pattern) then Some(rules[1].target)
            else None
  {
    OneRule(m, rules[1..], call);
  }

  lemma BaseTarget(m: Matcher, call: Call)
    requires ReadsPatterns(m, call)
    ensures FirstTarget(m, BASE_LAW.rules, call)
         == if SERVER_CONTROL <= call.name then Some(REMOTE) else if call.name == MISSION_START then Some(LOCAL)
           else None
  {
    TwoRules(m, BASE_LAW.rules, call);
  }

  lemma HomeIsControl(name: string)
    requires name == RETURN_TO_HOME
    ensures SERVER_CONTROL <= name
  {}

  /** The law a command asks for: the base rules win, so under the REMOTE law
      ReturnToHome asks for REMOTE although that law's own rule says LOCAL. */
  lemma Target(m: Matcher, state: string, call: Call)
    requires ReadsPatterns(m, call) && state in BOOK
    ensures MatchTarget(m, BOOK[state], BASE_LAW, call)
         == if SERVER_CONTROL <= call.name then Some(REMOTE)
            else if call.name == MISSION_START then Some(LOCAL)
            else if call.name == MISSION_STOP && state == LOCAL then Some(REMOTE)
            else None
  {
    BaseTarget(m, call);
    if state == REMOTE {
      TwoRules(m, REMOTE_LAW.rules, call);
      if call.name == RETURN_TO_HOME { HomeIsControl(call.name); }
    } else if state == LOCAL {
      OneRule(m, LOCAL_LAW.rules, call);
    }
  }

  lemma AllowedByBase(m: Matcher, call: Call)
    requires ReadsPatterns(m, call)
    ensures AnyMatch(m, BASE_LAW.allowed, call) <==> SERVER <= call.name
  {
    assert BASE_LAW.allowed[0] == ANY_SERVER;
  }

  lemma DecidersAreServerCommands(name: string)
    requires Decides(name)
    ensures SERVER <= name
  {
    assert SERVER <= SERVER_CONTROL;
  }

  /** The identity of a server command is neither empty nor the authority. */
  lemma ServerIdentity(r: Request)
    requires SERVER <= NameOf(r)
    ensures r.identity != "" && r.identity != AUTHORITY
  {
    assert NameOf(r)[0] == SERVER[0] == 's';
    assert NameOf(r) == r.identity + ("." + r.service + "." + r.methodName);
    assert NameOf(r)[0] == if r.identity == "" then '.' else r.identity[0];
  }

  /** The law after one command, by its name alone. */
  function Next(state: string, name: string): string {
    if SERVER_CONTROL <= name then REMOTE
    else if name == MISSION_START then LOCAL
    else if name == MISSION_STOP && state == LOCAL then REMOTE
    else state
  }

  lemma EntersFreely(m: Matcher, known: string -> bool, state: string, target: string, replies: nat -> Reply)
    requires target == REMOTE || target == LOCAL
    ensures SetLaw(Shipped(m, known), Some(state), target, replies) == (Some(target), Returns(true))
  {
    assert |BOOK[target].enter| == 0;
  }

  lemma AdmitServerCommand(m: Matcher, known: string -> bool, state: string, r: Request)
    requires state in BOOK && ReadsPatterns(m, Call(NameOf(r), r.payload)) && SERVER <= NameOf(r)
    ensures Admit(Shipped(m, known), state, r) == (Some(Next(state, NameOf(r))), Reached)
  {
    var call := Call(NameOf(r), r.payload);
    ServerIdentity(r);
    AllowedByBase(m, call);
    Target(m, state, call);
    var next := NextState(Shipped(m, known), Some(state), call);
    if next.Some? {
      EntersFreely(m, known, state, next.value, r.replies);
    }
  }

  lemma AdmitOtherCommand(m: Matcher, known: string -> bool, state: string, r: Request)
    requires state in BOOK && ReadsPatterns(m, Call(NameOf(r), r.payload)) && !(SERVER <= NameOf(r))
    ensures Admit(Shipped(m, known), state, r).0 == Some(state) && Next(state, NameOf(r)) == state
    ensures !Decides(NameOf(r))
  {
    if Decides(NameOf(r)) {
      DecidersAreServerCommands(NameOf(r));
    }
    Target(m, state, Call(NameOf(r), r.payload));
  }

  /** One admission: deciding commands always get through and set the law, other
      commands leave it alone. */
  lemma AdmitOne(parse: string -> Option<Payload>, known: string -> bool, state: string, r: Request)
    requires state in BOOK
    ensures Admit(Shipped(Matching(parse), known), state, r).0 == Some(Next(state, NameOf(r)))
    ensures Decides(NameOf(r)) ==> Admit(Shipped(Matching(parse), known), state, r).1 == Reached
  {
    MatchingReadsPatterns(parse, Call(NameOf(r), r.payload));
    if SERVER <= NameOf(r) {
      AdmitServerCommand(Matching(parse), known, state, r);
    } else {
      AdmitOtherCommand(Matching(parse), known, state, r);
    }
  }

  // ----- whole runs -----

  /** The law after a sequence of commands, starting in the base law. */
  ghost function LawAfter(s: Setup, requests: seq<Request>): Option<string>
    requires BASE in s.book
  {
    if requests == [] then Some(BASE)
    else
      var before := LawAfter(s, requests[..|requests| - 1]);
      if before.None? || before.value !in s.book then None
      else Admit(s, before.value, requests[|requests| - 1]).0
  }

  ghost predicate Admitted(s: Setup, requests: seq<Request>, r: Request)
    requires BASE in s.book
  {
    var law := LawAfter(s, requests);
    law.Some? && law.value in s.book && Admit(s, law.value, r).1 == Reached
  }

  /** The last command that was admitted and decides who is in control. */
  ghost function LastDecider(s: Setup, requests: seq<Request>): Option<string>
    requires BASE in s.book
  {
    if requests == [] then None
    else
      var before, last := requests[..|requests| - 1], requests[|requests| - 1];
      if Admitted(s, before, last) && Decides(NameOf(last)) then Some(NameOf(last)) else LastDecider(s, before)
  }

  lemma NextStaysInBook(state: string, name: string)
    requires state in BOOK
    ensures Next(state, name) in BOOK
    ensures Next(state, name) == LOCAL <==> if Decides(name) then name == MISSION_START else state == LOCAL
  {
    assert SERVER_CONTROL[7] == 'C' && MISSION_START[7] == 'M' && MISSION_STOP[7] == 'M';
    if SERVER_CONTROL <= name {
      assert name[7] == 'C';
    }
  }

  /** Main result: the law is LOCAL exactly when the last admitted command among
      server Control commands, Mission.Start and Mission.Stop is Mission.Start. */
  lemma {:induction false} LocalIffMissionStartedLast(parse: string -> Option<Payload>, known: string -> bool,
          requests: seq<Request>)
    ensures var s := Shipped(Matching(parse), known);
            && LawAfter(s, requests).Some? && LawAfter(s, requests).value in BOOK
            && (LawAfter(s, requests) == Some(LOCAL) <==> LastDecider(s, requests) == Some(MISSION_START))
  {
    if requests != [] {
      var before, last := requests[..|requests| - 1], requests[|requests| - 1];
      LocalIffMissionStartedLast(parse, known, before);
      var state := LawAfter(Shipped(Matching(parse), known), before).value;
      AdmitOne(parse, known, state, last);
      NextStaysInBook(state, NameOf(last));
    }
  }

  lemma InternalNames(r: Request)
    requires r.identity == "internal" && r.service == "Control"
    ensures INTERNAL_CONTROL <= NameOf(r) && !(SERVER <= NameOf(r))
  {
    assert NameOf(r) == INTERNAL_CONTROL + r.methodName;
    assert NameOf(r)[0] == 'i';
  }

  lemma AllowedInternally(m: Matcher, call: Call, state: string)
    requires ReadsPatterns(m, call) && state in BOOK
    requires INTERNAL_CONTROL <= call.name && !(SERVER <= call.name)
    ensures Permits(m, BOOK[state], BASE_LAW, call) <==> state == LOCAL
  {
    AllowedByBase(m, call);
    assert LOCAL_LAW.allowed[0] == ANY_INTERNAL_CONTROL;
  }

  lemma AdmitInternalControl(m: Matcher, known: string -> bool, state: string, r: Request)
    requires state in BOOK && ReadsPatterns(m, Call(NameOf(r), r.payload))
    requires r.identity == "internal" && r.service == "Control"
    ensures Admit(Shipped(m, known), state, r).1 == Reached <==> state == LOCAL
  {
    InternalNames(r);
    AllowedInternally(m, Call(NameOf(r), r.payload), state);
    AdmitOtherCommand(m, known, state, r);
    Target(m, state, Call(NameOf(r), r.payload));
  }

  /** Main result: an internal Control command gets through exactly then. */
  lemma InternalControlIffMissionStartedLast(parse: string -> Option<Payload>, known: string -> bool,
          requests: seq<Request>, r: Request)
    requires r.identity == "internal" && r.service == "Control"
    ensures Admitted(Shipped(Matching(parse), known), requests, r)
      <==> LastDecider(Shipped(Matching(parse), known), requests) == Some(MISSION_START)
  {
    LocalIffMissionStartedLast(parse, known, requests);
    MatchingReadsPatterns(parse, Call(NameOf(r), r.payload));
    AdmitInternalControl(Matching(parse), known, LawAfter(Shipped(Matching(parse), known), requests).value, r);
  }

  /** The rule of the REMOTE law for ReturnToHome never takes effect: the base rule
      for server Control commands overrides it. */
  lemma ReturnToHomeStaysRemote(parse: string -> Option<Payload>, known: string -> bool, r: Request)
    requires NameOf(r) == RETURN_TO_HOME
    ensures FirstTarget(Matching(parse), REMOTE_LAW.rules, Call(NameOf(r), r.payload)) == Some(LOCAL)
    ensures Admit(Shipped(Matching(parse), known), REMOTE, r).0 == Some(REMOTE)
  {
    var call := Call(NameOf(r), r.payload);
    AdmitOne(parse, known, REMOTE, r);
    MatchingReadsPatterns(parse, call);
    HomeIsControl(NameOf(r));
    TwoRules(Matching(parse), REMOTE_LAW.rules, call);
  }
}
