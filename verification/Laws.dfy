/** Control laws as data: which commands a law allows, which of them change the
    law, and how the failsafe lists evolve. */
module Laws {
  import opened Wrappers

  const BASE := "__BASE__"
  const REMOTE := "REMOTE"

  /** The status of a response that finished without error. */
  const COMPLETED := 2
  /** The status given to a command whose name is not in the descriptor table. */
  const UNKNOWN := 5

  type Payload = map<string, string>

  /** A command as the interceptor sees it: its name is `identity.Service.Method`. */
  datatype Call = Call(name: string, request: Payload)

  /** Whether a call matches a pattern of the law file. */
  type Matcher = (Call, string) -> bool

  datatype Rule = Rule(pattern: string, target: string)

  /** The fixed part of a law. A missing `match` list in the file is an empty one;
      `enter` and `allowed` are always there. */
  datatype Law = Law(enter: seq<string>, allowed: seq<string>, rules: seq<Rule>)

  type LawBook = map<string, Law>

  /** Failsafe command lists by law and failsafe name. */
  type Table = map<string, map<string, seq<string>>>

  // ----- matching a call against a pattern -----

  /** `fnmatch` for patterns of literal characters, `*` and `?`. */
  predicate Glob(pattern: string, s: string)
    decreases |pattern| + |s|
  {
    if pattern == "" then s == ""
    else if pattern[0] == '*' then Glob(pattern[1..], s) || (s != "" && Glob(pattern, s[1..]))
    else s != "" && (pattern[0] == '?' || pattern[0] == s[0]) && Glob(pattern[1..], s[1..])
  }

  predicate Literal(s: string) {
    forall i :: 0 <= i < |s| ==> s[i] != '*' && s[i] != '?'
  }

  function Split(s: string, sep: char): (parts: seq<string>)
    ensures |parts| >= 1
  {
    if s == "" then [""]
    else
      var rest := Split(s[1..], sep);
      if s[0] == sep then [""] + rest
      else [[s[0]] + rest[0]] + rest[1..]
  }

  /** `check_equal`: a name pattern, optionally followed by `|` and a payload that
      the request must contain. `parse` reads the payload, or fails. */
  predicate CheckEqual(parse: string -> Option<Payload>, call: Call, pattern: string) {
    var splits := Split(pattern, '|');
    if |splits| < 2 then Glob(splits[0], call.name)
    else if |splits| > 2 then false
    else
      match parse(splits[1])
      case None => false
      case Some(payload) =>
        Glob(splits[0], call.name) && forall k :: k in payload ==> k in call.request && call.request[k] == payload[k]
  }

  lemma {:induction false} GlobLiteral(pattern: string, s: string)
    requires Literal(pattern)
    ensures Glob(pattern, s) <==> s == pattern
  {
    if pattern != "" {
      assert pattern[0] != '*' && pattern[0] != '?';
      if s != "" {
        GlobLiteral(pattern[1..], s[1..]);
        assert s == [s[0]] + s[1..] && pattern == [pattern[0]] + pattern[1..];
      }
    }
  }

  lemma {:induction false} GlobStar(s: string)
    ensures Glob("*", s)
  {
    if s != "" {
      GlobStar(s[1..]);
    }
  }

  /** A literal followed by one star is a prefix test. */
  lemma {:induction false} GlobPrefix(prefix: string, s: string)
    requires Literal(prefix)
    ensures Glob(prefix + "*", s) <==> prefix <= s
  {
    if prefix == "" {
      GlobStar(s);
      assert prefix + "*" == "*";
    } else {
      assert prefix[0] != '*' && prefix[0] != '?';
      assert (prefix + "*")[1..] == prefix[1..] + "*";
      if s != "" {
        GlobPrefix(prefix[1..], s[1..]);
        assert s == [s[0]] + s[1..] && prefix == [prefix[0]] + prefix[1..];
      }
    }
  }

  lemma {:induction false} SplitWithout(s: string, sep: char)
    requires sep !in s
    ensures Split(s, sep) == [s]
  {
    if s != "" {
      SplitWithout(s[1..], sep);
      assert s == [s[0]] + s[1..];
    }
  }

  /** The part before the first separator comes off. */
  lemma {:induction false} SplitAt(a: string, b: string, sep: char)
    requires sep !in a
    ensures Split(a + [sep] + b, sep) == [a] + Split(b, sep)
  {
    if a == "" {
      assert (a + [sep] + b)[1..] == b;
    } else {
      assert (a + [sep] + b)[1..] == a[1..] + [sep] + b;
      SplitAt(a[1..], b, sep);
      assert a == [a[0]] + a[1..];
    }
  }

  ghost function Concat(pieces: seq<string>): string {
    if pieces == [] then "" else pieces[0] + Concat(pieces[1..])
  }

  /** What one character of a pattern stands for. */
  ghost predicate StandsFor(c: char, piece: string) {
    if c == '*' then true else if c == '?' then |piece| == 1 else piece == [c]
  }

  /** The string falls into pieces, one for each character of the pattern. */
  ghost predicate FallsInto(pattern: string, s: string, pieces: seq<string>) {
    |pieces| == |pattern| && Concat(pieces) == s && forall i :: 0 <= i < |pieces| ==> StandsFor(pattern[i], pieces[i])
  }

  lemma OnePieceMore(pattern: string, s: string, piece: string, pieces: seq<string>)
    requires pattern != "" && FallsInto(pattern[1..], s, pieces) && StandsFor(pattern[0], piece)
    ensures FallsInto(pattern, piece + s, [piece] + pieces)
  {
    assert ([piece] + pieces)[1..] == pieces;
  }

  lemma OnePieceLess(pattern: string, s: string, pieces: seq<string>) returns (rest: string)
    requires pattern != "" && FallsInto(pattern, s, pieces)
    ensures StandsFor(pattern[0], pieces[0]) && s == pieces[0] + rest && FallsInto(pattern[1..], rest, pieces[1..])
  {
    rest := Concat(pieces[1..]);
  }

  lemma {:induction false} GlobFalls(pattern: string, s: string) returns (pieces: seq<string>)
    requires Glob(pattern, s)
    ensures FallsInto(pattern, s, pieces)
    decreases |pattern| + |s|
  {
    if pattern == "" {
      pieces := [];
    } else if pattern[0] == '*' && Glob(pattern[1..], s) {
      var rest := GlobFalls(pattern[1..], s);
      OnePieceMore(pattern, s, "", rest);
      pieces := [""] + rest;
      assert "" + s == s;
    } else if pattern[0] == '*' {
      var more := GlobFalls(pattern, s[1..]);
      var rest := OnePieceLess(pattern, s[1..], more);
      var first := [s[0]] + more[0];
      OnePieceMore(pattern, rest, first, more[1..]);
      pieces := [first] + more[1..];
      assert first + rest == s;
    } else {
      var rest := GlobFalls(pattern[1..], s[1..]);
      OnePieceMore(pattern, s[1..], [s[0]], rest);
      pieces := [[s[0]]] + rest;
      assert [s[0]] + s[1..] == s;
    }
  }

  lemma {:induction false} FallsGlob(pattern: string, s: string, pieces: seq<string>)
    requires FallsInto(pattern, s, pieces)
    ensures Glob(pattern, s)
    decreases |pattern| + |s|
  {
    if pattern != "" {
      var rest := OnePieceLess(pattern, s, pieces);
      if pattern[0] == '*' && pieces[0] != "" {
        var first := pieces[0][1..];
        OnePieceMore(pattern, rest, first, pieces[1..]);
        assert s[1..] == first + rest;
        FallsGlob(pattern, s[1..], [first] + pieces[1..]);
      } else {
        FallsGlob(pattern[1..], rest, pieces[1..]);
        assert pattern[0] == '*' ==> s == rest;
        assert pattern[0] != '*' ==> s[1..] == rest;
      }
    }
  }

  /** Main result: a pattern matches exactly the strings that fall into pieces for its
      characters, a star standing for anything, a question mark for one character. */
  lemma GlobIff(pattern: string, s: string)
    ensures Glob(pattern, s) <==> exists pieces: seq<string> :: FallsInto(pattern, s, pieces)
  {
    if Glob(pattern, s) {
      var pieces := GlobFalls(pattern, s);
    }
    if exists pieces: seq<string> :: FallsInto(pattern, s, pieces) {
      var pieces: seq<string> :| FallsInto(pattern, s, pieces);
      FallsGlob(pattern, s, pieces);
    }
  }

  /** Every entry of the payload is in the request. */
  ghost predicate Demanded(payload: Payload, request: Payload) {
    forall k :: k in payload ==> k in request && request[k] == payload[k]
  }

  /** A pattern with a payload matches a call by name if the request has every entry of
      the payload; one whose payload cannot be read, or with a second bar, matches none. */
  lemma PayloadPattern(parse: string -> Option<Payload>, call: Call, name: string, text: string)
    requires '|' !in name
    ensures CheckEqual(parse, call, name + "|" + text)
      <==> '|' !in text && parse(text).Some? && Glob(name, call.name) && Demanded(parse(text).value, call.request)
  {
    SplitAt(name, text, '|');
    if '|' !in text {
      SplitWithout(text, '|');
    } else {
      SplitWith(text, '|');
    }
  }

  lemma {:induction false} SplitWith(s: string, sep: char)
    requires sep in s
    ensures |Split(s, sep)| >= 2
  {
    if s[0] != sep {
      SplitWith(s[1..], sep);
    }
  }

  /** A pattern without a bar is matched against the name alone. */
  lemma NamePattern(parse: string -> Option<Payload>, call: Call, name: string)
    requires '|' !in name
    ensures CheckEqual(parse, call, name) <==> Glob(name, call.name)
  {
    SplitWithout(name, '|');
  }

  // ----- what a law does with a call -----

  predicate AnyMatch(m: Matcher, patterns: seq<string>, call: Call) {
    exists i :: 0 <= i < |patterns| && m(call, patterns[i])
  }

  /** A call is allowed by the current law or by the base law. */
  predicate Permits(m: Matcher, law: Law, base: Law, call: Call) {
    AnyMatch(m, law.allowed, call) || AnyMatch(m, base.allowed, call)
  }

  /** The target of the first rule that matches. */
  function FirstTarget(m: Matcher, rules: seq<Rule>, call: Call): Option<string> {
    if rules == [] then None
    else if m(call, rules[0].pattern) then Some(rules[0].target)
    else FirstTarget(m, rules[1..], call)
  }

  /** The law a permitted call asks for. The base rules are read second and win. */
  function MatchTarget(m: Matcher, law: Law, base: Law, call: Call): Option<string> {
    var byBase := FirstTarget(m, base.rules, call);
    if byBase.Some? then byBase else FirstTarget(m, law.rules, call)
  }

  /** The rules of the current law decide if and only if no base rule matches or the
      first base match names the same law. */
  lemma CurrentRulesDecideIff(m: Matcher, law: Law, base: Law, call: Call)
    requires exists i :: 0 <= i < |law.rules| && m(call, law.rules[i].pattern)
    ensures MatchTarget(m, law, base, call) == FirstTarget(m, law.rules, call)
      <==> (forall i :: 0 <= i < |base.rules| ==> !m(call, base.rules[i].pattern))
           || FirstTarget(m, base.rules, call) == FirstTarget(m, law.rules, call)
  {
    FirstTargetIsFirst(m, law.rules, call);
    FirstTargetIsFirst(m, base.rules, call);
  }

  lemma {:induction false} FirstTargetIsFirst(m: Matcher, rules: seq<Rule>, call: Call)
    ensures match FirstTarget(m, rules, call)
            case None => forall i :: 0 <= i < |rules| ==> !m(call, rules[i].pattern)
            case Some(target) => exists i :: 0 <= i < |rules| && m(call, rules[i].pattern) && rules[i].target == target
                                   && forall j :: 0 <= j < i ==> !m(call, rules[j].pattern)
  {
    if rules != [] && !m(call, rules[0].pattern) {
      FirstTargetIsFirst(m, rules[1..], call);
      match FirstTarget(m, rules[1..], call)
      case None =>
        forall i | 0 <= i < |rules| ensures !m(call, rules[i].pattern) {
          if i > 0 { assert rules[i] == rules[1..][i - 1]; }
        }
      case Some(target) =>
        var i :| 0 <= i < |rules[1..]| && m(call, rules[1..][i].pattern) && rules[1..][i].target == target
                 && forall j :: 0 <= j < i ==> !m(call, rules[1..][j].pattern);
        forall j | 0 <= j < i + 1 ensures !m(call, rules[j].pattern) {
          if j > 0 { assert rules[j] == rules[1..][j - 1]; }
        }
        assert rules[i + 1] == rules[1..][i];
    }
  }

  /** Unknown law names lead to REMOTE. */
  function Effective(book: LawBook, name: string): string {
    if name in book then name else REMOTE
  }

  // ----- responses to a batch of commands -----

  /** gRPC reports an error only with a positive code. */
  type Code = c: nat | c > 0 witness 1

  /** What comes back over the channel: a response, or an RPC error with its code. */
  datatype Reply = Response(status: int) | RpcError(code: Code)

  function StatusOf(reply: Reply): int {
    match reply
    case Response(status) => status
    case RpcError(code) => code + 2
  }

  /** The status recorded for one command of a batch. */
  function ResultOf(known: string -> bool, cmd: string, reply: Reply): int {
    if known(cmd) then StatusOf(reply) else UNKNOWN
  }

  predicate AllCompleted(results: seq<int>) {
    forall i :: 0 <= i < |results| ==> results[i] == COMPLETED
  }

  // ----- failsafe lists -----

  /** The list that stands in the table, if any. */
  predicate HasList(table: Table, law: string, name: string) {
    law in table && name in table[law]
  }

  /** The list `failsafe` sends: the law's own entry followed by the base entry.
      In the base law both are the same list. */
  function FailsafeCommands(table: Table, law: string, name: string): seq<string>
    requires HasList(table, BASE, name)
  {
    (if HasList(table, law, name) then table[law][name] else []) + table[BASE][name]
  }

  /** The in-place `+=`: a law's own entry keeps what was appended to it. */
  function FailsafeTable(table: Table, law: string, name: string): (r: Table)
    requires HasList(table, BASE, name)
    ensures r.Keys == table.Keys
    ensures forall l :: l in table ==> r[l].Keys == table[l].Keys
  {
    if HasList(table, law, name)
    then table[law := table[law][name := FailsafeCommands(table, law, name)]]
    else table
  }

  /** Only the list that was read is extended. */
  lemma FailsafeTableAt(table: Table, law: string, name: string, l: string, f: string)
    requires HasList(table, BASE, name) && HasList(table, law, name) && HasList(table, l, f)
    ensures FailsafeTable(table, law, name)[l][f]
         == if l == law && f == name then FailsafeCommands(table, law, name) else table[l][f]
  {}
}
