/** The law authority and the interceptor as the objects they are. The current
    law and the base law point into the specification, and the failsafe lists are
    shared, mutable lists. */
module LawAuthority {
  import opened Wrappers
  import opened Laws
  import opened Admission

  /** A Python list of commands. */
  class CommandList {
    var items: seq<string>

    constructor (items: seq<string>)
      ensures this.items == items
    {
      this.items := items;
    }
  }

  /** One section of the law file. */
  class LawEntry {
    const rules: Law
    const failsafes: map<string, CommandList>

    constructor (rules: Law, failsafes: map<string, CommandList>)
      ensures this.rules == rules && this.failsafes == failsafes
    {
      this.rules := rules;
      this.failsafes := failsafes;
    }
  }

  class LawAuthority {
    const spec: map<string, LawEntry>
    const base: LawEntry
    const matches: Matcher
    const known: string -> bool
    var state: Option<string>
    var law: LawEntry?

    /** The loaded file gives each section its own list objects. */
    ghost predicate DistinctLists() {
      forall l, f, l', f' | l in spec && f in spec[l].failsafes && l' in spec && f' in spec[l'].failsafes ::
        spec[l].failsafes[f] == spec[l'].failsafes[f'] ==> l == l' && f == f'
    }

    /** `law` is always the entry of `spec` that `state` names. */
    ghost predicate Valid()
      reads this
    {
      && BASE in spec && base == spec[BASE]
      && DistinctLists()
      && (state.None? <==> law == null)
      && (state.Some? ==> state.value in spec && law == spec[state.value])
    }

    ghost function Lists(): set<CommandList> {
      set l, f | l in spec && f in spec[l].failsafes :: spec[l].failsafes[f]
    }

    ghost function Setup(): Setup {
      Admission.Setup(map l | l in spec :: spec[l].rules, matches, known, AUTHORITY)
    }

    /** The contents of all failsafe lists. */
    ghost function FailsafeLists(): Table
      reads Lists()
    {
      map l | l in spec :: (map f | f in spec[l].failsafes :: spec[l].failsafes[f].items)
    }

    /** The constructor loads the specification; no law is in force yet. */
    constructor (spec: map<string, LawEntry>, matches: Matcher, known: string -> bool)
      requires BASE in spec
      requires forall l, f, l', f' | l in spec && f in spec[l].failsafes && l' in spec && f' in spec[l'].failsafes ::
                 spec[l].failsafes[f] == spec[l'].failsafes[f'] ==> l == l' && f == f'
      ensures Valid() && this.spec == spec && state == None
      ensures this.matches == matches && this.known == known
    {
      this.spec, this.base, this.matches, this.known := spec, spec[BASE], matches, known;
      this.state, this.law := None, null;
    }

    /** `_send_commands`: one result per command, in order. `replies(i)` is what
        the channel brings back for the i-th command if it is sent. */
    method SendCommands(commands: seq<string>, replies: nat -> Reply) returns (results: seq<int>)
      ensures results == Results(known, commands, replies)
      ensures forall i :: 0 <= i < |commands| ==>
                results[i] == if !known(commands[i]) then 5
                              else if replies(i).RpcError? then replies(i).code + 2
                              else replies(i).status
    {
      results := [];
      for i := 0 to |commands|
        invariant |results| == i
        invariant forall k :: 0 <= k < i ==> results[k] == ResultOf(known, commands[k], replies(k))
      {
        if !known(commands[i]) {
          results := results + [UNKNOWN];
          continue;
        }
        match replies(i)
        case Response(status) => results := results + [status];
        case RpcError(code) => results := results + [code + 2];
      }
    }

    method Allows(call: Call) returns (r: Outcome<bool>)
      requires Valid()
      ensures r == if state.None? then Raises
                   else Returns(Permits(matches, Setup().book[state.value], Setup().book[BASE], call))
    {
      if law == null {
        return Raises;
      }
      var exprs := law.rules.allowed + base.rules.allowed;
      for i := 0 to |exprs|
        invariant forall k :: 0 <= k < i ==> !matches(call, exprs[k])
      {
        if matches(call, exprs[i]) {
          assert i < |law.rules.allowed| ==> exprs[i] == law.rules.allowed[i];
          assert i >= |law.rules.allowed| ==> exprs[i] == base.rules.allowed[i - |law.rules.allowed|];
          return Returns(true);
        }
      }
      assert forall k :: 0 <= k < |law.rules.allowed| ==> law.rules.allowed[k] == exprs[k];
      assert forall k :: 0 <= k < |base.rules.allowed| ==> base.rules.allowed[k] == exprs[|law.rules.allowed| + k];
      return Returns(false);
    }

    /** One of the two loops of `match`: the target of the first matching rule. */
    method FirstMatch(rules: seq<Rule>, call: Call) returns (target: Option<string>)
      ensures target == FirstTarget(matches, rules, call)
    {
      target := None;
      for i := 0 to |rules|
        invariant FirstTarget(matches, rules, call) == FirstTarget(matches, rules[i..], call)
      {
        if matches(call, rules[i].pattern) {
          return Some(rules[i].target);
        }
      }
    }

    method Match(call: Call, replies: nat -> Reply) returns (r: Outcome<bool>)
      requires Valid() && state.Some?
      modifies this`state, this`law
      ensures Valid()
      ensures match NextState(Setup(), old(state), call)
              case None => state == old(state) && r == Returns(true)
              case Some(target) => (state, r) == Admission.SetLaw(Setup(), old(state), target, replies)
    {
      var nextState := FirstMatch(law.rules.rules, call);
      var byBase := FirstMatch(base.rules.rules, call);
      if byBase.Some? {
        nextState := byBase;
      }
      if nextState.Some? && nextState.value != "" && nextState != state {
        r := SetLaw(nextState.value, replies);
      } else {
        r := Returns(true);
      }
    }

    method SetLaw(target: string, replies: nat -> Reply) returns (r: Outcome<bool>)
      requires Valid()
      modifies this`state, this`law
      ensures Valid()
      ensures (state, r) == Admission.SetLaw(Setup(), old(state), target, replies)
    {
      if Some(target) == state {
        return Returns(true);
      }
      var name := target;
      if name !in spec {
        name := REMOTE;
        if name !in spec {
          return Raises;
        }
      }
      if spec[name].rules.enter != [] {
        var results := SendCommands(spec[name].rules.enter, replies);
        if exists i :: 0 <= i < |results| && results[i] != COMPLETED {
          return Returns(false);
        }
      }
      state := Some(name);
      law := spec[name];
      return Returns(true);
    }

    /** `start`: run the startup commands, then enter the base law. */
    method Start(startup: seq<string>, replies: nat -> Reply, enterReplies: nat -> Reply) returns (r: bool)
      requires Valid()
      modifies this`state, this`law
      ensures Valid()
      ensures if AllCompleted(Results(known, startup, replies))
              then (state, Returns(r)) == Admission.SetLaw(Setup(), old(state), BASE, enterReplies)
              else !r && state == old(state)
    {
      if startup != [] {
        var results := SendCommands(startup, replies);
        if exists i :: 0 <= i < |results| && results[i] != COMPLETED {
          return false;
        }
      }
      var result := SetLaw(BASE, enterReplies);
      return result.value;
    }

    /** Two tables over the same lists are equal when every list is. */
    lemma SameTable(t: Table, u: Table)
      requires t.Keys == u.Keys
      requires forall l :: l in t ==> t[l].Keys == u[l].Keys && forall f :: f in t[l] ==> t[l][f] == u[l][f]
      ensures t == u
    {
      forall l | l in t ensures t[l] == u[l] {}
    }

    /** `+=` on the list that the law in force has for `name`. */
    method ExtendInPlace(name: string) returns (commands: CommandList)
      requires Valid() && state.Some? && name in base.failsafes && name in law.failsafes
      modifies Lists()
      ensures Valid() && state == old(state)
      ensures HasList(old(FailsafeLists()), BASE, name)
      ensures FailsafeLists() == FailsafeTable(old(FailsafeLists()), state.value, name)
      ensures commands.items == FailsafeCommands(old(FailsafeLists()), state.value, name)
    {
      ghost var before := FailsafeLists();
      commands := law.failsafes[name];
      assert base.failsafes[name] in Lists() && commands in Lists();
      commands.items := commands.items + base.failsafes[name].items;
      forall l, f | l in spec && f in spec[l].failsafes
        ensures FailsafeLists()[l][f] == FailsafeTable(before, state.value, name)[l][f]
      {
        FailsafeTableAt(before, state.value, name, l, f);
        assert spec[l].failsafes[f] == commands <==> l == state.value && f == name;
      }
      SameTable(FailsafeLists(), FailsafeTable(before, state.value, name));
    }

    /** A law without a list of its own starts from a new, empty one. */
    method CopyBaseList(name: string) returns (commands: CommandList)
      requires Valid() && state.Some? && name in base.failsafes && name !in law.failsafes
      ensures HasList(FailsafeLists(), BASE, name) && FailsafeLists() == old(FailsafeLists())
      ensures FailsafeLists() == FailsafeTable(FailsafeLists(), state.value, name)
      ensures commands.items == FailsafeCommands(FailsafeLists(), state.value, name)
    {
      ghost var before := FailsafeLists();
      commands := new CommandList([]);
      commands.items := commands.items + base.failsafes[name].items;
      forall l, f | l in spec && f in spec[l].failsafes
        ensures FailsafeLists()[l][f] == before[l][f]
      {
        assert spec[l].failsafes[f] in Lists();
      }
      SameTable(FailsafeLists(), before);
    }

    /** The in-place part of `failsafe`. */
    method ExtendOwnList(name: string) returns (commands: CommandList)
      requires Valid() && state.Some? && name in base.failsafes
      modifies Lists()
      ensures Valid() && state == old(state)
      ensures HasList(old(FailsafeLists()), BASE, name)
      ensures FailsafeLists() == FailsafeTable(old(FailsafeLists()), state.value, name)
      ensures commands.items == FailsafeCommands(old(FailsafeLists()), state.value, name)
    {
      if name in law.failsafes {
        commands := ExtendInPlace(name);
      } else {
        commands := CopyBaseList(name);
      }
    }

    /** `failsafe`: the law's own list is extended in place by the base list, then sent. */
    method Failsafe(name: string, replies: nat -> Reply) returns (r: Outcome<bool>)
      requires Valid()
      modifies Lists()
      ensures Valid() && state == old(state)
      ensures (state.None? || !HasList(old(FailsafeLists()), BASE, name)) ==>
        r == Raises && FailsafeLists() == old(FailsafeLists())
      ensures state.Some? && HasList(old(FailsafeLists()), BASE, name) ==>
                && FailsafeLists() == FailsafeTable(old(FailsafeLists()), state.value, name)
                && r == Returns(AllCompleted(Results(known,
                     FailsafeCommands(old(FailsafeLists()), state.value, name), replies)))
    {
      if law == null || name !in base.failsafes {
        return Raises;
      }
      var commands := ExtendOwnList(name);
      var results := SendCommands(commands.items, replies);
      r := Returns(forall i :: 0 <= i < |results| ==> results[i] == COMPLETED);
    }

    method GetLaw() returns (state: Option<string>, law: LawEntry?)
      requires Valid()
      ensures state == this.state && law == this.law
      ensures state.Some? ==> law == spec[state.value]
    {
      return this.state, this.law;
    }
  }

  class LawInterceptor {
    const authority: LawAuthority

    constructor (authority: LawAuthority)
      ensures this.authority == authority
    {
      this.authority := authority;
    }

    /** `intercept`: decides whether the handler of a command runs. The identity is
        the value of the second metadata entry. */
    method Intercept(metadata: seq<(string, string)>, service: string, methodName: string, request: Payload,
                     replies: nat -> Reply)
      returns (decision: Decision)
      requires authority.Valid()
      modifies authority`state, authority`law
      ensures authority.Valid()
      ensures |metadata| < 2 ==> decision == Refused && authority.state == old(authority.state)
      ensures |metadata| >= 2 ==>
                (authority.state, decision) ==
                Admission.Intercept(authority.Setup(), old(authority.state), metadata[1].1,
                                    Call(metadata[1].1 + "." + service + "." + methodName, request), replies)
      ensures |metadata| >= 2 && metadata[1].1 == "" ==> decision == Refused && authority.state == old(authority.state)
      ensures |metadata| >= 2 && metadata[1].1 == "authority" ==>
                decision == Reached && authority.state == old(authority.state)
    {
      if |metadata| < 2 {
        return Refused;
      }
      var identity := metadata[1].1;
      var command := Call(identity + "." + service + "." + methodName, request);
      if identity == "" {
        return Refused;
      } else if identity != AUTHORITY {
        var allowed := authority.Allows(command);
        if allowed.Raises? {
          return Failed;
        }
        if !allowed.value {
          return Refused;
        }
        var matched := authority.Match(command, replies);
        if matched.Raises? {
          return Failed;
        }
      }
      return Reached;
    }
  }
}
