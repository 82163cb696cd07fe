/** From the `During` blocks of a mission to its transition map, and what the map
    means: the rules as written, the last one winning. */
module MissionCompiler {
  import opened Wrappers

  const DONE := "done"
  const TERMINATE := "terminate"

  datatype Rule = Rule(event: string, target: string)

  /** `During action:` followed by its rules. An action may have several blocks. */
  datatype Block = During(action: string, rules: seq<Rule>)

  type Edges = map<string, string>
  type Transitions = map<string, Edges>

  // ----- what the compiler does -----

  function AddRules(edges: Edges, rules: seq<Rule>): Edges {
    if rules == [] then edges
    else AddRules(edges, rules[..|rules| - 1])[rules[|rules| - 1].event := rules[|rules| - 1].target]
  }

  function EdgesOf(t: Transitions, action: string): Edges {
    if action in t then t[action] else map[]
  }

  function AddBlock(during: Transitions, block: Block): Transitions {
    during[block.action := AddRules(EdgesOf(during, block.action), block.rules)]
  }

  function AddBlocks(blocks: seq<Block>): Transitions {
    if blocks == [] then map[]
    else AddBlock(AddBlocks(blocks[..|blocks| - 1]), blocks[|blocks| - 1])
  }

  function WithDefault(edges: Edges): Edges {
    if DONE in edges then edges else edges[DONE := TERMINATE]
  }

  /** The map built at the end: the blocks' edges, and a default for `done`. */
  function Compile(during: Transitions, actions: set<string>): Transitions {
    map a | a in during.Keys + actions :: if a in actions then WithDefault(EdgesOf(during, a)) else EdgesOf(during, a)
  }

  /** The parts of a mission file that its transitions depend on, in source order. */
  datatype Part = ActionPart(id: string) | StartPart(id: string) | DuringPart(block: Block)

  ghost function BlocksOf(parts: seq<Part>): seq<Block> {
    if parts == [] then []
    else
      var last := parts[|parts| - 1];
      BlocksOf(parts[..|parts| - 1]) + if last.DuringPart? then [last.block] else []
  }

  ghost function ActionsOf(parts: seq<Part>): set<string> {
    set d | d in parts && d.ActionPart? :: d.id
  }

  /** The last start named. */
  ghost function StartOf(parts: seq<Part>): Option<string> {
    if parts == [] then None
    else
      var last := parts[|parts| - 1];
      if last.StartPart? then Some(last.id) else StartOf(parts[..|parts| - 1])
  }

  /** What has been collected from `parts`. */
  ghost predicate Collects(actions: set<string>, during: Transitions, start: Option<string>, parts: seq<Part>) {
    actions == ActionsOf(parts) && during == AddBlocks(BlocksOf(parts)) && start == StartOf(parts)
  }

  lemma ActionCollected(actions: set<string>, during: Transitions, start: Option<string>, parts: seq<Part>, id: string)
    requires Collects(actions, during, start, parts)
    ensures Collects(actions + {id}, during, start, parts + [ActionPart(id)])
  {
    assert (parts + [ActionPart(id)])[..|parts|] == parts;
    assert BlocksOf(parts) + [] == BlocksOf(parts);
    assert ActionsOf(parts + [ActionPart(id)]) == ActionsOf(parts) + {id};
  }

  lemma StartCollected(actions: set<string>, during: Transitions, start: Option<string>, parts: seq<Part>, id: string)
    requires Collects(actions, during, start, parts)
    ensures Collects(actions, during, Some(id), parts + [StartPart(id)])
  {
    assert (parts + [StartPart(id)])[..|parts|] == parts;
    assert BlocksOf(parts) + [] == BlocksOf(parts);
    assert ActionsOf(parts + [StartPart(id)]) == ActionsOf(parts);
  }

  lemma BlocksOfAppend(parts: seq<Part>, b: Block)
    ensures BlocksOf(parts + [DuringPart(b)]) == BlocksOf(parts) + [b]
  {
    assert (parts + [DuringPart(b)])[..|parts|] == parts;
  }

  lemma StartOfAppend(parts: seq<Part>, b: Block)
    ensures StartOf(parts + [DuringPart(b)]) == StartOf(parts)
  {
    assert (parts + [DuringPart(b)])[..|parts|] == parts;
  }

  lemma AddBlocksAppend(blocks: seq<Block>, b: Block)
    ensures AddBlocks(blocks + [b]) == AddBlock(AddBlocks(blocks), b)
  {
    assert (blocks + [b])[..|blocks|] == blocks;
  }

  lemma BlockCollected(actions: set<string>, during: Transitions, start: Option<string>, parts: seq<Part>, b: Block)
    requires Collects(actions, during, start, parts)
    ensures Collects(actions, AddBlock(during, b), start, parts + [DuringPart(b)])
  {
    BlocksOfAppend(parts, b);
    AddBlocksAppend(BlocksOf(parts), b);
    StartOfAppend(parts, b);
    assert ActionsOf(parts + [DuringPart(b)]) == ActionsOf(parts);
  }

  class Transformer {
    var actions: set<string>
    var during: Transitions
    var startAction: Option<string>

    constructor ()
      ensures actions == {} && during == map[] && startAction == None
    {
      actions, during, startAction := {}, map[], None;
    }

    method ActionDecl(id: string)
      modifies this`actions
      ensures actions == old(actions) + {id}
    {
      actions := actions + {id};
    }

    method MissionStart(id: string)
      modifies this`startAction
      ensures startAction == Some(id)
    {
      startAction := Some(id);
    }

    method DuringBlock(action: string, rules: seq<Rule>)
      modifies this`during
      ensures during == AddBlock(old(during), During(action, rules))
    {
      if action !in during {
        during := during[action := map[]];
      }
      ghost var before := EdgesOf(old(during), action);
      for i := 0 to |rules|
        invariant action in during && during[action] == AddRules(before, rules[..i])
        invariant during.Keys == old(during).Keys + {action}
        invariant forall a :: a in old(during) && a != action ==> during[a] == old(during)[a]
      {
        assert rules[..i + 1][..i] == rules[..i];
        during := during[action := during[action][rules[i].event := rules[i].target]];
      }
      assert rules[..|rules|] == rules;
    }

    /** The transition building of `start`: copy the blocks, then give every
        declared action a default. */
    method BuildTransitions() returns (transitions: Transitions)
      ensures transitions == Compile(during, actions)
    {
      transitions := map[];
      var todo := during.Keys;
      while todo != {}
        invariant todo <= during.Keys && transitions.Keys == during.Keys - todo
        invariant forall a :: a in transitions ==> transitions[a] == during[a]
      {
        var a :| a in todo;
        transitions := transitions[a := during[a]];
        todo := todo - {a};
      }
      var left := actions;
      while left != {}
        invariant left <= actions && transitions.Keys == during.Keys + (actions - left)
        invariant forall a :: a in transitions ==>
                    transitions[a] == if a in actions - left then WithDefault(EdgesOf(during, a))
                      else EdgesOf(during, a)
      {
        var a :| a in left;
        if a !in transitions {
          transitions := transitions[a := map[]];
        }
        if DONE !in transitions[a] {
          transitions := transitions[a := transitions[a][DONE := TERMINATE]];
        }
        left := left - {a};
      }
    }

    /** The whole file: what its parts come to, in the order they are read, and
        what each look-up then gives. */
    method Transform(parts: seq<Part>) returns (transitions: Transitions, start: Option<string>)
      requires actions == {} && during == map[] && startAction == None
      modifies this
      ensures Collects(actions, during, start, parts) && transitions == Compile(during, actions)
      ensures forall a, e :: Lookup(transitions, a, e) == SourceTarget(BlocksOf(parts), ActionsOf(parts), a, e)
    {
      for i := 0 to |parts|
        invariant Collects(actions, during, startAction, parts[..i])
      {
        ghost var before := parts[..i];
        assert parts[..i + 1] == before + [parts[i]];
        match parts[i]
        case ActionPart(id) =>
          ActionCollected(actions, during, startAction, before, id);
          ActionDecl(id);
        case StartPart(id) =>
          StartCollected(actions, during, startAction, before, id);
          MissionStart(id);
        case DuringPart(b) =>
          BlockCollected(actions, during, startAction, before, b);
          DuringBlock(b.action, b.rules);
      }
      assert parts[..|parts|] == parts;
      start := startAction;
      transitions := BuildTransitions();
      CompiledLookups(BlocksOf(parts), ActionsOf(parts));
    }
  }

  // ----- what the source means -----

  /** The target of the last rule for an event, within one block. */
  ghost function LastInRules(rules: seq<Rule>, event: string): Option<string> {
    if rules == [] then None
    else if rules[|rules| - 1].event == event then Some(rules[|rules| - 1].target)
    else LastInRules(rules[..|rules| - 1], event)
  }

  /** The last rule in source order for an action and an event. */
  ghost function LastRule(blocks: seq<Block>, action: string, event: string): Option<string> {
    if blocks == [] then None
    else
      var last := blocks[|blocks| - 1];
      if last.action == action && LastInRules(last.rules, event).Some? then LastInRules(last.rules, event)
      else LastRule(blocks[..|blocks| - 1], action, event)
  }

  /** Where the mission goes as written: by the last rule, or to its end when a
      declared action without a rule for `done` is done. */
  ghost function SourceTarget(blocks: seq<Block>, actions: set<string>, action: string, event: string): Option<string> {
    var rule := LastRule(blocks, action, event);
    if rule.Some? then rule
    else if event == DONE && action in actions then Some(TERMINATE)
    else None
  }

  function Get(edges: Edges, event: string): Option<string> {
    if event in edges then Some(edges[event]) else None
  }

  function Lookup(t: Transitions, action: string, event: string): Option<string> {
    Get(EdgesOf(t, action), event)
  }

  lemma {:induction false} RulesLookup(edges: Edges, rules: seq<Rule>, event: string)
    ensures Get(AddRules(edges, rules), event)
         == if LastInRules(rules, event).Some? then LastInRules(rules, event) else Get(edges, event)
  {
    if rules != [] {
      RulesLookup(edges, rules[..|rules| - 1], event);
    }
  }

  lemma {:induction false} BlocksLookup(blocks: seq<Block>, action: string, event: string)
    ensures Lookup(AddBlocks(blocks), action, event) == LastRule(blocks, action, event)
  {
    if blocks != [] {
      var before, last := blocks[..|blocks| - 1], blocks[|blocks| - 1];
      BlocksLookup(before, action, event);
      RulesLookup(EdgesOf(AddBlocks(before), last.action), last.rules, event);
    }
  }

  /** Main result: looking up the compiled map gives the last rule in source order,
      or the implicit end of a declared action. */
  lemma CompiledLookupIsSourceTarget(blocks: seq<Block>, actions: set<string>, action: string, event: string)
    ensures Lookup(Compile(AddBlocks(blocks), actions), action, event) == SourceTarget(blocks, actions, action, event)
  {
    BlocksLookup(blocks, action, event);
  }

  lemma CompiledLookups(blocks: seq<Block>, actions: set<string>)
    ensures forall a, e :: Lookup(Compile(AddBlocks(blocks), actions), a, e) == SourceTarget(blocks, actions, a, e)
  {
    forall a, e ensures Lookup(Compile(AddBlocks(blocks), actions), a, e) == SourceTarget(blocks, actions, a, e) {
      CompiledLookupIsSourceTarget(blocks, actions, a, e);
    }
  }

  // ----- runs -----

  /** `_next_state`: a missing transition ends the mission. */
  function NextState(t: Transitions, action: string, event: string): string {
    var target := Lookup(t, action, event);
    if target.Some? then target.value else TERMINATE
  }

  ghost function SourceNext(blocks: seq<Block>, actions: set<string>, action: string, event: string): string {
    var target := SourceTarget(blocks, actions, action, event);
    if target.Some? then target.value else TERMINATE
  }

  /** The state after the given winners, one per visited state. */
  ghost function StateAfter(t: Transitions, start: string, winners: seq<string>): string {
    if winners == [] then start
    else
      var before := StateAfter(t, start, winners[..|winners| - 1]);
      if before == TERMINATE then TERMINATE else NextState(t, before, winners[|winners| - 1])
  }

  ghost function SourceStateAfter(blocks: seq<Block>, actions: set<string>, start: string,
                                  winners: seq<string>): string {
    if winners == [] then start
    else
      var before := SourceStateAfter(blocks, actions, start, winners[..|winners| - 1]);
      if before == TERMINATE then TERMINATE else SourceNext(blocks, actions, before, winners[|winners| - 1])
  }

  /** Main result: for every sequence of winners the compiled mission goes through
      the states that the rules as written prescribe. */
  lemma {:induction false} CompiledRunFollowsSource(blocks: seq<Block>, actions: set<string>, start: string,
          winners: seq<string>)
    ensures StateAfter(Compile(AddBlocks(blocks), actions), start, winners)
            == SourceStateAfter(blocks, actions, start, winners)
  {
    if winners != [] {
      var before := winners[..|winners| - 1];
      CompiledRunFollowsSource(blocks, actions, start, before);
      CompiledLookupIsSourceTarget(blocks, actions, SourceStateAfter(blocks, actions, start, before),
        winners[|winners| - 1]);
    }
  }

  // ----- missions whose names are all declared -----

  /** Everything the mission refers to is declared, or is one of the two built-in names. */
  ghost predicate Declared(blocks: seq<Block>, actions: set<string>, events: set<string>, start: string) {
    && start in actions + {TERMINATE}
    && forall i, j :: 0 <= i < |blocks| && 0 <= j < |blocks[i].rules| ==>
         blocks[i].rules[j].target in actions + {TERMINATE} && blocks[i].rules[j].event in events + {DONE}
  }

  lemma {:induction false} LastInRulesIsARule(rules: seq<Rule>, event: string)
    requires LastInRules(rules, event).Some?
    ensures exists j :: 0 <= j < |rules| && rules[j] == Rule(event, LastInRules(rules, event).value)
  {
    if rules[|rules| - 1].event != event {
      LastInRulesIsARule(rules[..|rules| - 1], event);
      var j :| 0 <= j < |rules| - 1 && rules[..|rules| - 1][j] == Rule(event, LastInRules(rules, event).value);
      assert rules[j] == Rule(event, LastInRules(rules, event).value);
    } else {
      assert rules[|rules| - 1] == Rule(event, LastInRules(rules, event).value);
    }
  }

  lemma {:induction false} LastRuleIsARule(blocks: seq<Block>, action: string, event: string)
    requires LastRule(blocks, action, event).Some?
    ensures exists i, j :: 0 <= i < |blocks| && 0 <= j < |blocks[i].rules| && blocks[i].action == action
                           && blocks[i].rules[j] == Rule(event, LastRule(blocks, action, event).value)
  {
    var n := |blocks| - 1;
    if blocks[n].action == action && LastInRules(blocks[n].rules, event).Some? {
      LastInRulesIsARule(blocks[n].rules, event);
    } else {
      LastRuleIsARule(blocks[..n], action, event);
      var i, j :| 0 <= i < n && 0 <= j < |blocks[..n][i].rules| && blocks[..n][i].action == action
                  && blocks[..n][i].rules[j] == Rule(event, LastRule(blocks, action, event).value);
      assert blocks[i] == blocks[..n][i];
    }
  }

  /** The racers of a state: its action and the events it has edges for. */
  ghost predicate CanWin(t: Transitions, action: string, event: string) {
    event == DONE || (action in t && event in t[action])
  }

  /** Every edge of a declared mission leads somewhere declared, on a declared event. */
  lemma EdgesAreDeclared(blocks: seq<Block>, actions: set<string>, events: set<string>, start: string,
                         action: string, event: string)
    requires Declared(blocks, actions, events, start) && action in actions
    requires CanWin(Compile(AddBlocks(blocks), actions), action, event)
    ensures Lookup(Compile(AddBlocks(blocks), actions), action, event).Some?
    ensures Lookup(Compile(AddBlocks(blocks), actions), action, event).value in actions + {TERMINATE}
    ensures event in events + {DONE}
  {
    CompiledLookupIsSourceTarget(blocks, actions, action, event);
    if LastRule(blocks, action, event).Some? {
      LastRuleIsARule(blocks, action, event);
    }
  }

  /** Each winner is a racer of the state it wins in. */
  ghost predicate PossibleWinners(t: Transitions, start: string, winners: seq<string>) {
    forall i :: 0 <= i < |winners| ==>
      StateAfter(t, start, winners[..i]) != TERMINATE && CanWin(t, StateAfter(t, start, winners[..i]), winners[i])
  }

  lemma StateStep(t: Transitions, start: string, winners: seq<string>, i: nat)
    requires i < |winners|
    ensures StateAfter(t, start, winners[..i + 1])
         == if StateAfter(t, start, winners[..i]) == TERMINATE then TERMINATE
            else NextState(t, StateAfter(t, start, winners[..i]), winners[i])
  {
    assert winners[..i + 1][..i] == winners[..i];
  }

  lemma {:induction false} StatesAreDeclared(blocks: seq<Block>, actions: set<string>, events: set<string>,
                        start: string, winners: seq<string>, i: nat)
    requires Declared(blocks, actions, events, start) && i <= |winners|
    requires PossibleWinners(Compile(AddBlocks(blocks), actions), start, winners)
    ensures StateAfter(Compile(AddBlocks(blocks), actions), start, winners[..i]) in actions + {TERMINATE}
  {
    var t := Compile(AddBlocks(blocks), actions);
    if i > 0 {
      StatesAreDeclared(blocks, actions, events, start, winners, i - 1);
      EdgesAreDeclared(blocks, actions, events, start, StateAfter(t, start, winners[..i - 1]), winners[i - 1]);
      StateStep(t, start, winners, i - 1);
    }
  }

  /** Main result: a run of a declared mission follows the edges of the transition
      graph: every state it is in is declared, every event it listens to is
      declared, and no lookup is ever missing. */
  lemma DeclaredRunsNeverFail(blocks: seq<Block>, actions: set<string>, events: set<string>, start: string,
                              winners: seq<string>, i: nat)
    requires Declared(blocks, actions, events, start) && i < |winners|
    requires PossibleWinners(Compile(AddBlocks(blocks), actions), start, winners)
    ensures var t := Compile(AddBlocks(blocks), actions);
            && StateAfter(t, start, winners[..i]) in actions
            && winners[i] in events + {DONE}
            && Lookup(t, StateAfter(t, start, winners[..i]), winners[i]) == Some(StateAfter(t, start, winners[..i + 1]))
            && StateAfter(t, start, winners[..i + 1]) in actions + {TERMINATE}
  {
    var t := Compile(AddBlocks(blocks), actions);
    StatesAreDeclared(blocks, actions, events, start, winners, i);
    StatesAreDeclared(blocks, actions, events, start, winners, i + 1);
    EdgesAreDeclared(blocks, actions, events, start, StateAfter(t, start, winners[..i]), winners[i]);
    StateStep(t, start, winners, i);
  }

  // ----- acyclic missions end -----

  ghost predicate Edge(t: Transitions, a: string, b: string) {
    a in t && exists e :: e in t[a] && t[a][e] == b
  }

  ghost predicate Path(t: Transitions, p: seq<string>) {
    forall i :: 0 < i < |p| ==> Edge(t, p[i - 1], p[i])
  }

  ghost predicate Acyclic(t: Transitions) {
    forall p: seq<string> :: |p| >= 2 && Path(t, p) ==> p[0] != p[|p| - 1]
  }

  /** The states from the start up to and including the present one. */
  ghost function Visited(t: Transitions, start: string, winners: seq<string>): seq<string> {
    seq(|winners| + 1, i requires 0 <= i <= |winners| => StateAfter(t, start, winners[..i]))
  }

  lemma AcyclicPathsDoNotRepeat(t: Transitions, p: seq<string>, i: nat, j: nat)
    requires Acyclic(t) && Path(t, p) && i < j < |p|
    ensures p[i] != p[j]
  {
    var q := p[i..j + 1];
    assert Path(t, q);
    assert q[0] == p[i] && q[|q| - 1] == p[j];
  }

  lemma VisitedIsAPath(blocks: seq<Block>, actions: set<string>, events: set<string>, start: string,
                       winners: seq<string>)
    requires Declared(blocks, actions, events, start)
    requires PossibleWinners(Compile(AddBlocks(blocks), actions), start, winners)
    ensures Path(Compile(AddBlocks(blocks), actions), Visited(Compile(AddBlocks(blocks), actions), start, winners))
  {
    var t := Compile(AddBlocks(blocks), actions);
    var p := Visited(t, start, winners);
    forall i | 0 < i < |p| ensures Edge(t, p[i - 1], p[i]) {
      DeclaredRunsNeverFail(blocks, actions, events, start, winners, i - 1);
      assert p[i - 1] == StateAfter(t, start, winners[..i - 1]) && p[i] == StateAfter(t, start, winners[..i]);
    }
  }

  lemma {:induction false} DistinctElementsFit(p: seq<string>, s: set<string>)
    requires forall i :: 0 <= i < |p| ==> p[i] in s
    requires forall i, j :: 0 <= i < j < |p| ==> p[i] != p[j]
    ensures |p| <= |s|
  {
    if p != [] {
      var last := p[|p| - 1];
      DistinctElementsFit(p[..|p| - 1], s - {last});
      assert |s - {last}| == |s| - 1;
    }
  }

  /** Main result: if the transition graph has no cycle, a declared mission visits
      at most as many states as it has actions before it terminates. */
  lemma AcyclicMissionsTerminate(blocks: seq<Block>, actions: set<string>, events: set<string>, start: string,
                                 winners: seq<string>)
    requires Declared(blocks, actions, events, start)
    requires Acyclic(Compile(AddBlocks(blocks), actions))
    requires PossibleWinners(Compile(AddBlocks(blocks), actions), start, winners)
    ensures |winners| <= |actions|
    ensures |winners| == |actions| ==> StateAfter(Compile(AddBlocks(blocks), actions), start, winners) == TERMINATE
  {
    var t := Compile(AddBlocks(blocks), actions);
    var p := Visited(t, start, winners);
    VisitedIsAPath(blocks, actions, events, start, winners);
    forall i, j | 0 <= i < j < |p| ensures p[i] != p[j] {
      AcyclicPathsDoNotRepeat(t, p, i, j);
    }
    forall i | 0 <= i < |winners| ensures p[i] in actions {
      DeclaredRunsNeverFail(blocks, actions, events, start, winners, i);
    }
    DistinctElementsFit(p[..|winners|], actions);
    StatesAreDeclared(blocks, actions, events, start, winners, |winners|);
    assert winners[..|winners|] == winners;
    if p[|winners|] != TERMINATE {
      DistinctElementsFit(p, actions);
    }
  }
}
