/** How the failsafe lists grow over a run, because every call extends the list
    it reads in place. */
module Failsafes {
  import opened Laws

  /** A failsafe called while `law` was in force. */
  datatype Firing = Firing(law: string, name: string)

  function Fire(table: Table, f: Firing): (r: Table)
    ensures r.Keys == table.Keys
    ensures forall l :: l in table ==> r[l].Keys == table[l].Keys
  {
    if HasList(table, BASE, f.name) then FailsafeTable(table, f.law, f.name) else table
  }

  function FireAll(table: Table, firings: seq<Firing>): (r: Table)
    ensures r.Keys == table.Keys
    ensures forall l :: l in table ==> r[l].Keys == table[l].Keys
  {
    if firings == [] then table
    else Fire(FireAll(table, firings[..|firings| - 1]), firings[|firings| - 1])
  }

  function Times(b: seq<string>, k: nat): seq<string> {
    if k == 0 then [] else Times(b, k - 1) + b
  }

  lemma {:induction false} TimesAdd(b: seq<string>, j: nat, k: nat)
    ensures Times(b, j) + Times(b, k) == Times(b, j + k)
  {
    if k > 0 {
      TimesAdd(b, j, k - 1);
      assert Times(b, j) + (Times(b, k - 1) + b) == (Times(b, j) + Times(b, k - 1)) + b;
    } else {
      assert Times(b, j) + [] == Times(b, j);
    }
  }

  lemma {:induction false} TimesLength(b: seq<string>, k: nat)
    ensures |Times(b, k)| == k * |b|
  {
    if k > 0 {
      TimesLength(b, k - 1);
    }
  }

  /** Copies of the original base list now in the base list. Firing under the
      base law appends the list to itself. */
  ghost function BaseCopies(firings: seq<Firing>, name: string): (k: nat)
    ensures k >= 1
  {
    if firings == [] then 1
    else
      var k := BaseCopies(firings[..|firings| - 1], name);
      if firings[|firings| - 1] == Firing(BASE, name) then 2 * k else k
  }

  /** Copies appended so far to the list of another law. */
  ghost function LawCopies(firings: seq<Firing>, law: string, name: string): nat {
    if firings == [] then 0
    else
      var before := firings[..|firings| - 1];
      LawCopies(before, law, name)
        + if firings[|firings| - 1] == Firing(law, name) then BaseCopies(before, name) else 0
  }

  ghost function Count(firings: seq<Firing>, f: Firing): nat {
    if firings == [] then 0
    else Count(firings[..|firings| - 1], f) + if firings[|firings| - 1] == f then 1 else 0
  }

  /** One firing extends at most the list it reads. */
  lemma FireExtendsOneList(table: Table, f: Firing, law: string, name: string)
    requires HasList(table, BASE, name) && HasList(table, law, name)
    ensures HasList(Fire(table, f), law, name)
    ensures Fire(table, f)[law][name] == table[law][name] + if f == Firing(law, name) then table[BASE][name] else []
  {}

  lemma {:induction false} ListsStay(table: Table, firings: seq<Firing>, law: string, name: string)
    ensures HasList(FireAll(table, firings), law, name) <==> HasList(table, law, name)
  {}

  lemma {:induction false} BaseListDoubles(table: Table, firings: seq<Firing>, name: string)
    requires HasList(table, BASE, name)
    ensures HasList(FireAll(table, firings), BASE, name)
    ensures FireAll(table, firings)[BASE][name] == Times(table[BASE][name], BaseCopies(firings, name))
  {
    var b := table[BASE][name];
    ListsStay(table, firings, BASE, name);
    if firings == [] {
      assert Times(b, 1) == Times(b, 0) + b == b;
    } else {
      var before := firings[..|firings| - 1];
      BaseListDoubles(table, before, name);
      TimesAdd(b, BaseCopies(before, name), BaseCopies(before, name));
      FireExtendsOneList(FireAll(table, before), firings[|firings| - 1], BASE, name);
    }
  }

  lemma Associate(x: seq<string>, y: seq<string>, z: seq<string>)
    ensures (x + y) + z == x + (y + z)
  {}

  /** Main result: after any firings, every list is its original contents
      followed by whole copies of the original base list; `BaseListDoubles` is
      the same statement for the base list itself. */
  lemma {:induction false} ListsGrowByWholeCopies(table: Table, firings: seq<Firing>, law: string, name: string)
    requires HasList(table, BASE, name) && law != BASE && HasList(table, law, name)
    ensures HasList(FireAll(table, firings), law, name)
    ensures FireAll(table, firings)[law][name]
            == table[law][name] + Times(table[BASE][name], LawCopies(firings, law, name))
  {
    var b := table[BASE][name];
    ListsStay(table, firings, law, name);
    if firings != [] {
      var before := firings[..|firings| - 1];
      ListsGrowByWholeCopies(table, before, law, name);
      BaseListDoubles(table, before, name);
      FireExtendsOneList(FireAll(table, before), firings[|firings| - 1], law, name);
      TimesAdd(b, LawCopies(before, law, name), BaseCopies(before, name));
      Associate(table[law][name], Times(b, LawCopies(before, law, name)), Times(b, BaseCopies(before, name)));
    }
  }

  /** How many copies of the base list a firing sends after the law's own commands. */
  ghost function CopiesSent(table: Table, firings: seq<Firing>, law: string, name: string): (k: nat)
    ensures k >= 1
  {
    if law == BASE then 2 * BaseCopies(firings, name)
    else if HasList(table, law, name) then LawCopies(firings, law, name) + BaseCopies(firings, name)
    else BaseCopies(firings, name)
  }

  ghost function OwnCommands(table: Table, law: string, name: string): seq<string> {
    if law != BASE && HasList(table, law, name) then table[law][name] else []
  }

  /** Main result: every firing sends the law's own commands first and then the
      base commands, at least once and a whole number of times. */
  lemma FiringSendsOwnThenBase(table: Table, firings: seq<Firing>, law: string, name: string)
    requires HasList(table, BASE, name)
    ensures HasList(FireAll(table, firings), BASE, name)
    ensures FailsafeCommands(FireAll(table, firings), law, name)
         == OwnCommands(table, law, name) + Times(table[BASE][name], CopiesSent(table, firings, law, name))
  {
    var b := table[BASE][name];
    var k := BaseCopies(firings, name);
    BaseListDoubles(table, firings, name);
    ListsStay(table, firings, law, name);
    if law == BASE {
      TimesAdd(b, k, k);
    } else if HasList(table, law, name) {
      ListsGrowByWholeCopies(table, firings, law, name);
      TimesAdd(b, LawCopies(firings, law, name), k);
      Associate(table[law][name], Times(b, LawCopies(firings, law, name)), Times(b, k));
    }
  }

  lemma {:induction false} CopiesWithoutBaseFirings(firings: seq<Firing>, law: string, name: string)
    ensures BaseCopies(firings, name) == 1 <==> Count(firings, Firing(BASE, name)) == 0
    ensures BaseCopies(firings, name) == 1 ==> LawCopies(firings, law, name) == Count(firings, Firing(law, name))
    ensures LawCopies(firings, law, name) == 0 <==> Count(firings, Firing(law, name)) == 0
  {
    if firings != [] {
      CopiesWithoutBaseFirings(firings[..|firings| - 1], law, name);
    }
  }

  /** In a law with its own list, the k-th firing sends exactly k copies of the
      base list, as long as no firing happened under the base law. */
  lemma KthFiringSendsKCopies(table: Table, firings: seq<Firing>, law: string, name: string)
    requires HasList(table, BASE, name) && law != BASE && HasList(table, law, name)
    requires Count(firings, Firing(BASE, name)) == 0
    ensures CopiesSent(table, firings, law, name) == Count(firings, Firing(law, name)) + 1
  {
    CopiesWithoutBaseFirings(firings, law, name);
  }

  /** The base commands are sent exactly once, as the law file's comment has it,
      if and only if this is the first firing in a law with its own list (or one
      without) and none happened under the base law. */
  lemma BaseCommandsSentOnceIff(table: Table, firings: seq<Firing>, law: string, name: string)
    requires HasList(table, BASE, name) && table[BASE][name] != []
    ensures HasList(FireAll(table, firings), BASE, name)
    ensures FailsafeCommands(FireAll(table, firings), law, name) == OwnCommands(table, law, name) + table[BASE][name]
      <==> law != BASE && Count(firings, Firing(BASE, name)) == 0
           && (HasList(table, law, name) ==> Count(firings, Firing(law, name)) == 0)
  {
    var b, own, k := table[BASE][name], OwnCommands(table, law, name), CopiesSent(table, firings, law, name);
    FiringSendsOwnThenBase(table, firings, law, name);
    CopiesWithoutBaseFirings(firings, law, name);
    TimesLength(b, k);
    assert Times(b, 1) == Times(b, 0) + b == b;
    assert k != 1 ==> |Times(b, k)| >= 2 * |b|;
    assert |own + Times(b, k)| == |own| + |Times(b, k)| && |own + b| == |own| + |b|;
  }
}
