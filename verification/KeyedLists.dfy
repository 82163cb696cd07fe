/** Deduplication and stable sorting of a list by a key, as Python's idioms do them. */
module KeyedLists {

  ghost predicate IsFirst<T, K>(key: T -> K, s: seq<T>, j: nat) {
    j < |s| && forall i :: 0 <= i < j ==> key(s[i]) != key(s[j])
  }

  ghost predicate DistinctKeys<T, K>(key: T -> K, s: seq<T>) {
    forall i, j :: 0 <= i < j < |s| ==> key(s[i]) != key(s[j])
  }

  /** Every element of `out` is the first of its key in `s`. */
  ghost predicate OnlyFirsts<T, K>(key: T -> K, s: seq<T>, out: seq<T>) {
    forall x :: x in out ==> exists j: nat :: IsFirst(key, s, j) && x == s[j]
  }

  /** `out` consists of exactly the first element of each key of `s`. */
  ghost predicate ExactlyFirsts<T, K>(key: T -> K, s: seq<T>, out: seq<T>) {
    && OnlyFirsts(key, s, out)
    && (forall j: nat :: IsFirst(key, s, j) ==> s[j] in out)
    && DistinctKeys(key, out)
  }

  ghost function Keys<T, K>(key: T -> K, s: seq<T>): set<K> {
    set i | 0 <= i < |s| :: key(s[i])
  }

  /** The elements kept, in order: each whose key did not occur before it. */
  ghost function FirstsBy<T, K>(key: T -> K, s: seq<T>): seq<T> {
    if s == [] then []
    else
      var n := |s| - 1;
      var kept := FirstsBy(key, s[..n]);
      if key(s[n]) in Keys(key, s[..n]) then kept else kept + [s[n]]
  }

  lemma FirstOfPrefix<T, K>(key: T -> K, s: seq<T>, n: nat, j: nat)
    requires j < n <= |s|
    ensures IsFirst(key, s, j) <==> IsFirst(key, s[..n], j)
  {}

  lemma {:induction false} OnlyFirstsAreKept<T, K>(key: T -> K, s: seq<T>)
    ensures OnlyFirsts(key, s, FirstsBy(key, s))
  {
    if s != [] {
      var n := |s| - 1;
      OnlyFirstsAreKept(key, s[..n]);
      forall x | x in FirstsBy(key, s) ensures exists j: nat :: IsFirst(key, s, j) && x == s[j] {
        if x in FirstsBy(key, s[..n]) {
          var j: nat :| IsFirst(key, s[..n], j) && x == s[..n][j];
          FirstOfPrefix(key, s, n, j);
        } else {
          FreshIsFirst(key, s);
        }
      }
    }
  }

  lemma FreshIsFirst<T, K>(key: T -> K, s: seq<T>)
    requires s != []
    ensures IsFirst(key, s, |s| - 1) <==> key(s[|s| - 1]) !in Keys(key, s[..|s| - 1])
  {
    var n := |s| - 1;
    if key(s[n]) in Keys(key, s[..n]) {
      var i :| 0 <= i < n && key(s[..n][i]) == key(s[n]);
      assert key(s[i]) == key(s[n]);
    } else {
      forall i | 0 <= i < n ensures key(s[i]) != key(s[n]) {
        assert key(s[..n][i]) in Keys(key, s[..n]);
      }
    }
  }

  lemma {:induction false} AllFirstsAreKept<T, K>(key: T -> K, s: seq<T>, j: nat)
    requires IsFirst(key, s, j)
    ensures s[j] in FirstsBy(key, s)
  {
    var n := |s| - 1;
    if j < n {
      FirstOfPrefix(key, s, n, j);
      AllFirstsAreKept(key, s[..n], j);
    } else {
      FreshIsFirst(key, s);
    }
  }

  lemma {:induction false} KeptKeysAreDistinct<T, K>(key: T -> K, s: seq<T>)
    ensures DistinctKeys(key, FirstsBy(key, s))
  {
    if s != [] {
      var n := |s| - 1;
      var kept := FirstsBy(key, s[..n]);
      KeptKeysAreDistinct(key, s[..n]);
      OnlyFirstsAreKept(key, s[..n]);
      forall x | x in kept ensures key(x) in Keys(key, s[..n]) {
        var j: nat :| IsFirst(key, s[..n], j) && x == s[..n][j];
      }
    }
  }

  lemma FirstsAreKept<T, K>(key: T -> K, s: seq<T>)
    ensures ExactlyFirsts(key, s, FirstsBy(key, s))
  {
    OnlyFirstsAreKept(key, s);
    KeptKeysAreDistinct(key, s);
    forall j: nat | IsFirst(key, s, j) ensures s[j] in FirstsBy(key, s) {
      AllFirstsAreKept(key, s, j);
    }
  }

  /** The deduplicating loop, with its set of keys already seen. */
  method KeepFirsts<T, K(==)>(key: T -> K, s: seq<T>) returns (out: seq<T>)
    ensures out == FirstsBy(key, s)
    ensures ExactlyFirsts(key, s, out)
  {
    var seen: set<K> := {};
    out := [];
    for i := 0 to |s|
      invariant seen == Keys(key, s[..i])
      invariant out == FirstsBy(key, s[..i])
    {
      assert s[..i + 1][..i] == s[..i];
      KeysGrow(key, s, i);
      if key(s[i]) !in seen {
        seen := seen + {key(s[i])};
        out := out + [s[i]];
      }
    }
    assert s[..|s|] == s;
    FirstsAreKept(key, s);
  }

  lemma KeysGrow<T, K>(key: T -> K, s: seq<T>, i: nat)
    requires i < |s|
    ensures Keys(key, s[..i + 1]) == Keys(key, s[..i]) + {key(s[i])}
  {
    var long, short := s[..i + 1], s[..i];
    forall k | 0 <= k < |short| ensures key(short[k]) in Keys(key, long) {
      assert short[k] == long[k];
    }
    forall k | 0 <= k < |long| ensures key(long[k]) in Keys(key, short) + {key(s[i])} {
      if k < i { assert long[k] == short[k]; }
    }
    assert long[i] == s[i];
  }

  // ----- sorting -----

  ghost predicate SortedBy<T>(pos: T -> real, s: seq<T>) {
    forall i, j :: 0 <= i < j < |s| ==> pos(s[i]) <= pos(s[j])
  }

  function Insert<T>(pos: T -> real, x: T, s: seq<T>): seq<T> {
    if s == [] then [x]
    else if pos(s[|s| - 1]) <= pos(x) then s + [x]
    else Insert(pos, x, s[..|s| - 1]) + [s[|s| - 1]]
  }

  /** Python's stable `sort` with `pos` as the key. */
  function SortBy<T>(pos: T -> real, s: seq<T>): seq<T> {
    if s == [] then []
    else Insert(pos, s[|s| - 1], SortBy(pos, s[..|s| - 1]))
  }

  /** The elements at one position, in their order of appearance. */
  ghost function Tied<T>(pos: T -> real, v: real, s: seq<T>): seq<T> {
    if s == [] then []
    else Tied(pos, v, s[..|s| - 1]) + if pos(s[|s| - 1]) == v then [s[|s| - 1]] else []
  }

  lemma {:induction false} InsertAdds<T>(pos: T -> real, x: T, s: seq<T>)
    ensures multiset(Insert(pos, x, s)) == multiset(s) + multiset{x}
  {
    if s != [] {
      assert s == s[..|s| - 1] + [s[|s| - 1]];
      InsertAdds(pos, x, s[..|s| - 1]);
    }
  }

  lemma {:induction false} InsertKeepsOrder<T>(pos: T -> real, x: T, s: seq<T>)
    requires SortedBy(pos, s)
    ensures SortedBy(pos, Insert(pos, x, s))
  {
    if s != [] && pos(s[|s| - 1]) > pos(x) {
      var top, rest := s[|s| - 1], s[..|s| - 1];
      InsertKeepsOrder(pos, x, rest);
      InsertAdds(pos, x, rest);
      var low := Insert(pos, x, rest);
      forall k | 0 <= k < |low| ensures pos(low[k]) <= pos(top) {
        InsertMembers(pos, x, rest, low[k]);
      }
    }
  }

  lemma InsertMembers<T>(pos: T -> real, x: T, s: seq<T>, y: T)
    requires y in Insert(pos, x, s)
    ensures y == x || y in s
  {
    InsertAdds(pos, x, s);
    MembersAgree(Insert(pos, x, s), s + [x], y);
  }

  lemma MembersAgree<T>(s: seq<T>, t: seq<T>, x: T)
    requires multiset(s) == multiset(t)
    ensures x in s <==> x in t
  {
    assert x in s <==> x in multiset(s);
    assert x in t <==> x in multiset(t);
  }

  lemma {:induction false} InsertIsStable<T>(pos: T -> real, x: T, s: seq<T>, v: real)
    ensures Tied(pos, v, Insert(pos, x, s)) == Tied(pos, v, s + [x])
  {
    assert (s + [x])[..|s|] == s;
    if s != [] {
      var n := |s| - 1;
      if pos(s[n]) > pos(x) {
        InsertIsStable(pos, x, s[..n], v);
        var low := Insert(pos, x, s[..n]);
        assert (low + [s[n]])[..|low|] == low;
        assert (s[..n] + [x])[..n] == s[..n];
      }
    }
  }

  /** The sort is a sort: ordered, a rearrangement, and ties keep their order. */
  lemma {:induction false} SortBySorts<T>(pos: T -> real, s: seq<T>)
    ensures SortedBy(pos, SortBy(pos, s))
    ensures multiset(SortBy(pos, s)) == multiset(s)
    ensures forall v :: Tied(pos, v, SortBy(pos, s)) == Tied(pos, v, s)
  {
    if s != [] {
      var n := |s| - 1;
      SortBySorts(pos, s[..n]);
      assert s == s[..n] + [s[n]];
      var low := SortBy(pos, s[..n]);
      InsertKeepsOrder(pos, s[n], low);
      InsertAdds(pos, s[n], low);
      forall v ensures Tied(pos, v, SortBy(pos, s)) == Tied(pos, v, s) {
        InsertIsStable(pos, s[n], low, v);
        assert (low + [s[n]])[..|low|] == low;
      }
    }
  }

  // ----- both together -----

  lemma OccursTwice<T>(s: seq<T>, i: nat, j: nat)
    requires i < j < |s| && s[i] == s[j]
    ensures multiset(s)[s[i]] >= 2
  {
    assert s == s[..i] + [s[i]] + s[i + 1..j] + [s[j]] + s[j + 1..];
  }

  lemma OccursOnce<T, K>(key: T -> K, s: seq<T>, i: nat)
    requires i < |s| && DistinctKeys(key, s)
    ensures multiset(s)[s[i]] == 1
  {
    assert s == s[..i] + [s[i]] + s[i + 1..];
    assert s[i] !in s[..i] && s[i] !in s[i + 1..];
  }

  lemma RearrangedKeysStayDistinct<T, K>(key: T -> K, s: seq<T>, out: seq<T>)
    requires DistinctKeys(key, s) && multiset(out) == multiset(s)
    ensures DistinctKeys(key, out)
  {
    forall i, j | 0 <= i < j < |out| ensures key(out[i]) != key(out[j]) {
      MembersAgree(s, out, out[i]);
      MembersAgree(s, out, out[j]);
      var i' :| 0 <= i' < |s| && s[i'] == out[i];
      var j' :| 0 <= j' < |s| && s[j'] == out[j];
      OccursOnce(key, s, i');
      if out[i] == out[j] {
        OccursTwice(out, i, j);
      }
    }
  }

  /** Deduplicating and then sorting keeps exactly the firsts, now in order. */
  lemma SortedFirsts<T, K>(key: T -> K, pos: T -> real, s: seq<T>)
    ensures ExactlyFirsts(key, s, SortBy(pos, FirstsBy(key, s)))
    ensures SortedBy(pos, SortBy(pos, FirstsBy(key, s)))
  {
    FirstsAreKept(key, s);
    SortBySorts(pos, FirstsBy(key, s));
    RearrangedFirsts(key, s, FirstsBy(key, s), SortBy(pos, FirstsBy(key, s)));
  }

  lemma RearrangedFirsts<T, K>(key: T -> K, s: seq<T>, kept: seq<T>, out: seq<T>)
    requires ExactlyFirsts(key, s, kept) && multiset(out) == multiset(kept)
    ensures ExactlyFirsts(key, s, out)
  {
    RearrangedKeysStayDistinct(key, kept, out);
    forall x ensures x in out <==> x in kept {
      MembersAgree(kept, out, x);
    }
  }
}
