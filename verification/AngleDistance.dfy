/** The heading comparison used by the position events: how far apart two
    headings are on the circle, in degrees. */
module AngleDistance {

  function Abs(x: real): real {
    if x < 0.0 then -x else x
  }

  /** Python's `%` on numbers with a positive divisor: it floors, so the
      remainder is never negative. */
  function FloorMod(x: real, m: real): real
    requires m > 0.0
  {
    x - m * (x / m).Floor as real
  }

  function DegDiff(a: real, b: real): real {
    var d := Abs(FloorMod(a - b, 360.0));
    if d <= 180.0 then d else 360.0 - d
  }

  function AddTurns(a: real, k: int): real {
    a + 360.0 * k as real
  }

  /** The distance from `a` to `b` after turning `a` by `k` full turns. */
  function Turned(a: real, b: real, k: int): real {
    Abs(a - b + 360.0 * k as real)
  }

  lemma FloorModRange(x: real)
    ensures 0.0 <= FloorMod(x, 360.0) < 360.0
  {
    var q := x / 360.0;
    assert q.Floor as real <= q < q.Floor as real + 1.0;
    assert x == q * 360.0;
  }

  /** The remainder is `a - b` less some number of full turns. */
  lemma RemainderIsATurn(a: real, b: real) returns (k: int)
    ensures FloorMod(a - b, 360.0) == a - b + 360.0 * k as real
  {
    k := -((a - b) / 360.0).Floor;
  }

  /** The main characterisation: `DegDiff` is the least distance over all whole
      turns, it is reached by one of them, and it never exceeds a half turn. */
  lemma DegDiffIsLeastTurn(a: real, b: real)
    ensures 0.0 <= DegDiff(a, b) <= 180.0
    ensures exists k :: DegDiff(a, b) == Turned(a, b, k)
    ensures forall k :: DegDiff(a, b) <= Turned(a, b, k)
  {
    FloorModRange(a - b);
    var k0 := RemainderIsATurn(a, b);
    var d := FloorMod(a - b, 360.0);
    assert Turned(a, b, k0) == d;
    assert Turned(a, b, k0 - 1) == 360.0 - d;
    forall k ensures DegDiff(a, b) <= Turned(a, b, k) {
      assert a - b + 360.0 * k as real == d + 360.0 * (k - k0) as real;
      if k - k0 >= 0 {
      } else {
        assert (k - k0) as real <= -1.0;
      }
    }
  }

  /** Any value that is reached by some turn and is below all turns is `DegDiff`. */
  lemma LeastTurnIsUnique(a: real, b: real, v: real)
    requires exists k :: v == Turned(a, b, k)
    requires forall k :: v <= Turned(a, b, k)
    ensures v == DegDiff(a, b)
  {
    DegDiffIsLeastTurn(a, b);
    var k :| v == Turned(a, b, k);
    var j :| DegDiff(a, b) == Turned(a, b, j);
  }

  lemma DegDiffSymmetric(a: real, b: real)
    ensures DegDiff(a, b) == DegDiff(b, a)
  {
    DegDiffIsLeastTurn(a, b);
    DegDiffIsLeastTurn(b, a);
    var k :| DegDiff(a, b) == Turned(a, b, k);
    var j :| DegDiff(b, a) == Turned(b, a, j);
    assert Turned(b, a, -k) == Turned(a, b, k);
    assert Turned(a, b, -j) == Turned(b, a, j);
  }

  /** Adding full turns to either heading changes nothing. */
  lemma DegDiffIgnoresFullTurns(a: real, b: real, m: int, n: int)
    ensures DegDiff(AddTurns(a, m), AddTurns(b, n)) == DegDiff(a, b)
  {
    var a', b' := AddTurns(a, m), AddTurns(b, n);
    DegDiffIsLeastTurn(a, b);
    DegDiffIsLeastTurn(a', b');
    var k :| DegDiff(a, b) == Turned(a, b, k);
    var j :| DegDiff(a', b') == Turned(a', b', j);
    assert Turned(a', b', k - m + n) == Turned(a, b, k);
    assert Turned(a, b, j + m - n) == Turned(a', b', j);
  }

  /** The same heading, up to whole turns. */
  ghost predicate Congruent(a: real, b: real) {
    exists k :: a == AddTurns(b, k)
  }

  lemma DegDiffZeroIffCongruent(a: real, b: real)
    ensures DegDiff(a, b) == 0.0 <==> Congruent(a, b)
  {
    DegDiffIsLeastTurn(a, b);
    if DegDiff(a, b) == 0.0 {
      var k :| DegDiff(a, b) == Turned(a, b, k);
      assert a == AddTurns(b, -k);
    }
    if Congruent(a, b) {
      var k :| a == AddTurns(b, k);
      assert Turned(a, b, -k) == 0.0;
    }
  }

  lemma DegDiffTriangle(a: real, b: real, c: real)
    ensures DegDiff(a, c) <= DegDiff(a, b) + DegDiff(b, c)
  {
    DegDiffIsLeastTurn(a, b);
    DegDiffIsLeastTurn(b, c);
    DegDiffIsLeastTurn(a, c);
    var j :| DegDiff(a, b) == Turned(a, b, j);
    var k :| DegDiff(b, c) == Turned(b, c, k);
    assert DegDiff(a, c) <= Turned(a, c, j + k);
  }
}
