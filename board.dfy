/**
 * The board of the water-sort puzzle and the two rules that act on it:
 * pouring one unit from bottle to bottle, and deciding whether a level is won.
 *
 * A bottle is a stack of colour units whose top is its LAST element, exactly as
 * the game keeps it (units are appended with push and removed with pop).
 */
module Board {

  /** The palette holds nine colours (index.js:1). */
  const PaletteSize: nat := 9
  /** A bottle holds at most four units. */
  const Capacity: nat := 4
  /** The first nine bottles are the ones the win check inspects. */
  const FilledCount: nat := 9
  /** Two empty spare bottles follow them. */
  const SpareCount: nat := 2
  const BottleCount: nat := FilledCount + SpareCount

  /** A colour is identified by its position in the palette; only equality matters. */
  type Color = c: nat | c < PaletteSize
  type Bottle = seq<Color>
  type Board = seq<Bottle>

  /** Every bottle is within capacity. */
  predicate WithinCapacity(b: Board)
  {
    forall i | 0 <= i < |b| :: |b[i]| <= Capacity
  }

  /** All units of the board, bottle after bottle, each from bottom to top. */
  function Units(b: Board): seq<Color>
  {
    if b == [] then [] else b[0] + Units(b[1..])
  }

  /** The unit a pour would move: the last element of a non-empty bottle. */
  function Top(bottle: Bottle): Color
    requires |bottle| > 0
  {
    bottle[|bottle| - 1]
  }

  /**
   * The rule pourLiquid applies: a different bottle, a non-empty source, a
   * destination not holding exactly Capacity units, and a destination that is
   * empty or shows the same colour on top.
   */
  predicate CanPour(b: Board, from: nat, to: nat)
    requires from < |b| && to < |b|
  {
    && from != to
    && |b[from]| != 0
    && |b[to]| != Capacity
    && (|b[to]| == 0 || Top(b[to]) == Top(b[from]))
  }

  /** The board after pourLiquid(from, to): one unit moves, or nothing happens. */
  function Pour(b: Board, from: nat, to: nat): (r: Board)
    requires from < |b| && to < |b|
    ensures |r| == |b|
    // each of the four illegal cases is a silent no-op
    ensures from == to ==> r == b
    ensures |b[from]| == 0 ==> r == b
    ensures |b[to]| == Capacity ==> r == b
    ensures |b[to]| > 0 && |b[from]| > 0 && Top(b[to]) != Top(b[from]) ==> r == b
    // a legal pour moves exactly the source's top unit onto the destination
    ensures CanPour(b, from, to) ==>
      && r[from] + [Top(b[from])] == b[from]
      && r[to] == b[to] + [Top(b[from])]
      && forall k | 0 <= k < |b| && k != from && k != to :: r[k] == b[k]
    // and a pour changes the board exactly when it is legal
    ensures r != b <==> CanPour(b, from, to)
  {
    if from == to then b
    else if |b[from]| == 0 || |b[to]| == Capacity then b
    else if |b[to]| == 0 || Top(b[to]) == Top(b[from]) then
      var fromBottle := b[from][..|b[from]| - 1];
      assert |fromBottle| < |b[from]|;
      var r := b[from := fromBottle][to := b[to] + [Top(b[from])]];
      assert r[from] != b[from];
      assert fromBottle + [Top(b[from])] == b[from];
      r
    else b
  }

  /** Replacing one bottle swaps that bottle's units for the new ones in the board's total. */
  lemma {:induction false} UnitsUpdate(b: Board, i: nat, x: Bottle)
    requires i < |b|
    ensures multiset(Units(b[i := x])) + multiset(b[i]) == multiset(Units(b)) + multiset(x)
  {
    var c := b[i := x];
    if i == 0 {
      assert c[1..] == b[1..];
      assert Units(c) == x + Units(b[1..]);
      assert Units(b) == b[0] + Units(b[1..]);
    } else {
      var tail := b[1..];
      var tail' := tail[i - 1 := x];
      assert c[1..] == tail';
      assert tail[i - 1] == b[i];
      UnitsUpdate(tail, i - 1, x);
      assert Units(c) == b[0] + Units(tail');
      assert Units(b) == b[0] + Units(tail);
      assert multiset(Units(c)) == multiset(b[0]) + multiset(Units(tail'));
      assert multiset(Units(b)) == multiset(b[0]) + multiset(Units(tail));
      calc {
        multiset(Units(c)) + multiset(b[i]);
        multiset(b[0]) + (multiset(Units(tail')) + multiset(tail[i - 1]));
        multiset(b[0]) + (multiset(Units(tail)) + multiset(x));
        multiset(Units(b)) + multiset(x);
      }
    }
  }

  /** A pour never creates or destroys a unit: the multiset of all units is preserved. */
  lemma PourConservesUnits(b: Board, from: nat, to: nat)
    requires from < |b| && to < |b|
    ensures multiset(Units(Pour(b, from, to))) == multiset(Units(b))
  {
    if CanPour(b, from, to) {
      var u := Top(b[from]);
      var popped := b[from][..|b[from]| - 1];
      var pushed := b[to] + [u];
      var mid := b[from := popped];
      var r := mid[to := pushed];
      assert r == Pour(b, from, to);
      assert popped + [u] == b[from];
      assert multiset(b[from]) == multiset(popped) + multiset{u};
      assert multiset(pushed) == multiset(b[to]) + multiset{u};
      UnitsUpdate(b, from, popped);
      assert mid[to] == b[to];
      UnitsUpdate(mid, to, pushed);
      MoveOneUnit(multiset(Units(r)), multiset(Units(mid)), multiset(Units(b)),
        multiset(b[from]), multiset(b[to]), multiset(popped), multiset(pushed), u);
    }
  }

  /**
   * The multiset bookkeeping of a pour: removing u from one bottle and adding
   * it to another leaves the board's total unchanged.
   */
  lemma MoveOneUnit(after: multiset<Color>, mid: multiset<Color>, before: multiset<Color>,
                    from: multiset<Color>, to: multiset<Color>,
                    popped: multiset<Color>, pushed: multiset<Color>, u: Color)
    requires after + to == mid + pushed
    requires mid + from == before + popped
    requires from == popped + multiset{u}
    requires pushed == to + multiset{u}
    ensures after == before
  {
    forall c ensures after[c] == before[c] {
      assert (after + to)[c] == (mid + pushed)[c];
      assert (mid + from)[c] == (before + popped)[c];
    }
  }

  /** A pour keeps every bottle within capacity. */
  lemma PourPreservesCapacity(b: Board, from: nat, to: nat)
    requires from < |b| && to < |b|
    requires WithinCapacity(b)
    ensures WithinCapacity(Pour(b, from, to))
  {
    var r := Pour(b, from, to);
    forall k | 0 <= k < |r|
      ensures |r[k]| <= Capacity
    {
      if CanPour(b, from, to) && k == from {
        assert |r[k]| + 1 == |b[k]|;
      }
    }
  }

  /** The colours present in a bottle: `new Set(bottle)`. */
  function DistinctColors(bottle: Bottle): set<Color>
  {
    set c | c in bottle
  }

  /**
   * The win predicate of checkWinCondition: each of the first FilledCount
   * bottles (fewer if the board is shorter, as with `slice(0, 9)`) holds
   * Capacity units of exactly one distinct colour.
   */
  predicate IsSolved(b: Board)
  {
    forall i | 0 <= i < |b| && i < FilledCount ::
      |b[i]| == Capacity && |DistinctColors(b[i])| == 1
  }

  /** A bottle has exactly one distinct colour iff it is non-empty and every unit equals its bottom one. */
  lemma SingleColorIff(bottle: Bottle)
    ensures |DistinctColors(bottle)| == 1 <==>
      |bottle| > 0 && forall k | 0 <= k < |bottle| :: bottle[k] == bottle[0]
  {
    var s := DistinctColors(bottle);
    if |bottle| > 0 && forall k | 0 <= k < |bottle| :: bottle[k] == bottle[0] {
      assert s == {bottle[0]};
    }
    if |s| == 1 {
      var c :| c in s;
      forall d | d in s ensures d == c {
        if d != c {
          assert {c, d} <= s;
          assert |{c, d}| == 2;
          SubsetCardinality({c, d}, s);
        }
      }
      assert bottle[0] in s;
      forall k | 0 <= k < |bottle| ensures bottle[k] == bottle[0] {
        assert bottle[k] in s;
      }
    }
  }

  lemma SubsetCardinality(a: set<Color>, s: set<Color>)
    requires a <= s
    ensures |a| <= |s|
  {
    assert s == a + (s - a);
  }

  /** The win predicate stated without sets: the first bottles are full and uniform. */
  lemma SolvedIff(b: Board)
    ensures IsSolved(b) <==>
      forall i | 0 <= i < |b| && i < FilledCount ::
        |b[i]| == Capacity && forall k | 0 <= k < Capacity :: b[i][k] == b[i][0]
  {
    forall i | 0 <= i < |b| && i < FilledCount {
      SingleColorIff(b[i]);
    }
  }

  /** The spare bottles never affect the win predicate, whatever they hold. */
  lemma SparesIrrelevant(b: Board, i: nat, x: Bottle)
    requires FilledCount <= i < |b|
    ensures IsSolved(b[i := x]) == IsSolved(b)
  {
    assert forall k | 0 <= k < FilledCount && k < |b| :: b[i := x][k] == b[k];
  }

  /** Only the first FilledCount bottles are inspected. */
  lemma SolvedOnlyInspectsFilled(b: Board, extra: Board)
    requires |b| == FilledCount
    ensures IsSolved(b + extra) == IsSolved(b)
  {
    assert forall i | 0 <= i < |b| :: (b + extra)[i] == b[i];
  }
}
