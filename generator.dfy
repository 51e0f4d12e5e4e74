/**
 * Level generation: nine colours times four units, shuffled in place by
 * Fisher-Yates, dealt into nine bottles of four, followed by two empty spares.
 *
 * The random index the shuffle draws at each step is a parameter: `js[i]` is the
 * `j` chosen when the loop is at position `i`, and it lies in `[0, i]`, the range
 * of `Math.floor(Math.random() * (i + 1))`.
 */
module Generator {
  import opened Board

  /** The random indices one shuffle consumes, one per position. */
  type Draws = seq<nat>

  /** The number of units on a fresh board: every colour Capacity times. */
  const UnitCount: nat := PaletteSize * Capacity

  /** Draws fit a shuffle of n elements when each js[i] lies in [0, i]. */
  predicate ValidDraws(n: nat, js: Draws)
  {
    |js| == n && forall i | 0 <= i < n :: js[i] <= i
  }

  /** The exchange `[array[i], array[j]] = [array[j], array[i]]`. */
  function Swap<T>(s: seq<T>, i: nat, j: nat): (r: seq<T>)
    requires i < |s| && j < |s|
    ensures |r| == |s|
  {
    s[i := s[j]][j := s[i]]
  }

  /** An exchange only reorders: it keeps every element with its multiplicity. */
  lemma SwapPermutes<T>(s: seq<T>, i: nat, j: nat)
    requires i < |s| && j < |s|
    ensures multiset(Swap(s, i, j)) == multiset(s)
  {
  }

  /** The effect of the loop steps i, i - 1, ..., 1 of the shuffle. */
  function ShuffleFrom<T>(s: seq<T>, js: Draws, i: int): (r: seq<T>)
    requires ValidDraws(|s|, js) && i < |s|
    ensures |r| == |s|
    decreases i
  {
    if i <= 0 then s else ShuffleFrom(Swap(s, i, js[i]), js, i - 1)
  }

  /** Each step is an exchange, so the loop steps from i down produce a permutation of s. */
  lemma {:induction false} ShuffleFromPermutes<T>(s: seq<T>, js: Draws, i: int)
    requires ValidDraws(|s|, js) && i < |s|
    ensures multiset(ShuffleFrom(s, js, i)) == multiset(s)
    decreases i
  {
    if i > 0 {
      SwapPermutes(s, i, js[i]);
      ShuffleFromPermutes(Swap(s, i, js[i]), js, i - 1);
    }
  }

  /** The whole shuffle: the loop starts at the last index. */
  function Shuffled<T>(s: seq<T>, js: Draws): seq<T>
    requires ValidDraws(|s|, js)
  {
    ShuffleFrom(s, js, |s| - 1)
  }

  /** shuffleArray: the in-place Fisher-Yates shuffle, driven by the draws js. */
  method ShuffleArray<T>(a: array<T>, js: Draws)
    requires ValidDraws(a.Length, js)
    modifies a
    ensures a[..] == Shuffled(old(a[..]), js)
    ensures multiset(a[..]) == multiset(old(a[..]))
  {
    var i := a.Length - 1;
    assert ShuffleFrom(a[..], js, i) == Shuffled(old(a[..]), js);
    while i > 0
      invariant -1 <= i < a.Length
      invariant ShuffleFrom(a[..], js, i) == Shuffled(old(a[..]), js)
    {
      var j := js[i];
      ghost var before := a[..];
      assert ShuffleFrom(before, js, i) == ShuffleFrom(Swap(before, i, j), js, i - 1);
      var t := a[i];
      a[i] := a[j];
      a[j] := t;
      assert a[..] == Swap(before, i, j);
      assert ShuffleFrom(a[..], js, i - 1) == Shuffled(old(a[..]), js);
      i := i - 1;
    }
    ShuffleFromPermutes(old(a[..]), js, a.Length - 1);
  }

  /**
   * The first n palette colours, each filled Capacity times, in palette order:
   * unit k has colour k / Capacity.
   */
  function Blocks(n: nat): (r: seq<Color>)
    requires n <= PaletteSize
    ensures |r| == n * Capacity
  {
    seq(n * Capacity, k requires 0 <= k < n * Capacity => k / Capacity)
  }

  /** Each of the first n colours appears Capacity times in Blocks(n), the others not at all. */
  lemma {:induction false} BlocksCounts(n: nat)
    requires n <= PaletteSize
    ensures forall d: Color :: multiset(Blocks(n))[d] == if d < n then Capacity else 0
  {
    if n > 0 {
      BlocksCounts(n - 1);
      var c: Color := n - 1;
      assert Blocks(n) == Blocks(n - 1) + [c, c, c, c] by {
        forall k | (n - 1) * Capacity <= k < n * Capacity
          ensures Blocks(n)[k] == c
        {
        }
      }
    }
  }

  /**
   * allColors: `colors.flatMap(color => Array(4).fill(color))`, the whole palette
   * with each colour filled Capacity times.
   */
  function AllColors(): (r: seq<Color>)
    ensures |r| == UnitCount
  {
    Blocks(PaletteSize)
  }

  /** The pool of a fresh level holds UnitCount units, every colour exactly Capacity times. */
  lemma AllColorsCounts()
    ensures forall d: Color :: multiset(AllColors())[d] == Capacity
  {
    BlocksCounts(PaletteSize);
  }

  /** `Array.from({ length: m }, (_, i) => s.slice(i * 4, (i + 1) * 4))`. */
  function Chunks(s: seq<Color>, m: nat): (r: Board)
    requires |s| == m * Capacity
    ensures |r| == m
    ensures forall i | 0 <= i < m :: |r[i]| == Capacity
  {
    seq(m, i requires 0 <= i < m => s[i * Capacity..(i + 1) * Capacity])
  }

  /** Dealing into bottles loses and reorders nothing: the bottles read back the dealt sequence. */
  lemma {:induction false} ChunksUnits(s: seq<Color>, m: nat)
    requires |s| == m * Capacity
    ensures Units(Chunks(s, m)) == s
  {
    if m == 0 {
      assert Chunks(s, m) == [];
    } else {
      var c := Chunks(s, m);
      var rest := s[Capacity..];
      assert c[0] == s[..Capacity];
      assert c[1..] == Chunks(rest, m - 1) by {
        forall i | 0 <= i < m - 1 ensures c[1..][i] == Chunks(rest, m - 1)[i] {
          assert c[1..][i] == s[(i + 1) * Capacity..(i + 2) * Capacity];
          assert rest[i * Capacity..(i + 1) * Capacity] == s[(i + 1) * Capacity..(i + 2) * Capacity];
        }
      }
      ChunksUnits(rest, m - 1);
      assert s == s[..Capacity] + rest;
    }
  }

  /** Units of two boards side by side. */
  lemma {:induction false} UnitsAppend(a: Board, b: Board)
    ensures Units(a + b) == Units(a) + Units(b)
  {
    if a == [] {
      assert a + b == b;
    } else {
      assert (a + b)[0] == a[0];
      assert (a + b)[1..] == a[1..] + b;
      UnitsAppend(a[1..], b);
    }
  }

  /**
   * What a freshly generated level looks like: BottleCount bottles, the first
   * FilledCount full, the spares empty, and every colour exactly Capacity times.
   */
  ghost predicate IsLevel(b: Board)
  {
    && |b| == BottleCount
    && (forall i | 0 <= i < FilledCount :: |b[i]| == Capacity)
    && (forall i | FilledCount <= i < BottleCount :: b[i] == [])
    && (forall c: Color :: multiset(Units(b))[c] == Capacity)
  }

  /** Dealing into nine bottles and adding two empty ones keeps every unit, in order. */
  lemma DealUnits(shuffled: seq<Color>)
    requires |shuffled| == FilledCount * Capacity
    ensures Units(Chunks(shuffled, FilledCount) + [[], []]) == shuffled
  {
    var filled := Chunks(shuffled, FilledCount);
    var spares: Board := [[], []];
    ChunksUnits(shuffled, FilledCount);
    UnitsAppend(filled, spares);
    assert Units(spares) == [] by {
      assert spares[1..][1..] == [];
    }
  }

  /** Dealing a permutation of allColors into bottles and adding the spares yields a level. */
  lemma DealIsLevel(shuffled: seq<Color>)
    requires |shuffled| == FilledCount * Capacity
    requires forall c: Color :: multiset(shuffled)[c] == Capacity
    ensures IsLevel(Chunks(shuffled, FilledCount) + [[], []])
  {
    DealUnits(shuffled);
  }

  /** Whatever the draws, the shuffled pool still holds every colour Capacity times. */
  lemma ShuffledColorCounts(js: Draws)
    requires ValidDraws(UnitCount, js)
    ensures |Shuffled<Color>(AllColors(), js)| == FilledCount * Capacity
    ensures forall c: Color :: multiset(Shuffled<Color>(AllColors(), js))[c] == Capacity
  {
    var pool := AllColors();
    AllColorsCounts();
    var shuffled := Shuffled<Color>(pool, js);
    ShuffleFromPermutes(pool, js, |pool| - 1);
    assert |shuffled| == UnitCount;
  }

  /** A multiset holding every colour Capacity times has UnitCount elements. */
  lemma ColorCountsSize(m: multiset<Color>)
    requires forall c: Color :: m[c] == Capacity
    ensures |m| == UnitCount
  {
    AllColorsCounts();
    assert m == multiset(AllColors());
  }

  /** The level generateRandomLevel builds from the draws js of its shuffle. */
  function LevelFrom(js: Draws): Board
    requires ValidDraws(UnitCount, js)
  {
    var shuffled := Shuffled<Color>(AllColors(), js);
    assert |shuffled| == FilledCount * Capacity;
    Chunks(shuffled, FilledCount) + [[], []]
  }

  /**
   * Every generated level has BottleCount bottles, the first FilledCount full,
   * the spares empty, and each colour exactly Capacity times; read bottle after
   * bottle, its units are the shuffled pool.
   */
  lemma LevelFromIsLevel(js: Draws)
    requires ValidDraws(UnitCount, js)
    ensures IsLevel(LevelFrom(js))
    ensures Units(LevelFrom(js)) == Shuffled<Color>(AllColors(), js)
  {
    var shuffled := Shuffled<Color>(AllColors(), js);
    ShuffledColorCounts(js);
    DealUnits(shuffled);
    DealIsLevel(shuffled);
  }

  /** generateRandomLevel: shuffles a copy of allColors in an array and deals it out. */
  method GenerateRandomLevel(js: Draws) returns (level: Board)
    requires ValidDraws(UnitCount, js)
    ensures level == LevelFrom(js)
  {
    var allColors := AllColors();
    var a := new Color[|allColors|](i requires 0 <= i < |allColors| => allColors[i]);
    assert a[..] == allColors;
    ShuffleArray(a, js);
    ShuffledColorCounts(js);
    var shuffled := a[..];
    assert shuffled == Shuffled<Color>(allColors, js);
    var bottles := Chunks(shuffled, FilledCount);
    level := bottles + [[], []];
  }

  /**
   * On a board holding every colour exactly Capacity times, a win leaves the
   * spare bottles empty: the filled bottles already hold every unit.
   */
  lemma SolvedLeavesSparesEmpty(b: Board)
    requires |b| == BottleCount
    requires forall c: Color :: multiset(Units(b))[c] == Capacity
    requires IsSolved(b)
    ensures forall i | FilledCount <= i < |b| :: b[i] == []
  {
    ColorCountsSize(multiset(Units(b)));
    var filled, spares := b[..FilledCount], b[FilledCount..];
    assert b == filled + spares;
    UnitsAppend(filled, spares);
    FullUnitsLength(filled);
    assert |Units(spares)| == 0;
    assert spares == [b[FilledCount], b[FilledCount + 1]];
    assert Units(spares) == b[FilledCount] + Units(spares[1..]);
    assert Units(spares[1..]) == b[FilledCount + 1] + Units(spares[2..]);
  }

  /**
   * On a board holding every colour exactly Capacity times, a win sorts each
   * colour into a bottle of its own: no two filled bottles share a colour.
   */
  lemma SolvedColorsDistinct(b: Board)
    requires |b| == BottleCount
    requires forall c: Color :: multiset(Units(b))[c] == Capacity
    requires IsSolved(b)
    ensures forall i, j | 0 <= i < j < FilledCount :: b[i][0] != b[j][0]
  {
    forall i, j | 0 <= i < j < FilledCount
      ensures b[i][0] != b[j][0]
    {
      if b[i][0] == b[j][0] {
        var c := b[i][0];
        SingleColorIff(b[i]);
        SingleColorIff(b[j]);
        assert b[i] == [c, c, c, c];
        assert b[j] == [c, c, c, c];
        ColorInTwoBottles(b, i, j, c);
        assert false;
      }
    }
  }

  /** A colour filling two bottles appears at least twice Capacity times on the board. */
  lemma ColorInTwoBottles(b: Board, i: nat, j: nat, c: Color)
    requires i < j < |b|
    requires b[i] == [c, c, c, c] && b[j] == [c, c, c, c]
    ensures multiset(Units(b))[c] >= 2 * Capacity
  {
    UnitsIncludesTwo(b, i, j);
    assert (multiset(b[i]) + multiset(b[j]))[c] == 2 * Capacity;
  }

  /** The units of two different bottles are all among the board's units. */
  lemma {:induction false} UnitsIncludesTwo(b: Board, i: nat, j: nat)
    requires i < j < |b|
    ensures multiset(b[i]) + multiset(b[j]) <= multiset(Units(b))
  {
    assert b[j] == b[1..][j - 1];
    if i == 0 {
      UnitsIncludes(b[1..], j - 1);
    } else {
      assert b[i] == b[1..][i - 1];
      UnitsIncludesTwo(b[1..], i - 1, j - 1);
    }
  }

  /** The units of one bottle are all among the board's units. */
  lemma {:induction false} UnitsIncludes(b: Board, i: nat)
    requires i < |b|
    ensures multiset(b[i]) <= multiset(Units(b))
  {
    if i > 0 {
      assert b[i] == b[1..][i - 1];
      UnitsIncludes(b[1..], i - 1);
    }
  }

  /** Bottles of exactly Capacity units hold Capacity units each in total. */
  lemma {:induction false} FullUnitsLength(b: Board)
    requires forall i | 0 <= i < |b| :: |b[i]| == Capacity
    ensures |Units(b)| == |b| * Capacity
  {
    if b != [] {
      FullUnitsLength(b[1..]);
    }
  }
}
