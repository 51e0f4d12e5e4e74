/**
 * The game session: the level list, the level being played, the working board,
 * the pending pour source and the debounce flag, all updated in place by the
 * player's commands.
 */
module Session {
  import opened Board
  import opened Generator

  datatype Option<T> = None | Some(value: T)

  /** The game creates this many levels when it starts. */
  const InitialLevelCount: nat := 1500

  /** The levels generated from a sequence of draws, in order. */
  function GeneratedLevels(draws: seq<Draws>): (levels: seq<Board>)
    requires forall k | 0 <= k < |draws| :: ValidDraws(UnitCount, draws[k])
    ensures |levels| == |draws|
  {
    if draws == [] then []
    else GeneratedLevels(draws[..|draws| - 1]) + [LevelFrom(draws[|draws| - 1])]
  }

  class Game {
    var levels: seq<Board>
    var currentLevel: nat
    var bottles: Board
    var selectedBottle: Option<nat>
    var isProcessing: bool

    /**
     * The session invariant: the current level exists, every stored level has
     * the shape of a generated level, and the working board has the level's
     * bottle count, keeps every bottle within capacity and holds exactly the
     * level's units.
     */
    ghost predicate Valid()
      reads this
    {
      && currentLevel < |levels|
      && AllLevels(levels)
      && PlayedFrom(bottles, levels[currentLevel])
      && (selectedBottle.Some? ==> selectedBottle.value < |bottles|)
    }

    /**
     * Start-up: generate InitialLevelCount levels, then start level 0 on a
     * copy of its board, as loading does when nothing was saved.
     */
    constructor (draws: seq<Draws>)
      requires InitialLevelCount <= |draws|
      requires forall k | 0 <= k < |draws| :: ValidDraws(UnitCount, draws[k])
      ensures Valid()
      ensures levels == GeneratedLevels(draws[..InitialLevelCount])
      ensures currentLevel == 0 && bottles == levels[0]
      ensures selectedBottle == None && !isProcessing
    {
      levels := [];
      currentLevel := 0;
      bottles := [];
      selectedBottle := None;
      isProcessing := false;
      new;
      EnsureLevels(InitialLevelCount, draws);
      assert levels == GeneratedLevels(draws[..InitialLevelCount]);
      GeneratedAreLevels(draws[..InitialLevelCount]);
      bottles := levels[currentLevel];
      StartLevel(levels, currentLevel);
    }

    /**
     * ensureLevels: append generated levels until there are at least count,
     * consuming one entry of draws per new level; existing levels stay as they are.
     */
    method EnsureLevels(count: nat, draws: seq<Draws>)
      requires count <= |levels| + |draws|
      requires forall k | 0 <= k < |draws| :: ValidDraws(UnitCount, draws[k])
      modifies this`levels
      ensures |levels| == if count <= |old(levels)| then |old(levels)| else count
      ensures levels == old(levels) + GeneratedLevels(draws[..|levels| - |old(levels)|])
      ensures old(Valid()) ==> Valid()
    {
      ghost var before := levels;
      var generated := 0;
      while |levels| < count
        invariant generated <= |draws|
        invariant |levels| == |before| + generated
        invariant generated > 0 ==> |levels| <= count
        invariant levels == before + GeneratedLevels(draws[..generated])
        decreases count - |levels|
      {
        var level := GenerateRandomLevel(draws[generated]);
        GeneratedLevelsSnoc(draws, generated);
        levels := levels + [level];
        generated := generated + 1;
      }
      if old(Valid()) {
        GeneratedAreLevels(draws[..generated]);
        ExtendLevels(before, GeneratedLevels(draws[..generated]), currentLevel);
      }
    }

    /**
     * pourLiquid: move the top unit of bottle fromIndex onto bottle toIndex
     * when the pour is legal; otherwise leave everything as it is.
     */
    method PourLiquid(fromIndex: nat, toIndex: nat)
      requires Valid()
      requires fromIndex < |bottles| && toIndex < |bottles|
      modifies this`bottles
      ensures Valid()
      ensures bottles == Pour(old(bottles), fromIndex, toIndex)
    {
      PourConservesUnits(bottles, fromIndex, toIndex);
      PourPreservesCapacity(bottles, fromIndex, toIndex);
      if fromIndex == toIndex {
        return;
      }
      var fromBottle := bottles[fromIndex];
      var toBottle := bottles[toIndex];
      if |fromBottle| == 0 || |toBottle| == Capacity {
        return;
      }
      var fromColor := fromBottle[|fromBottle| - 1];
      if |toBottle| == 0 || toBottle[|toBottle| - 1] == fromColor {
        bottles := bottles[fromIndex := fromBottle[..|fromBottle| - 1]];
        bottles := bottles[toIndex := toBottle + [fromColor]];
      }
    }

    /**
     * selectBottle: ignored while a pour is settling; otherwise the first
     * click arms a pour source and the second pours onto the clicked bottle,
     * disarms, and starts the settling period.
     */
    method SelectBottle(index: nat)
      requires Valid()
      requires index < |bottles|
      modifies this`bottles, this`selectedBottle, this`isProcessing
      ensures Valid()
      ensures old(isProcessing) ==>
        bottles == old(bottles) && selectedBottle == old(selectedBottle) && isProcessing
      ensures !old(isProcessing) && old(selectedBottle).None? ==>
        bottles == old(bottles) && selectedBottle == Some(index) && !isProcessing
      ensures !old(isProcessing) && old(selectedBottle).Some? ==>
        && bottles == Pour(old(bottles), old(selectedBottle).value, index)
        && selectedBottle == None
        && isProcessing
    {
      if isProcessing {
        return;
      }
      if selectedBottle == None {
        selectedBottle := Some(index);
      } else {
        isProcessing := true;
        PourLiquid(selectedBottle.value, index);
        selectedBottle := None;
      }
    }

    /** The debounce period after a pour has run out: commands are accepted again. */
    method CooldownElapsed()
      requires Valid()
      modifies this`isProcessing
      ensures Valid()
      ensures !isProcessing
    {
      isProcessing := false;
    }

    /**
     * The board query of checkWinCondition, with what a win implies on a
     * level's board: the spares are empty and every colour has a bottle of its own.
     */
    method CheckWinCondition() returns (isSolved: bool)
      requires Valid()
      ensures isSolved == IsSolved(bottles)
      ensures isSolved ==> forall i | FilledCount <= i < |bottles| :: bottles[i] == []
      ensures isSolved ==> forall i, j | 0 <= i < j < FilledCount :: bottles[i][0] != bottles[j][0]
    {
      isSolved := IsSolved(bottles);
      if isSolved {
        ValidColorCounts();
        SolvedLeavesSparesEmpty(bottles);
        SolvedColorsDistinct(bottles);
      }
    }

    /** On a valid session the working board holds every colour exactly Capacity times. */
    lemma ValidColorCounts()
      requires Valid()
      ensures forall c: Color :: multiset(Units(bottles))[c] == Capacity
    {
      assert IsLevel(levels[currentLevel]);
    }

    /** resetLevel: the working board becomes a fresh copy of the current level. */
    method ResetLevel()
      requires currentLevel < |levels|
      requires AllLevels(levels)
      requires selectedBottle.Some? ==> selectedBottle.value < BottleCount
      modifies this`bottles
      ensures Valid()
      ensures bottles == levels[currentLevel]
    {
      bottles := levels[currentLevel];
      StartLevel(levels, currentLevel);
    }

    /**
     * changeLevel: move delta levels on when that stays within the level
     * list, and start the new level afresh; otherwise do nothing.
     */
    method ChangeLevel(delta: int)
      requires Valid()
      modifies this`currentLevel, this`bottles
      ensures Valid()
      ensures var target := old(currentLevel) + delta;
        if 0 <= target < |levels| then
          currentLevel == target && bottles == levels[target]
        else
          currentLevel == old(currentLevel) && bottles == old(bottles)
    {
      var newLevel := currentLevel + delta;
      if newLevel >= 0 && newLevel < |levels| {
        currentLevel := newLevel;
        ResetLevel();
      }
    }

    /** The next-level button: move on one level, but only from a won board. */
    method NextLevel()
      requires Valid()
      modifies this`currentLevel, this`bottles
      ensures Valid()
      ensures if IsSolved(old(bottles)) && old(currentLevel) + 1 < |levels| then
          currentLevel == old(currentLevel) + 1 && bottles == levels[currentLevel]
        else
          currentLevel == old(currentLevel) && bottles == old(bottles)
    {
      var won := CheckWinCondition();
      if won {
        ChangeLevel(1);
      }
    }
  }

  /** Generating from one more entry of draws appends one more level. */
  lemma GeneratedLevelsSnoc(draws: seq<Draws>, n: nat)
    requires n < |draws|
    requires forall k | 0 <= k < |draws| :: ValidDraws(UnitCount, draws[k])
    ensures GeneratedLevels(draws[..n + 1]) == GeneratedLevels(draws[..n]) + [LevelFrom(draws[n])]
  {
    assert draws[..n + 1][..n] == draws[..n];
  }

  /** Every level generated from valid draws is a level. */
  lemma {:induction false} GeneratedAreLevels(draws: seq<Draws>)
    requires forall k | 0 <= k < |draws| :: ValidDraws(UnitCount, draws[k])
    ensures AllLevels(GeneratedLevels(draws))
  {
    if draws != [] {
      var n := |draws| - 1;
      GeneratedAreLevels(draws[..n]);
      LevelFromIsLevel(draws[n]);
      AppendLevel(GeneratedLevels(draws[..n]), LevelFrom(draws[n]));
    }
  }

  /**
   * A working board played from a level: it has the level's bottle count, keeps
   * every bottle within capacity and holds exactly the level's units.
   */
  ghost predicate PlayedFrom(bottles: Board, level: Board)
  {
    && |bottles| == BottleCount
    && WithinCapacity(bottles)
    && multiset(Units(bottles)) == multiset(Units(level))
  }

  /** Every entry of a level list is a level. */
  ghost predicate AllLevels(levels: seq<Board>)
  {
    forall k | 0 <= k < |levels| :: IsLevel(levels[k])
  }

  /** Appending levels keeps every entry a level and leaves the existing entries in place. */
  lemma ExtendLevels(levels: seq<Board>, more: seq<Board>, i: nat)
    requires AllLevels(levels) && AllLevels(more) && i < |levels|
    ensures AllLevels(levels + more)
    ensures (levels + more)[i] == levels[i]
  {
  }

  lemma AppendLevel(levels: seq<Board>, level: Board)
    requires AllLevels(levels) && IsLevel(level)
    ensures AllLevels(levels + [level])
  {
  }

  /** A fresh copy of a stored level is a board played from that level. */
  lemma StartLevel(levels: seq<Board>, i: nat)
    requires AllLevels(levels) && i < |levels|
    ensures PlayedFrom(levels[i], levels[i])
  {
    LevelWithinCapacity(levels[i]);
  }

  /** A generated level keeps every bottle within capacity. */
  lemma LevelWithinCapacity(b: Board)
    requires IsLevel(b)
    ensures WithinCapacity(b)
  {
    forall i | 0 <= i < |b| ensures |b[i]| <= Capacity {
      if i >= FilledCount {
        assert b[i] == [];
      }
    }
  }
}
