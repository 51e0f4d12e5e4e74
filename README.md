# Water-sort puzzle engine, modelled in Dafny

This project models the engine of a browser water-sort puzzle, which lives in `index.js`.

**Board.** A board is a list of bottles. Each bottle is a stack of colour units, and its top is the last element. There are nine colours, and a bottle holds at most four units.

**Levels.** The game generates each level the same way:
- fill every colour four times;
- shuffle the 36 units in place with Fisher–Yates;
- deal them into nine bottles of four;
- add two empty spare bottles.

**Playing.** The player selects a source bottle and then a destination. The engine pours one unit when the move is legal and does nothing otherwise. After each pour attempt, legal or not, a short cooldown rejects further clicks. A level is won when each of the first nine bottles holds four units of a single colour.

The model has three modules:

- `Board` (`board.dfy`) holds the board types, the pour rule `Pour` and the win predicate `IsSolved`. It also proves the lemmas about them: units are conserved, capacity is kept, illegal pours are no-ops, and the win predicate can be restated without sets and ignores the spare bottles.
- `Generator` (`generator.dfy`) holds generation.
  - `ShuffleArray` is the in-place shuffle on an `array`. The random index it draws at each step is a parameter. It is proved equal to the functional specification `Shuffled`, and that specification is proved to be a permutation.
  - `AllColors` is the colour pool of `flatMap`, and `Chunks` is the dealing of `Array.from`.
  - `GenerateRandomLevel` is proved to produce `LevelFrom(js)`. Every such level is proved to satisfy `IsLevel`: eleven bottles, the first nine full, the spares empty, and each colour exactly four times.
  - The module also proves what a win means on such a board: the spares are empty and no two filled bottles share a colour.
- `Session` (`session.dfy`) holds the class `Game`, whose fields are the game's global variables: `levels`, `currentLevel`, `bottles`, `selectedBottle` and `isProcessing`.
  - Every command is a method with a `modifies` frame on the fields it changes.
  - Every command preserves the session invariant `Valid()`: the current level exists, and every stored level has the shape of a generated level (eleven bottles, the first nine full, the spares empty, each colour four times). That each stored level is exactly `LevelFrom` of its draws is stated by the constructor and `EnsureLevels`. The working board has eleven bottles, keeps each within capacity, and holds exactly the units of its level.

Randomness is a parameter. A shuffle of `n` elements consumes draws `js` with `|js| == n` and `js[i] <= i`. Here `js[i]` is the `j` that `Math.floor(Math.random() * (i + 1))` picks when the loop is at position `i`, and `js[0]` is never used. `EnsureLevels` and the constructor take one such sequence per level to generate.

Colours are the indices `0..8` into the palette `colors` (index.js:1). Only their equality matters to the engine.

## Model

| member | source | states |
|---|---|---|
| Board.Pour | index.js:76-92 | Same source and destination, an empty source, a destination holding exactly 4 units, or a non-empty destination whose top colour differs from the source's each leave the board unchanged. A legal pour removes the source's top unit and appends that same unit to the destination; every other bottle is unchanged. The board changes if and only if the pour is legal. |
| Board.PourConservesUnits | index.js:88 | A pour preserves the multiset of all units on the board. |
| Board.PourPreservesCapacity | index.js:82-88 | If every bottle holds at most 4 units before a pour, the same holds after it. |
| Board.CanPour | index.js:77-87 | Definition of the legality guard: different bottles, a non-empty source, a destination not holding exactly 4 units, and a destination that is empty or shows the source's top colour. |
| Board.DistinctColors | index.js:95 | Definition of `new Set(bottle)`: the set of colours occurring in the bottle. |
| Board.IsSolved | index.js:95 | Definition of the win predicate: each of the first `min(9, board length)` bottles has 4 units and exactly one distinct colour. Its set-free form is `Board.SolvedIff`. |
| Board.SingleColorIff | index.js:95 | `new Set(bottle).size === 1` holds exactly when the bottle is non-empty and every unit equals its bottom unit. |
| Board.SolvedIff | index.js:95 | The win predicate holds if and only if each of the first nine bottles (fewer on a shorter board, as `slice(0, 9)` gives) has 4 units, all of one colour. |
| Board.SparesIrrelevant | index.js:95 | Replacing a bottle at index 9 or above, with any contents, never changes the win predicate. |
| Board.SolvedOnlyInspectsFilled | index.js:95 | Appending any bottles after the first nine leaves the win predicate unchanged. |
| Generator.Swap | index.js:6 | The exchange of positions `i` and `j` keeps the length. |
| Generator.SwapPermutes | index.js:6 | The exchange keeps every element with its multiplicity. |
| Generator.ShuffleFrom | index.js:4-7 | The loop steps from position `i` down to 1 keep the length. |
| Generator.Shuffled | index.js:4-7 | Definition of the whole loop: the steps from the last index down to 1, in that order. `Generator.ShuffleFromPermutes` proves it is a permutation, and `Generator.ShuffleArray` proves the in-place loop computes it. |
| Generator.ShuffleFromPermutes | index.js:3-9 | Whatever the draws, the shuffle is a permutation of its input (the multiset is preserved). |
| Generator.ShuffleArray | index.js:3-9 | The in-place loop leaves the array equal to `Shuffled` of its old contents, and hence a permutation of them. |
| Generator.Blocks | index.js:12 | The first `n` colours, each filled 4 times, make `4 * n` units. |
| Generator.BlocksCounts | index.js:12 | In that sequence each of the first `n` colours occurs 4 times and no other colour occurs. |
| Generator.AllColors | index.js:12 | `allColors` has 36 units. |
| Generator.AllColorsCounts | index.js:12 | Every colour occurs exactly 4 times in `allColors`. |
| Generator.ShuffledColorCounts | index.js:12-13 | The shuffled copy of `allColors` has 36 units, every colour exactly 4 times. |
| Generator.Chunks | index.js:14 | Cutting `4 * m` units gives `m` bottles of 4. |
| Generator.ChunksUnits | index.js:14 | Cutting loses and reorders nothing: the bottles' units, read bottle after bottle, are the original sequence. |
| Generator.UnitsAppend | index.js:15 | The units of two boards side by side are the first board's units followed by the second's. |
| Generator.DealUnits | index.js:14-15 | Dealing 36 units into nine bottles and adding two empty spares keeps every unit, in order. |
| Generator.DealIsLevel | index.js:14-15 | Dealing any 36 units with 4 of each colour, plus the two spares, gives a level: 11 bottles, the first nine full, the spares empty, 4 units of each colour. |
| Generator.LevelFrom | index.js:12-16 | Definition of the value `generateRandomLevel` returns for the draws `js`: the shuffled pool cut into nine bottles of four, followed by two empty spares. Its properties are `Generator.LevelFromIsLevel`. |
| Generator.LevelFromIsLevel | index.js:11-17 | Every generated level is a level in that sense, and its units are the shuffled pool. |
| Generator.GenerateRandomLevel | index.js:11-17 | Shuffling a copy of `allColors` in an array and dealing it out yields exactly `LevelFrom(js)`. |
| Generator.SolvedLeavesSparesEmpty | index.js:95 | On a board with 4 units of every colour, a win leaves both spare bottles empty. |
| Generator.SolvedColorsDistinct | index.js:95 | On a board with 4 units of every colour, a win gives each colour its own bottle: no two of the first nine bottles share a colour. |
| Session.GeneratedLevels | index.js:22-24 | The levels generated from `k` entries of draws are `k` levels, in order. |
| Session.GeneratedLevelsSnoc | index.js:23 | One more entry of draws appends exactly one more generated level. |
| Session.GeneratedAreLevels | index.js:21-25 | Every level generated from valid draws is a level. |
| Session.LevelWithinCapacity | index.js:14-15 | A generated level keeps every bottle within capacity. |
| Session.StartLevel | index.js:107 | A fresh copy of a stored level holds that level's units and keeps every bottle within capacity. |
| Session.Game.constructor | index.js:150-151 | Start-up generates levels from the first 1500 entries of draws and starts level 0 on a copy of its board, with no selection and no cooldown. The session invariant holds. |
| Session.Game.EnsureLevels | index.js:21-25 | Afterwards there are `max(old length, count)` levels. The old levels are unchanged, followed by the levels generated from the draws consumed, one per new level. The session invariant is preserved. |
| Session.Game.PourLiquid | index.js:76-92 | The working board becomes `Pour(old board, from, to)`, and the session invariant is preserved. |
| Session.Game.SelectBottle | index.js:63-74 | During the cooldown nothing changes. With no selection, it records the index and leaves the board alone. With a selection, it pours from the selected bottle onto `index`, clears the selection and starts the cooldown. The invariant is preserved. |
| Session.Game.CooldownElapsed | index.js:72 | When the debounce timer fires, commands are accepted again; the invariant is preserved. |
| Session.Game.CheckWinCondition | index.js:94-104 | Returns the win predicate of the working board. A win on a session board implies the spares are empty and the nine colours sit in nine different bottles. |
| Session.Game.ValidColorCounts | index.js:12-15 | In a valid session, the working board holds every colour exactly 4 times. |
| Session.Game.ResetLevel | index.js:106-109 | The working board becomes the stored current level, whatever it held before, so a second reset changes nothing. The invariant is restored. |
| Session.Game.ChangeLevel | index.js:111-118 | When `currentLevel + delta` lies in `[0, levels.length)`, it moves there and resets the board to that level. Otherwise neither the level nor the board changes. |
| Session.Game.NextLevel | index.js:143-147 | The next-level button moves one level on only when the board is won and a next level exists; otherwise nothing changes. |

## Left out

- Rendering (`render`, `createBottle`, index.js:33-58) and the event-listener wiring (index.js:141-142). These are DOM work; the two handlers that only forward to `resetLevel` and `changeLevel(-1)` add nothing to the model.
- The sounds, the `alert` and the enabling of the next-level button (index.js:30-31, 67, 97-102). These are browser side effects. `CheckWinCondition` returns only the predicate.
- `saveGameState` and `loadGameState` (index.js:120-139). These are `localStorage` and JSON persistence. The constructor models only the `loadGameState` branch taken when nothing is saved: level 0 on a fresh copy of its board (index.js:135-137).
- The `render()` and `checkWinCondition()` calls at the end of a legal pour (index.js:89-90). Their only effects are display, sound and saving.
- The 500 ms `setTimeout` (index.js:72). Time and asynchrony are not modelled; the timer's callback is the explicit method `CooldownElapsed`.
- `Math.random` (index.js:5). It is replaced by the draws parameter. The model says nothing about how uniform the shuffle is.
- Out-of-range bottle indices. JavaScript would fail on `undefined.length`, so `PourLiquid` and `SelectBottle` require indices within the board instead of modelling the crash.
- Aliasing. In JavaScript, `pop` and `push` mutate the bottle arrays in place and `structuredClone` copies them. The model's bottles are values, so `resetLevel`'s deep copy is plain assignment, and no stored level can be changed by a pour.
- Clearing the pending selection on reset or level change: `resetLevel` and `changeLevel` (index.js:106-118) never touch `selectedBottle`, so a pending selection survives a reset or a level change, and the model keeps it.
- `Session.Game.EnsureLevels`: it consumes one entry of draws per generated level, and its precondition requires enough draws for `count` levels. This precondition stands in for the unbounded supply of `Math.random`.
