# Grid Grin core, modelled in Dafny

Grid Grin is a block-placement puzzle on a 9 by 9 board. The player drags
pieces from a supply of three catalog shapes onto the board. Every full row
and every full column is emptied. Cleared lines score points, boosted by a
streak of consecutive clearing moves. The game ends when the end-of-game
scan finds no place for any piece on offer. A game over puts the score on a
three-entry leaderboard. The player can pay 500 points to continue with a
fresh supply, which brings in a rescue DOT when nothing drawn would fit. A
separate advertising store decides when interstitial, rewarded and banner
ads may be shown.

The model has one module per concern:

- `Constants` (`constants.dfy`): the board size, the 25-shape catalog in
  declaration order, the shape colour table, the five-colour supply palette
  and the scoring constants.
- `Grid` (`grid.dfy`): boards as `seq<seq<Option<string>>>` and the
  placement rule. `PlacementFits` is the `canPlacePiece` loop, proved
  against the `CanPlace` predicate.
- `GameLogic` (`game_logic.dfy`): `processMove` as a method with its loops
  (placing the piece, scanning rows, scanning columns). It is proved against
  the specification functions `Placed`, `FullRows`, `FullCols` and
  `Cleared`, with a counting proof of the `totalCellsCleared` formula.
- `Scoring` (`scoring.dfy`): line points, the streak and its bonus, and the
  milestone a move crosses.
- `Leaderboard` (`leaderboard.dfy`): what a game over does to the
  leaderboard (remove one copy of the previously saved score, push, sort
  descending, keep three). Also the session's best score.
- `Pieces` (`pieces.dfy`): pieces and random draws, the fit scan of a
  refresh (`doesPieceFit`), the rescue rule, and the end-of-game scan as
  written.
- `GameStore` (`game_store.dfy`): the store as a class whose methods update
  its fields, with `Valid()` as the invariant every action keeps: a 9 by 9
  board with no full row or column, a three-entry descending leaderboard
  headed by the best score, and at most three well-formed pieces on offer.
- `Ads` (`ad_store.dfy`): the advertising store as a class. The current
  time is a parameter.
- `Wrappers` (`wrappers.dfy`): `Option`.

Behaviour of the code that the model keeps as it is:

- A new store starts with an empty supply (src/store/useGameStore.ts:54).
  Used on its own, the store's first removal finds the filtered supply empty
  and draws three pieces. The game screen, though, calls `refreshPieces` on
  mount whenever the supply is empty and the game is running
  (app/game.tsx:84-88), so in the app a first removal normally finds three
  pieces. The screen is not part of this model.
- A refresh draws each shape uniformly from the whole catalog and each
  colour from a five-colour palette (src/store/useGameStore.ts:209,
  238-242). The per-shape colour table is not used for pieces.
- A drop does not check that the piece identifier is on offer
  (src/store/useGameStore.ts:290-298). With an unknown identifier the
  filter keeps every piece, so the supply stays as it was unless it was
  empty, in which case three pieces are drawn. The move is played either
  way.
- A move that clears no line is tagged SINGLE (src/utils/gameLogic.ts:93).
- The end-of-game scan tries anchor columns `0 <= c < 9 - width`
  (src/store/useGameStore.ts:307). The fit scan of a refresh tries
  `0 <= c <= 9 - width` (src/store/useGameStore.ts:218). So the end-of-game
  check never looks at a piece flush with the right border.
  - `Pieces.GameOverScanMissesOnlyLastColumn` proves that this column is
    exactly what it misses.
  - `Pieces.GameOverScanSkipsLastColumn` gives a board with no full row or
    column, as a move can leave behind. There the vertical two-cell line
    fits only at the top of the last column, and the scan reports no move.
  - A DOT is never missed: the board a move leaves has no full column, so
    the DOT is found in column 0 (`GameStore.DotSupplyNeverEndsAfterMove`,
    and from the store invariant `GameStore.ValidStoreWithDotKeepsPlaying`).
    The rescue DOT of a continued game therefore keeps the game going.

  The model keeps the code's bound (`CheckGameOver` uses
  `GameOverScanCanMove`). `Pieces.FitsSomewhereIffPlaceable` proves that
  the refresh scan, by contrast, is complete for every catalog shape.

## Model

| member | source | states |
|---|---|---|
| Constants.CatalogKeys | src/utils/constants.ts:6-85 | the catalog order lists 25 keys, pairwise distinct, and every shape key occurs in it |
| Constants.CatalogWellFormed | src/utils/constants.ts:6-85 | every catalog shape is a non-empty rectangular 0/1 matrix of at most 5 by 5 with at least one filled cell, so it is smaller than the board |
| Constants.LinesAreTransposes | src/utils/constants.ts:17-24 | each horizontal line shape is the transpose of the vertical one of the same length, in both directions |
| Constants.DotIsTheOnlySingleCell | src/utils/constants.ts:6-85 | a catalog shape has exactly one filled cell if and only if it is the DOT |
| Grid.EmptyBoard | src/store/useGameStore.ts:47-49 | the board of a new game is 9 by 9 with every cell empty |
| Grid.PlacementFits | src/store/useGameStore.ts:268-288 | the placement check returns true exactly when every filled piece cell lands on the board on an empty cell |
| Grid.EveryShapeFitsEmptyBoard | src/store/useGameStore.ts:268-288 | every catalog shape passes the placement check at the top-left corner of an empty board |
| Grid.DotFitsExactlyAtEmptyCells | src/store/useGameStore.ts:249-253 | the DOT passes the placement check at a cell if and only if that cell is empty |
| GameLogic.PlacedCells | src/utils/gameLogic.ts:23-33 | placement writes the colour at every filled piece cell and leaves every other cell as it was |
| GameLogic.PlacementKeepsOccupiedCells | src/utils/gameLogic.ts:26-33 | a placement that passes the placement check never overwrites an occupied cell |
| GameLogic.FullRowsBelowSpec | src/utils/gameLogic.ts:38-41 | the row scan is strictly ascending and holds exactly the full rows |
| GameLogic.FullColsBelowSpec | src/utils/gameLogic.ts:43-53 | the column scan is strictly ascending and holds exactly the full columns |
| GameLogic.ClearedHasNoFullLine | src/utils/gameLogic.ts:55-60 | after the clear no row and no column is full |
| GameLogic.NulledInRowOfCleared | src/utils/gameLogic.ts:55-60 | in one row the clear empties the whole row if it is full, else one cell per full column |
| GameLogic.NulledBelowOfCleared | src/utils/gameLogic.ts:55-60 | over the first n rows the clear empties 9 cells per full row plus one per full column in each other row |
| GameLogic.TotalCellsClearedFormula | src/utils/gameLogic.ts:88-91 | the number of cells the clear actually empties is 9 times the rows plus 9 times the columns minus rows times columns |
| GameLogic.ComboOf | src/utils/gameLogic.ts:92-99 | at most one line is SINGLE, two DOUBLE, three TRIPLE, four or more MEGA, and QUAD is never produced |
| GameLogic.PlacePiece | src/utils/gameLogic.ts:23-33 | the placement loop produces the placed board |
| GameLogic.ScanRows | src/utils/gameLogic.ts:38-41 | the row loop returns the full rows in ascending order |
| GameLogic.ScanCols | src/utils/gameLogic.ts:43-53 | the column loop with its early exit returns the full columns in ascending order |
| GameLogic.ProcessMove | src/utils/gameLogic.ts:14-100 | the move result holds the placed board, its full rows and columns (ascending, membership iff full), the board with those lines emptied, the count of emptied cells, the cross flag (both lists non-empty) and the combo tag |
| Scoring.LinePoints | src/store/useGameStore.ts:134-143 | no line pays 0, one line 100, n lines (n at least 2) pay 125 per line |
| Scoring.ScoreMove | src/store/useGameStore.ts:129-157 | a move scores if and only if it clears a line; the streak resets exactly on a move that clears nothing and otherwise grows by one; the bonus only adds and is absent below streak 2 |
| Scoring.StreakBonusMonotone | src/store/useGameStore.ts:149-153 | the streak bonus grows with the base points and with the streak |
| Scoring.LongerStreakNeverPaysLess | src/store/useGameStore.ts:134-153 | the same clear never pays less on a longer streak |
| Scoring.MoreLinesPayMore | src/store/useGameStore.ts:134-153 | at the same streak, clearing more lines always pays strictly more |
| Scoring.MultiLineBeatsSingles | src/store/useGameStore.ts:136-143 | an n-line clear (n at least 2) pays 125 per line, more than n single clears |
| Scoring.TwoSingleClearsInARow | src/store/useGameStore.ts:134-153 | two single-line clears from streak 0 pay 100 and then 130 |
| Scoring.MilestoneFor | src/store/useGameStore.ts:167-178 | Sweet if and only if the third entry is crossed; Good if and only if the second is crossed and not the third; Perfect likewise for the first; none if and only if nothing is crossed; a zero entry never counts |
| Scoring.NoMilestoneWithoutGain | src/store/useGameStore.ts:173-178 | a move that does not raise the score fires no milestone |
| Scoring.JumpPastAllReportsSweet | src/store/useGameStore.ts:173-178 | jumping past all three entries of a descending leaderboard reports only Sweet |
| Scoring.EachMilestoneFiresAtMostOnce | src/store/useGameStore.ts:170-178 | along a non-decreasing score history each milestone kind fires on at most one move |
| Leaderboard.InsertDesc | src/store/useGameStore.ts:340 | inserting into a descending list gives a descending list with one more element, the same elements plus the new one, headed by the larger of the two heads |
| Leaderboard.SortDesc | src/store/useGameStore.ts:340 | the descending sort is descending and a permutation of its input |
| Leaderboard.FirstIndex | src/store/useGameStore.ts:325 | the index is that of the first occurrence, or the length when there is none |
| Leaderboard.RemoveFirst | src/store/useGameStore.ts:325-328 | removal drops exactly one copy of a present entry and leaves the list alone when it is absent |
| Leaderboard.Top | src/store/useGameStore.ts:341 | keeps the first three entries, or all of them when there are fewer |
| Leaderboard.UpdatedLeaderboard | src/store/useGameStore.ts:317-341 | an updated leaderboard has between one and three entries |
| Leaderboard.SessionBest | src/store/useGameStore.ts:354-355 | the session score is the larger of the score and the previously saved score |
| Leaderboard.SortedUnique | src/store/useGameStore.ts:340 | two descending lists with the same elements are equal, so the sorted result does not depend on how it is computed |
| Leaderboard.SortAppendIsInsert | src/store/useGameStore.ts:335-340 | sorting a descending list with one pushed entry is inserting that entry |
| Leaderboard.RemoveFirstSorted | src/store/useGameStore.ts:325-328 | removing an entry keeps the leaderboard descending |
| Leaderboard.InsertDescPosition | src/store/useGameStore.ts:340-341 | an entry at least the k-th lands in the first k+1 places |
| Leaderboard.InsertDescBelow | src/store/useGameStore.ts:340-341 | an entry below the k-th leaves the first k+1 places unchanged |
| Leaderboard.FirstGameOverUpdate | src/store/useGameStore.ts:333-341 | a first game over keeps three descending entries headed by the larger of the old best and the score; a score at least the third entry gets on the board; a lower one leaves the board as it was |
| Leaderboard.FirstGameOverIsInsert | src/store/useGameStore.ts:335-341 | a first game over yields the first three entries of the board with the score inserted |
| Leaderboard.InsertedTopThree | src/store/useGameStore.ts:340-341 | the first three entries after an insertion are descending, headed by the maximum, contain the score when it is at least the third entry, and are the old board otherwise |
| Leaderboard.ContinuedGameOverUpdate | src/store/useGameStore.ts:321-341 | after a continuation, a score not above the saved one leaves the board alone; a higher one replaces one copy of the saved score and keeps three descending entries |
| Leaderboard.ContinuedAfterDroppedScore | src/store/useGameStore.ts:325-329 | when the saved score is no longer on the board, a higher score is taken in as on a first game over |
| Leaderboard.UpdateKeepsShape | src/store/useGameStore.ts:317-348 | any update keeps a three-entry descending board three entries long and descending |
| Leaderboard.BestNeverDrops | src/store/useGameStore.ts:339-347 | the best entry never drops at a game over |
| Pieces.PieceOf | src/store/useGameStore.ts:238-242 | a drawn piece keeps its identifier, has a catalog shape and a palette colour |
| Pieces.Drawn | src/store/useGameStore.ts:238-242 | three draws give three pieces, in draw order |
| Pieces.CatalogShapesWellFormed | src/utils/constants.ts:6-85 | every shape a draw can produce is well formed |
| Pieces.DoesPieceFit | src/store/useGameStore.ts:212-236 | the refresh fit scan returns true exactly when some anchor within the inclusive bounds passes the placement check |
| Pieces.AnyPieceFits | src/store/useGameStore.ts:246 | true exactly when some drawn piece fits somewhere |
| Pieces.NewSupply | src/store/useGameStore.ts:238-255 | the refresh builds the drawn pieces, and replaces the first one by the rescue DOT when the check is asked for and none fits |
| Pieces.SupplyShape | src/store/useGameStore.ts:238-255 | a refresh offers three catalog pieces; each is the drawn one, except that the first may be the rescue DOT, and only when checking |
| Pieces.UncheckedSupplyIsDrawn | src/store/useGameStore.ts:238-244 | without the check a refresh offers the drawn pieces unchanged |
| Pieces.CheckedSupplyCanMove | src/store/useGameStore.ts:244-254 | on a board with an empty cell a checked refresh always offers a piece that fits |
| Pieces.RescueOnlyWhenStuck | src/store/useGameStore.ts:244-254 | a checked refresh keeps the drawn pieces when one fits and brings in the rescue DOT when none does |
| Pieces.ScanPiece | src/store/useGameStore.ts:305-311 | the end-of-game scan of one piece returns true exactly when an anchor with column below 9 - width passes the placement check |
| Pieces.ScanSupply | src/store/useGameStore.ts:305-312 | the end-of-game scan of the supply returns true exactly when it finds a move for some piece |
| Pieces.GameOverScanMissesOnlyLastColumn | src/store/useGameStore.ts:306-307 | a shape fits somewhere if and only if the end-of-game scan finds it or it fits flush with the right border |
| Pieces.GameOverScanSound | src/store/useGameStore.ts:305-312 | every move the end-of-game scan reports is a real move |
| Pieces.GameOverScanSkipsLastColumn | src/store/useGameStore.ts:307 | on a board with no full row or column, the vertical two-cell line fits, but the end-of-game scan finds no move for it |
| Pieces.DotIsAlwaysFound | src/store/useGameStore.ts:305-312 | when the first column is not full, the end-of-game scan finds a move for a supply holding a DOT |
| Pieces.CatalogTight | src/utils/constants.ts:6-85 | every catalog shape has a filled cell in its first and last row and column |
| Pieces.FitsSomewhereIffPlaceable | src/store/useGameStore.ts:217-218 | for such a shape the refresh fit scan finds a fit exactly when the shape can be placed anywhere at all |
| GameStore.AfterRemoval | src/store/useGameStore.ts:260-266 | the supply after a removal is never empty; when the filter leaves pieces it holds exactly the pieces with another identifier; when it leaves none it is the three drawn pieces |
| GameStore.EmptyBoardHasNoFullLine | src/store/useGameStore.ts:47-49 | the board of a new game has no full row and no full column |
| GameStore.ClearedBoardHasNoFullLine | src/utils/gameLogic.ts:55-60 | every board a move leaves behind has no full row and no full column, the invariant the store keeps |
| GameStore.WithoutId | src/store/useGameStore.ts:261 | the filtered supply holds exactly the pieces with another identifier, and is no longer |
| GameStore.GameStore.constructor | src/store/useGameStore.ts:47-61 | a new store has an empty board, zero score and streak, no saved score, an empty supply, leaderboard [0, 0, 0], best 0, no milestone and a running game |
| GameStore.GameStore.CanPlacePiece | src/store/useGameStore.ts:268-288 | true exactly when the piece can be placed on the current board at the anchor |
| GameStore.GameStore.RefreshPieces | src/store/useGameStore.ts:208-258 | the supply becomes the refreshed supply for the current board and nothing else changes |
| GameStore.GameStore.RemovePiece | src/store/useGameStore.ts:260-266 | the supply loses the pieces with the identifier and is redrawn without the check when it empties; nothing else changes |
| GameStore.GameStore.CheckGameOver | src/store/useGameStore.ts:300-362 | a running game with a non-empty supply ends exactly when the end-of-game scan finds no move, with the leaderboard update, the new best and the session score; board, score, streak and supply are untouched |
| GameStore.GameStore.PlayMove | src/store/useGameStore.ts:124-189 | the board becomes the cleared placed board, the score grows by the move's points, the streak and milestone follow the scoring rules |
| GameStore.GameStore.HandleMove | src/store/useGameStore.ts:124-204 | a move as in PlayMove followed by the game-over check on the cleared board |
| GameStore.GameStore.ClearMilestone | src/store/useGameStore.ts:206 | the milestone is cleared and nothing else changes |
| GameStore.GameStore.OnDrop | src/store/useGameStore.ts:290-298 | a drop that cannot be placed changes nothing; otherwise the piece leaves the supply and the move is handled |
| GameStore.GameStore.ResetGame | src/store/useGameStore.ts:364-377 | a new game starts on an empty board with zero score and streak, no session score, no milestone, a running game and a fresh unchecked supply; the leaderboard stays |
| GameStore.GameStore.ContinueWithNewPieces | src/store/useGameStore.ts:379-390 | with at least 500 points, pay 500, resume and draw a checked supply, keeping the session score; otherwise nothing changes |
| GameStore.GameOverExactlyWhenScanFails | src/store/useGameStore.ts:303-314 | a running game ends exactly when the supply is not empty and the end-of-game scan finds no move |
| GameStore.StuckGameEnds | src/store/useGameStore.ts:303-314 | a running game whose non-empty supply has no fitting piece always ends |
| GameStore.GameOverCheckIdempotent | src/store/useGameStore.ts:303 | a second game-over check on the same position changes nothing |
| GameStore.GameOverCheckKeepsRanking | src/store/useGameStore.ts:339-347 | the check keeps three descending entries headed by the best score |
| GameStore.GameOverRecordsSession | src/store/useGameStore.ts:339-360 | the best score never drops; ending a game records a session score at least the score and at least the earlier session score |
| GameStore.EmptyBoardNeverEndsTheGame | src/store/useGameStore.ts:300-312 | the game-over check never ends a game on an empty board |
| GameStore.DotSupplyNeverEndsAfterMove | src/store/useGameStore.ts:305-312 | the end-of-game check that follows a move never ends the game while the supply holds a DOT |
| GameStore.ValidStoreWithDotKeepsPlaying | src/store/useGameStore.ts:300-312 | in every state the store invariant admits, the end-of-game check leaves the standing unchanged while a DOT is on offer |
| GameStore.RefreshGivesThreePieces | src/store/__tests__/useGameStore.test.ts:130-140 | a refresh offers three pieces |
| GameStore.ResetAfterGameOver | src/store/__tests__/useGameStore.test.ts:142-155 | a reset after a game over at score 100 and streak 5 gives score 0, streak 0, a running game and three pieces |
| GameStore.CheckOnEmptyBoard | src/store/__tests__/useGameStore.test.ts:163-170 | the game-over check on an empty board with a fresh supply does not end the game |
| GameStore.ContinueAtTheThreshold | src/store/useGameStore.ts:379-390 | continuing at exactly 500 leaves a running game at 0; at 499 nothing changes |
| Ads.AdStore.constructor | src/store/adStore.ts:86-96 | nothing shown, nothing loaded, no ad open, all counters zero |
| Ads.AdStore.CanShowInterstitial | src/store/adStore.ts:110-131 | allowed if and only if an interstitial is loaded and five minutes have passed since the last one |
| Ads.AdStore.CanShowRewarded | src/store/adStore.ts:151-163 | allowed if and only if a rewarded ad is loaded (rewarded ads are enabled) |
| Ads.AdStore.CanShowBanner | src/store/adStore.ts:183-186 | allowed if and only if a banner is loaded (banners are on in the game) |
| Ads.AdStore.MarkInterstitialShown | src/store/adStore.ts:133-141 | records the time, counts one more, unloads the ad, and no interstitial is allowed for five minutes; other fields unchanged |
| Ads.AdStore.SetInterstitialReady | src/store/adStore.ts:143-145 | sets the loaded flag and nothing else |
| Ads.AdStore.MarkRewardedShown | src/store/adStore.ts:165-173 | records the time, counts one more, unloads the ad so no rewarded ad is allowed; other fields unchanged |
| Ads.AdStore.SetRewardedReady | src/store/adStore.ts:175-177 | sets the loaded flag and nothing else |
| Ads.AdStore.SetBannerReady | src/store/adStore.ts:188-190 | sets the loaded flag and nothing else |
| Ads.AdStore.InitializeAdTimer | src/store/adStore.ts:192-199 | on the first run starts the interstitial clock now, so none is allowed for five minutes; otherwise keeps the recorded time |
| Ads.AdStore.SetAdShowing | src/store/adStore.ts:239-241 | sets the full-screen flag and nothing else |
| Ads.InterstitialSpacing | src/store/adStore.ts:115-123 | no interstitial is allowed within five minutes of the last one, whatever the loading state |
| Ads.InterstitialAfterSpacing | src/store/adStore.ts:117-130 | once the spacing has elapsed, an interstitial is allowed exactly when one is loaded |
| Ads.InterstitialPermissionPersists | src/store/adStore.ts:115-118 | a later time never turns an allowed interstitial into a refused one |
| Ads.TimerStartsAtNow | src/store/__tests__/adStore.test.ts:29-36 | a first timer start at 1000000 records 1000000 |
| Ads.TimerKeepsRecordedTime | src/store/__tests__/adStore.test.ts:38-48 | a recorded time of 5000 survives a later timer start |
| Ads.InterstitialCases | src/store/__tests__/adStore.test.ts:51-85 | not loaded gives false, just shown gives false, loaded and past the spacing gives true |
| Ads.MarkShownScenario | src/store/__tests__/adStore.test.ts:87-110 | marking at 123456789 after five shows records the time, unloads the ad and counts six |

## Left out

- The resolver's own `score` field and its `currentStreak` parameter (src/utils/gameLogic.ts:65-79, 86) are not modelled. That score reads scoring constants that do not exist, and the store never uses it. The store computes the points itself (`Scoring.ScoreMove`).
- Scoring.StreakBonus: the source computes `floor(points * 0.15 * streak)` in binary floating point. The model uses the exact integer `points * 15 * streak / 100`. Float rounding could differ at a product that is exactly an integer.
- Randomness: the three shape and colour indices and the identifiers come from `Math.random`. They are `Draw` values supplied by the caller. The random prefix of the rescue piece's identifier is the parameter `safeId`.
- The 50 ms delay between showing the placed board and the cleared board is not modelled, nor are the haptic feedback calls. `HandleMove` commits the cleared board and runs the game-over check in one step, as the store does once the timer fires.
- A drop arriving inside that 50 ms window is not modelled. The store does not guard against it (src/store/useGameStore.ts:124-200, 290-298). The second move is resolved on the placed board, which still holds the first move's full lines. Those lines are therefore cleared and paid a second time, and the streak grows twice. The first timer briefly shows its own cleared board and runs the game-over check on it, until the second timer sets the final board. The model's `Valid()` (no full line on the board) holds only because every move runs to the end before the next one.
- Moves whose filled cells leave the board are not modelled: `GameLogic.ProcessMove`, `GameStore.GameStore.PlayMove` and `GameStore.GameStore.HandleMove` require every filled cell to land on the board. The source writes unguarded (src/utils/gameLogic.ts:29), so a row outside the board throws, a column past the right edge grows the row, and a negative column writes a property that the line scans and the clear never see. Its only caller, onDrop, checks the placement first, as `GameStore.GameStore.OnDrop` does.
- Persistence (`saveGame`, `loadGame`, `loadLeaderboard`, `loadAdState`, `saveAdState`, the leaderboard write in checkGameOver) is I/O and is not modelled. A loaded leaderboard is not checked, so `GameStore.GameStore.Valid` holds for states reached through the modelled actions only.
- The store fields that only the screen uses are not modelled: `boardLayout`, `setBoardLayout`, `lastMoveResult`, `hasSavedGame`. The screen also uses an `isDragging` key that the store does not declare; it is not modelled either.
- Copy-on-write and row identity of boards are not modelled: boards are values.
- Granting a continuation after watching an ad is not part of the store in this code. Only the paid continuation is.
- The ad SDK, the rendering, the theme and the layout constants are not modelled.
- The advertising store's `totalBannersShown` is never incremented by any action. It is modelled as a field that only the constructor sets.
- The clock: wherever the advertising store reads `Date.now()`, the model takes the time as the parameter `now`. The log line of the timer start is left out.
