# Go rules engine, modelled in Dafny

This project models the rules core of a networked Go game server written in
Java. It covers:

- the board and its stones (`StoneColor`, `Board`, `BoardFactory`);
- the flood fill that finds stone groups and empty regions, and the liberty
  counts and bordering colours computed from them (`BoardService`);
- the move rules of `GameEngineService`: the fail-fast checks, placement,
  capture of liberty-less opponent groups, the suicide and ko tests, rollback,
  pass and resignation;
- the game state of `GameEngine`: seats and turn order, capture tallies,
  dead-stone negotiation and the territory scoring;
- the text protocol helpers `CommandParser.parseMove` and `ResponseFormatter`;
- the value classes `MoveResult` and `GamePlayer`.

The mutable Java objects become immutable Dafny records. Every engine
operation returns the next state together with the `MoveResult` it reports
(`GameEngineService.Step`). A Java exception becomes a `Failure` carrying the
exception's message.

The rules are stated against ghost reference definitions, independent of the
loops that compute them:

- `Components.Component` is the group of a cell: the smallest set closed under
  same-coloured adjacency.
- `BoardService.LibertiesOf` and `BoardService.BorderOf` give the liberties and
  the bordering colours of a set of cells.
- `GameEngineService.CaptureSet` is the union of the liberty-less opponent
  groups next to the new stone. `Suicide` and `KoRepeat` say when a move is
  refused, and `AcceptedState` says what an accepted move leaves behind.
- `GameEngine.Territory` is the set of empty cells whose empty region is
  bordered by one colour only.

The breadth-first flood fill is proved to return exactly that component. The
capture loop is proved to collect exactly the dead groups. The row-major
scoring scan is proved to count exactly the territory.

The scenarios of `GameEngineTest.java` are lemmas about the model
(`Scenarios`, `TerritoryScenarios`). Each scenario lemma holds for every board
that has the test's stones around the cells involved. A companion `…Fits`
lemma shows that the board the test builds is one of them. The region lemmas
hold for any start cell inside the region, not only the one the test uses.

Players are compared by value. `GamePlayer` carries an `id` that stands for
Java object identity. The ko snapshot is the previous `Board` itself rather
than its `toString` text. For a fixed board size the text determines the
board, so comparing the two gives the same answers.

## Model

| member | source | states |
|---|---|---|
| StoneColors.Other | src/main/java/pl/pwr/gogame/model/StoneColor.java:36-40 | The opposing colour is EMPTY exactly for EMPTY, and differs from a stone colour |
| StoneColors.OtherIsInvolution | src/main/java/pl/pwr/gogame/model/StoneColor.java:29-40 | Taking the opposing colour twice gives back the colour |
| StoneColors.NameInjective | src/main/java/pl/pwr/gogame/model/StoneColor.java:11-26 | Distinct enum constants print as distinct names, so a printed colour identifies the colour |
| Boards.NewBoard | src/main/java/pl/pwr/gogame/model/Board.java:34-50 | A new board has the requested size and every cell EMPTY |
| Boards.IsOutOfBounds | src/main/java/pl/pwr/gogame/model/Board.java:99-102 | A position is out of bounds exactly when it is not one of the board's cells |
| Boards.GetStone | src/main/java/pl/pwr/gogame/model/Board.java:59-62 | Reading fails, with the source's message, exactly off the board; otherwise it returns the cell's colour |
| Boards.SetStone | src/main/java/pl/pwr/gogame/model/Board.java:70-72 | An in-bounds write sets that cell and keeps every other cell; an off-board write changes nothing |
| Boards.RemoveStone | src/main/java/pl/pwr/gogame/model/Board.java:80-82 | An in-bounds removal empties that cell and keeps every other cell; off the board nothing changes |
| Boards.IsEmpty | src/main/java/pl/pwr/gogame/model/Board.java:110-113 | True exactly when reading the cell succeeds and gives EMPTY, so false off the board |
| Boards.GetAfterSet | src/main/java/pl/pwr/gogame/model/Board.java:59-72 | Reading a cell after writing it gives the written colour; reading any other cell is unaffected |
| Boards.Extensionality | src/main/java/pl/pwr/gogame/model/Board.java:34-50 | Two boards of one size with the same colour in every cell are the same board |
| BoardFactory.CreateBoard | src/main/java/pl/pwr/gogame/model/BoardFactory.java:20-26 | Succeeds exactly for sizes 9, 13 and 19, with an empty board of that size; any other size fails with the source's message |
| Players.NewPlayer | src/main/java/pl/pwr/gogame/model/GamePlayer.java:32-35 | A null or blank name becomes "Player", any other name is kept; a null colour becomes EMPTY; the name is never blank |
| Players.ToString | src/main/java/pl/pwr/gogame/model/GamePlayer.java:62-64 | The text is the name followed by the colour's name in parentheses, and the name and colour can be read back from it |
| Positions.AdjacentSymmetric | src/main/java/pl/pwr/gogame/service/BoardService.java:30-43 | Orthogonal adjacency is symmetric |
| Positions.AdjacentCases | src/main/java/pl/pwr/gogame/service/BoardService.java:30-43 | The neighbours of a cell are exactly the four cells one row or one column away |
| Positions.AdjacentIrreflexive | src/main/java/pl/pwr/gogame/service/BoardService.java:30-43 | No cell is its own neighbour |
| MoveResults.NewMoveResult | src/main/java/pl/pwr/gogame/model/MoveResult.java:73-86 | A null capture list becomes the empty list; every other field is stored as given |
| MoveResults.Ok | src/main/java/pl/pwr/gogame/model/MoveResult.java:94-97 | An accepted move: ok, the given captures, no message, no flag, no winner or loser |
| MoveResults.PassNext | src/main/java/pl/pwr/gogame/model/MoveResult.java:106-109 | A first pass: ok and passed, nothing captured, the game neither ends nor enters negotiation |
| MoveResults.PassEnd | src/main/java/pl/pwr/gogame/model/MoveResult.java:119-122 | A closing pass: ok, passed and end, nothing captured, not a resignation |
| MoveResults.Resign | src/main/java/pl/pwr/gogame/model/MoveResult.java:131-134 | A resignation: not ok, end and resigned, with the given winner and loser |
| MoveResults.Error | src/main/java/pl/pwr/gogame/model/MoveResult.java:142-145 | A refusal: not ok, the given message, no captures and no flag |
| MoveResults.NegotiationStart | src/main/java/pl/pwr/gogame/model/MoveResult.java:150-153 | A second pass: ok, passed and negotiation, and the game does not end |
| MoveResults.ClassifyBuild | src/main/java/pl/pwr/gogame/model/MoveResult.java:94-153 | Every factory's result is recognised as the meaning it was built for |
| MoveResults.BuildClassify | src/main/java/pl/pwr/gogame/model/MoveResult.java:94-153 | A result recognised as a meaning is exactly what that meaning's factory builds |
| BoardService.Neighbors | src/main/java/pl/pwr/gogame/service/BoardService.java:30-43 | Exactly the in-bounds orthogonal neighbours, without repeats, at most four, in the order row-1, row+1, col-1, col+1 |
| BoardService.LibertiesEmptyIff | src/main/java/pl/pwr/gogame/service/BoardService.java:151-161 | A set of cells has no liberty exactly when no cell of it touches an empty in-bounds cell |
| BoardService.EmptyNeighbors | src/main/java/pl/pwr/gogame/service/BoardService.java:154-158 | The empty neighbours of one stone are exactly its in-bounds adjacent EMPTY cells |
| BoardService.LibertySet | src/main/java/pl/pwr/gogame/service/BoardService.java:151-161 | The collected set is exactly the liberties of the listed stones |
| BoardService.GroupLiberties | src/main/java/pl/pwr/gogame/service/BoardService.java:151-161 | The count is the number of distinct liberties of the group, and it is zero exactly when the group has no liberty |
| BoardService.CountEmpty | src/main/java/pl/pwr/gogame/service/BoardService.java:53-61 | The count equals the number of listed cells that are EMPTY, so it never exceeds the list's length |
| BoardService.LibertiesCount | src/main/java/pl/pwr/gogame/service/BoardService.java:53-61 | A single stone's count equals its number of liberties, at most four |
| BoardService.Enqueue | src/main/java/pl/pwr/gogame/service/BoardService.java:97-102 | The queued neighbours hold the fill's colour, were not visited, have no repeats, and every neighbour of that colour ends up visited or queued |
| BoardService.ExploreStep | src/main/java/pl/pwr/gogame/service/BoardService.java:93-103 | One poll of the breadth-first loop keeps its invariant, and queueing new cells strictly shrinks the unvisited cells |
| BoardService.Explore | src/main/java/pl/pwr/gogame/service/BoardService.java:89-105 | From any state meeting the loop invariant, the loop returns cells of the colour that hold the start, are closed under same-coloured adjacency outside the visited set, and lie inside every such closed set |
| BoardService.FillFrom | src/main/java/pl/pwr/gogame/service/BoardService.java:77-106 | From an in-bounds start, the flood fill meets that contract and adds exactly its cells to the visited set |
| BoardService.FloodFill | src/main/java/pl/pwr/gogame/service/BoardService.java:77-106 | The fill throws exactly for an off-board start; otherwise it returns the connected cells of the colour |
| BoardService.GetGroup | src/main/java/pl/pwr/gogame/service/BoardService.java:117-125 | The group through a stone is the flood fill of its colour; an empty start gives an empty group and leaves the visited set alone; off the board it throws |
| BoardService.GetEmptyRegion | src/main/java/pl/pwr/gogame/service/BoardService.java:137-139 | The region through a cell is the flood fill over EMPTY cells; off the board it throws |
| BoardService.StoneNeighborColors | src/main/java/pl/pwr/gogame/service/BoardService.java:178-185 | Exactly the stone colours found next to one cell |
| BoardService.BorderingColors | src/main/java/pl/pwr/gogame/service/BoardService.java:175-188 | Never contains EMPTY, and is exactly the set of colours of the stones next to some cell of the region |
| Components.ComponentBasics | src/main/java/pl/pwr/gogame/service/BoardService.java:77-106 | A stone's group holds it, holds only cells of its colour, and is closed under same-coloured adjacency |
| Components.ComponentMinimal | src/main/java/pl/pwr/gogame/service/BoardService.java:77-106 | A group lies inside every closed set that holds its start |
| Components.ComponentSymmetric | src/main/java/pl/pwr/gogame/service/BoardService.java:77-106 | Any member of a group has that same group, so the groups partition the cells of a colour |
| Components.FillIsComponent | src/main/java/pl/pwr/gogame/service/BoardService.java:77-106 | With a visited set that separates no same-coloured neighbours, the flood fill returns the whole group of the start |
| Components.SealedGrow | src/main/java/pl/pwr/gogame/service/BoardService.java:77-106 | Adding a filled region to such a visited set keeps it separating no neighbours, so later fills also find whole groups |
| Components.SealedEmpty | src/main/java/pl/pwr/gogame/service/BoardService.java:117-125 | The empty visited set separates no neighbours |
| GameEngineService.ValidatePreConditions | src/main/java/pl/pwr/gogame/service/GameEngineService.java:154-160 | No error exactly when the colour is a stone and the cell is on the board and empty; otherwise the first failing check's message, in the source's order |
| GameEngineService.DeadGroupsMembers | src/main/java/pl/pwr/gogame/service/GameEngineService.java:177-188 | A cell is captured from a list of neighbours exactly when it lies in the liberty-less group through one of them |
| GameEngineService.ScanNeighbor | src/main/java/pl/pwr/gogame/service/GameEngineService.java:178-187 | One pass of the neighbour loop keeps the loop invariant: the captured stones are exactly the dead groups met so far, without repeats |
| GameEngineService.CaptureScan | src/main/java/pl/pwr/gogame/service/GameEngineService.java:177-188 | The neighbour loop collects exactly the stones of the liberty-less opponent groups through the neighbours, each once |
| GameEngineService.RemoveAll | src/main/java/pl/pwr/gogame/service/GameEngineService.java:190-192 | Removing the listed stones one by one empties exactly those cells and keeps every other cell |
| GameEngineService.TryCaptureOpponents | src/main/java/pl/pwr/gogame/service/GameEngineService.java:170-194 | The returned stones are exactly the liberty-less opponent groups next to the move, each once, and the board afterwards has exactly those cells emptied |
| GameEngineService.Restore | src/main/java/pl/pwr/gogame/service/GameEngineService.java:210-212 | Putting back the listed stones sets exactly those cells to the colour and keeps the rest |
| GameEngineService.Rollback | src/main/java/pl/pwr/gogame/service/GameEngineService.java:205-213 | The placed stone is lifted, the captured stones return as the opponent's colour, and every other cell is kept |
| GameEngineService.RollbackRestores | src/main/java/pl/pwr/gogame/service/GameEngineService.java:205-213 | Rolling back a move with its captures gives exactly the board from before the move |
| GameEngineService.UndoPlacement | src/main/java/pl/pwr/gogame/service/GameEngineService.java:75-90 | Lifting the new stone off the board with it placed gives back the board from before the move |
| GameEngineService.NoCaptureKeepsPlacement | src/main/java/pl/pwr/gogame/service/GameEngineService.java:75-81 | With nothing to capture, the board after the move is the board with just the new stone added |
| GameEngineService.CapturedCells | src/main/java/pl/pwr/gogame/service/GameEngineService.java:170-194 | Every captured cell held an opponent stone on the board before the move, other than the move's cell |
| GameEngineService.PlaceAndCapture | src/main/java/pl/pwr/gogame/service/GameEngineService.java:75-81 | Placing the stone and capturing removes exactly the capture set, each stone once, and gives the board the rules define |
| GameEngineService.IsSuicide | src/main/java/pl/pwr/gogame/service/GameEngineService.java:83-90 | The test is true exactly when nothing was captured and the new stone's group has no liberty |
| GameEngineService.IsKo | src/main/java/pl/pwr/gogame/service/GameEngineService.java:92-97 | The test is true exactly when one stone is captured right after a one-stone capture and the board returns to the snapshot |
| GameEngineService.Accept | src/main/java/pl/pwr/gogame/service/GameEngineService.java:99-103 | The accepted state: the new board, the old board as snapshot, the one-stone flag, the mover's tally raised by the capture count, and the turn passed on |
| GameEngineService.PlaceStone | src/main/java/pl/pwr/gogame/service/GameEngineService.java:75-104 | Accepted exactly when neither suicide nor ko; suicide and ko are refused with their messages and change nothing but the pass flag; an accepted move reports exactly the capture set |
| GameEngineService.TakeTurn | src/main/java/pl/pwr/gogame/service/GameEngineService.java:60-104 | Out of turn, invalid, suicide and ko moves are refused with their messages and change only the pass flag; otherwise the move is accepted as the rules define |
| GameEngineService.ApplyMove | src/main/java/pl/pwr/gogame/service/GameEngineService.java:52-104 | A finished game or missing players refuse without any change; otherwise accepted exactly when the move is legal, not suicide and not ko, with the refusal messages in the source's order and the accepted state as the rules define |
| GameEngineService.AcceptedBoard | src/main/java/pl/pwr/gogame/service/GameEngineService.java:75-103 | After an accepted move the new stone holds its cell, each captured cell held an opponent stone and is now empty, and every other cell is unchanged |
| GameEngineService.CapturesWholeGroups | src/main/java/pl/pwr/gogame/service/GameEngineService.java:177-188 | Every captured stone's whole group is captured and has no liberty, and every liberty-less opponent group next to the move is captured |
| GameEngineService.CaptureFromFourSides | src/main/java/pl/pwr/gogame/service/GameEngineService.java:177-188 | The capture set is the union of the dead opponent groups through the four orthogonal neighbours of the move |
| GameEngineService.AcceptedMoveHasLiberty | src/main/java/pl/pwr/gogame/service/GameEngineService.java:83-90 | A move that is not suicide leaves the new stone's group with a liberty on the board after the captures |
| GameEngineService.Pass | src/main/java/pl/pwr/gogame/service/GameEngineService.java:114-130 | Only the current player may pass; a pass clears the ko state and keeps board and tallies; a second consecutive pass starts negotiation and keeps the turn; a first pass hands the turn over; in either case no other field of the engine changes |
| GameEngineService.DoublePassStartsNegotiation | src/main/java/pl/pwr/gogame/service/GameEngineService.java:114-130 | Black passing and then White passing starts the negotiation phase |
| GameEngineService.Resign | src/main/java/pl/pwr/gogame/service/GameEngineService.java:139-144 | A seated player's resignation names the opponent as winner, ends the game and leaves nobody to move; an unknown player is an error |
| GameEngineService.NothingAfterResign | src/main/java/pl/pwr/gogame/service/GameEngineService.java:52-58 | After a resignation every move is refused as a finished game and every pass as out of turn |
| GameEngine.NewEngine | src/main/java/pl/pwr/gogame/model/GameEngine.java:107-112 | A new engine holds the board, no players, no one to move, zero tallies, no ko state and the playing phase |
| GameEngine.SetPlayers | src/main/java/pl/pwr/gogame/model/GameEngine.java:233-237 | The two seats are set, Black moves first, and nothing else changes |
| GameEngine.ChangePlayers | src/main/java/pl/pwr/gogame/model/GameEngine.java:242-244 | After Black comes White; after anyone else, including nobody, comes Black; nothing else changes |
| GameEngine.ChangePlayersAlternates | src/main/java/pl/pwr/gogame/model/GameEngine.java:242-244 | With two distinct seated players the turn goes to the opponent, and two changes give back the engine |
| GameEngine.UpdateCaptureCounts | src/main/java/pl/pwr/gogame/model/GameEngine.java:252-256 | The count is added to Black's tally for BLACK and to White's for any other colour, and nothing else changes |
| GameEngine.GetOpponentPlayer | src/main/java/pl/pwr/gogame/model/GameEngine.java:265-269 | The opponent is the other seat; a player in neither seat is an error with the source's message |
| GameEngine.OpponentInvolution | src/main/java/pl/pwr/gogame/model/GameEngine.java:265-269 | For two distinct seated players the opponent differs from the player, and the opponent's opponent is the player |
| GameEngine.GetCurrentColor | src/main/java/pl/pwr/gogame/model/GameEngine.java:335-337 | The colour of the player to move, or EMPTY when nobody is to move |
| GameEngine.StartNegotiation | src/main/java/pl/pwr/gogame/model/GameEngine.java:119-123 | The negotiation phase begins with no marks and nobody done; nothing else changes |
| GameEngine.MarkNegotiationPosition | src/main/java/pl/pwr/gogame/model/GameEngine.java:126-128 | The position joins the player's marks; other players' marks and the rest of the state are untouched |
| GameEngine.MarkedStones | src/main/java/pl/pwr/gogame/model/GameEngine.java:159-169 | Exactly the marked cells that are on the board and hold the given colour |
| GameEngine.ApplyNegotiationResults | src/main/java/pl/pwr/gogame/model/GameEngine.java:146-188 | With equal marks the marked cells are emptied, removed white stones go to Black's tally and black ones to White's, and the game finishes; otherwise play resumes with the marks and the pass flag cleared, and no other field of the engine changes |
| GameEngine.StonesAfterClear | src/main/java/pl/pwr/gogame/model/GameEngine.java:159-169 | Removing the agreed cells takes exactly the marked black and white stones off the board |
| GameEngine.NegotiationConservesStones | src/main/java/pl/pwr/gogame/model/GameEngine.java:151-178 | On consensus every stone that leaves the board is added to exactly one tally |
| GameEngine.FinishNegotiationFor | src/main/java/pl/pwr/gogame/model/GameEngine.java:136-143 | The player is recorded as done; the results apply, and true is returned, exactly when both seated players are done |
| GameEngine.ScanStep | src/main/java/pl/pwr/gogame/model/GameEngine.java:285-287 | A region found by the scan is a whole empty region, and later scans still find whole regions |
| GameEngine.Credit | src/main/java/pl/pwr/gogame/model/GameEngine.java:288-293 | A region bordered only by Black adds its size to Black's territory, one bordered only by White to White's, and any other region to neither |
| GameEngine.RegionCredit | src/main/java/pl/pwr/gogame/model/GameEngine.java:285-293 | Crediting one region keeps each counter equal to the territory of that colour among the cells visited so far |
| GameEngine.ScanRegion | src/main/java/pl/pwr/gogame/model/GameEngine.java:282-297 | One region step of the row-major scan keeps the scan invariant |
| GameEngine.ScanTerritory | src/main/java/pl/pwr/gogame/model/GameEngine.java:282-297 | The row-major scan counts exactly the empty cells whose region only Black borders, and those only White borders |
| GameEngine.CalculateScores | src/main/java/pl/pwr/gogame/model/GameEngine.java:277-305 | Each score is that colour's territory plus its tally; the higher score's seat wins, and equal scores give no winner |
| GameEngine.TerritoriesDisjoint | src/main/java/pl/pwr/gogame/model/GameEngine.java:282-297 | No empty cell counts for both colours, so the two territories together never exceed the empty cells |
| JavaText.Trim | src/main/java/pl/pwr/gogame/server/CommandParser.java:47 | The result has no padding at either end and is no longer than the input |
| JavaText.TrimPadded | src/main/java/pl/pwr/gogame/server/CommandParser.java:47 | Trimming removes exactly the padding around an unpadded core |
| JavaText.TrimKeeps | src/main/java/pl/pwr/gogame/server/CommandParser.java:47 | Trimming leaves an unpadded string alone |
| JavaText.LowerChar | src/main/java/pl/pwr/gogame/server/CommandParser.java:47 | An ASCII capital maps to its lower-case letter; every other character is kept |
| JavaText.ToLower | src/main/java/pl/pwr/gogame/server/CommandParser.java:47 | Lowering keeps the length and lowers each character |
| JavaText.ToLowerConcat | src/main/java/pl/pwr/gogame/server/CommandParser.java:47 | Lowering a concatenation lowers each part |
| JavaText.Split | src/main/java/pl/pwr/gogame/server/CommandParser.java:54 | No piece contains whitespace; the pieces, each followed by the whitespace run that came after it in the input, give back the input, those runs being non-empty between pieces; only the first piece may be empty, so trailing empty pieces are gone; the result is empty exactly for a non-empty all-whitespace input |
| JavaText.SplitTwoWords | src/main/java/pl/pwr/gogame/server/CommandParser.java:54-57 | Two words separated by any whitespace run split into at least two pieces, the two words first |
| JavaText.ParseInt | src/main/java/pl/pwr/gogame/server/CommandParser.java:59-65 | The text parses exactly when it is an optional sign followed by at least one decimal digit and its value fits in 32 bits, and then the result is the value of the digits, negated under a minus sign |
| JavaText.LowerKeepsParse | src/main/java/pl/pwr/gogame/server/CommandParser.java:47-61 | Lower-casing a token never changes what it parses to |
| JavaText.LowerKeepsBlank | src/main/java/pl/pwr/gogame/server/CommandParser.java:47-50 | Lower-casing keeps a command blank or non-blank, and keeps it free of whitespace or not |
| JavaText.IntToString | src/main/java/pl/pwr/gogame/server/ResponseFormatter.java:52 | The decimal text is non-empty, without whitespace or padding, and is digits with a leading minus for negatives |
| JavaText.ParseIntRoundTrip | src/main/java/pl/pwr/gogame/server/CommandParser.java:59-65 | Parsing the printed form of any 32-bit value gives back the value |
| JavaText.LowerKeepsNumber | src/main/java/pl/pwr/gogame/server/CommandParser.java:47 | Lowering leaves a printed number unchanged |
| CommandParser.ParseMove | src/main/java/pl/pwr/gogame/server/CommandParser.java:43-66 | "resign" after trimming, in any case, exactly gives no move; a blank command exactly gives the empty-command error; every other failure is one of the two other messages; a move belongs to the player and has 32-bit coordinates |
| CommandParser.ResignAnyCase | src/main/java/pl/pwr/gogame/server/CommandParser.java:47-48 | "resign" in any letter case, with any padding, is a resignation |
| CommandParser.ParseMoveWords | src/main/java/pl/pwr/gogame/server/CommandParser.java:47-65 | A padded command of two or more whitespace-separated words is the move to the values of the first two words when both parse, and the not-numbers error when either does not; later words are ignored |
| CommandParser.ParseMoveOneWord | src/main/java/pl/pwr/gogame/server/CommandParser.java:47-57 | A padded command of one word that is neither blank nor "resign" is refused with the two-coordinates error |
| CommandParser.ParseMoveRoundTrip | src/main/java/pl/pwr/gogame/server/CommandParser.java:43-66 | Two printed 32-bit coordinates separated by a space, optionally followed by more words, parse back to that move of the player |
| CommandParser.OneNumberIsNotAMove | src/main/java/pl/pwr/gogame/server/CommandParser.java:54-57 | A single number is refused with the two-coordinates error |
| ResponseFormatter.FormatMoveResult | src/main/java/pl/pwr/gogame/server/ResponseFormatter.java:47-56 | The reply starts with the error prefix exactly for a refused move |
| ResponseFormatter.MoveResultReadsBack | src/main/java/pl/pwr/gogame/server/ResponseFormatter.java:47-56 | The error message, or "null" when there is none, follows the error prefix; a capture-less move gives the plain acceptance; otherwise the number of captured stones reads back after the capture prefix |
| ResponseFormatter.FormatStatus | src/main/java/pl/pwr/gogame/server/ResponseFormatter.java:65-68 | The status line starts with the turn prefix, ends with a parenthesis, and its length is fixed by the name |
| ResponseFormatter.StatusReadsBack | src/main/java/pl/pwr/gogame/server/ResponseFormatter.java:65-68 | The player's name, or "(brak)", and the colour can be read back from the status line, and the colour is the only one that reads back |
| ResponseFormatter.FormatScores | src/main/java/pl/pwr/gogame/server/ResponseFormatter.java:76-99 | The summary starts with the header and Black's score label and ends with the outcome line |
| ResponseFormatter.ScoresReadBack | src/main/java/pl/pwr/gogame/server/ResponseFormatter.java:76-99 | The summary ends with the draw line exactly when there is no winner, and Black's and White's scores each read back from their own lines |
| Scenarios.SetupIsLayout | src/test/java/pl/pwr/gogame/model/GameEngineTest.java:24-31 | Placing the test's white stones and then its black stones on a new 9×9 board gives the layout that the scenarios describe cell by cell |
| Scenarios.OneCapture | src/main/java/pl/pwr/gogame/service/GameEngineService.java:75-103 | A legal move that captures a single stone is accepted, reports that stone, empties its cell, raises the mover's tally by one, hands the turn over and arms the ko state |
| Scenarios.SquareCapture | src/test/java/pl/pwr/gogame/model/GameEngineTest.java:33-68 | Black closing the last liberty of a white stone captures it: the move is accepted, the stone is gone, Black's tally is 1 and White moves next |
| Scenarios.BlockCapture | src/test/java/pl/pwr/gogame/model/GameEngineTest.java:69-113 | White surrounding a 2×2 black block captures all four stones, White's tally is 4 and Black moves next |
| Scenarios.EdgeCapture | src/test/java/pl/pwr/gogame/model/GameEngineTest.java:114-149 | A two-stone black group against the top edge is captured when White takes its last liberty |
| Scenarios.SuicideThatCaptures | src/test/java/pl/pwr/gogame/model/GameEngineTest.java:151-188 | A move into a cell without liberties is accepted when it captures, and the captured stone's cell gives it a liberty |
| Scenarios.GroupSuicideRejected | src/test/java/pl/pwr/gogame/model/GameEngineTest.java:190-228 | A move that leaves its own group without a liberty and captures nothing is refused as suicide and changes neither board nor turn |
| Scenarios.KoTaking | src/test/java/pl/pwr/gogame/model/GameEngineTest.java:276-309 | White's capture of one black stone in the ko shape is accepted and arms the ko state with the board from before it |
| Scenarios.KoRetakeRepeats | src/test/java/pl/pwr/gogame/model/GameEngineTest.java:276-309 | Black's immediate retake would capture one stone and recreate the snapshot board |
| Scenarios.Restores | src/main/java/pl/pwr/gogame/service/GameEngineService.java:92-97 | A one-stone capture that swaps back the two stones of a ko gives exactly the earlier board |
| Scenarios.KoPrevented | src/test/java/pl/pwr/gogame/model/GameEngineTest.java:276-309 | After White takes the ko, Black's immediate retake is refused with the ko error and changes neither board nor turn |
| Scenarios.ResignScenario | src/test/java/pl/pwr/gogame/model/GameEngineTest.java:230-248 | Black resigning makes White the winner and leaves nobody to move; no move is accepted afterwards; a later resignation by White names Black |
| Scenarios.SquareBoardFits | src/test/java/pl/pwr/gogame/model/GameEngineTest.java:33-48 | The test's board for the square capture has the stones the scenario needs |
| Scenarios.BlockBoardFits | src/test/java/pl/pwr/gogame/model/GameEngineTest.java:69-95 | The test's board for the block capture has the stones the scenario needs |
| Scenarios.EdgeBoardFits | src/test/java/pl/pwr/gogame/model/GameEngineTest.java:114-135 | The test's board for the edge capture has the stones the scenario needs |
| Scenarios.SnapBoardFits | src/test/java/pl/pwr/gogame/model/GameEngineTest.java:151-175 | The test's board for the capturing suicide has the stones the scenario needs |
| Scenarios.PocketBoardFits | src/test/java/pl/pwr/gogame/model/GameEngineTest.java:190-215 | The test's board for the group suicide has the stones the scenario needs |
| Scenarios.KoBoardFits | src/test/java/pl/pwr/gogame/model/GameEngineTest.java:276-297 | The test's board for the ko has the stones the scenario needs |
| Shapes.RectCard | src/test/java/pl/pwr/gogame/model/GameEngineTest.java:358-394 | A rectangle of cells holds width times height cells |
| Shapes.EnclosedRect | src/test/java/pl/pwr/gogame/model/GameEngineTest.java:69-113 | A rectangle of one colour, walled in by the other colour and the edge, is a whole group without a liberty |
| TerritoryScenarios.RegionIsRect | src/main/java/pl/pwr/gogame/service/BoardService.java:137-139 | The empty region found from any cell of a closed empty rectangle is exactly that rectangle, with its size, and it is added to the visited set |
| TerritoryScenarios.WholeBoardRegion | src/test/java/pl/pwr/gogame/model/GameEngineTest.java:311-321 | On an empty board the region through any cell is the whole board, 81 cells on 9×9 |
| TerritoryScenarios.EnclosedRegion | src/test/java/pl/pwr/gogame/model/GameEngineTest.java:324-356 | Inside a ring of black stones the region through any inner cell is the 3×3 interior, nine cells |
| TerritoryScenarios.LeftRegion | src/test/java/pl/pwr/gogame/model/GameEngineTest.java:358-394 | Left of a black wall the region through any cell is exactly the two columns there, 18 cells |
| TerritoryScenarios.RightRegion | src/test/java/pl/pwr/gogame/model/GameEngineTest.java:358-394 | After the left region is visited, the region through any cell right of the wall is exactly the six columns there, 54 cells |
| TerritoryScenarios.SeparateRegions | src/test/java/pl/pwr/gogame/model/GameEngineTest.java:358-394 | The two regions on either side of the wall hold 18 and 54 cells and share none |
| TerritoryScenarios.SharedRegion | src/test/java/pl/pwr/gogame/model/GameEngineTest.java:396-433 | Every empty cell outside the two enclosed pockets lies in a region bordered by both colours |
| TerritoryScenarios.BlackTerritory | src/test/java/pl/pwr/gogame/model/GameEngineTest.java:396-433 | Black's territory is exactly the four corner cells |
| TerritoryScenarios.WhiteTerritory | src/test/java/pl/pwr/gogame/model/GameEngineTest.java:396-433 | White's territory is exactly the bottom-right cell |
| TerritoryScenarios.ScoreScenario | src/test/java/pl/pwr/gogame/model/GameEngineTest.java:396-433 | With tallies of 3 and 5, Black scores 7, White scores 6 and Black wins |
| TerritoryScenarios.RingBoardFits | src/test/java/pl/pwr/gogame/model/GameEngineTest.java:324-343 | The test's ringed board has the stones the scenario needs |
| TerritoryScenarios.WallBoardFits | src/test/java/pl/pwr/gogame/model/GameEngineTest.java:358-377 | The test's walled board has the stones the scenario needs |
| TerritoryScenarios.ScoreBoardFits | src/test/java/pl/pwr/gogame/model/GameEngineTest.java:396-420 | The test's scoring board has the stones the scenario needs |

## Left out

- Threads: `synchronized`, the sockets and the client/server loop are not modelled. Every engine call is one atomic transition.
- `Board.toString` and the line separator are not modelled. The ko snapshot is the previous `Board` value, and for a fixed size that compares the same way as the text.
- `ResponseFormatter.formatWelcome` is not modelled, because it renders `Board.toString`, which is left out.
- ResponseFormatter.FormatScores: takes the line separator as a parameter, because `System.lineSeparator()` depends on the platform.
- GameEngine.UpdateCaptureCounts: does not model 32-bit wrap-around of the tallies, because a game on a 19×19 board cannot capture anywhere near 2^31 stones.
- GameEngine.CalculateScores: does not model 32-bit wrap-around of the scores, for the same reason. `ScoresReadBack` and `MoveResultReadsBack` require values that fit in 32 bits.
- ResponseFormatter.ScoresReadBack: requires both scores to fit in 32 bits, because the Java scores are `int` values and only those print as text that `parseInt` reads back.
- JavaText.LowerChar: maps only the ASCII capitals. Java's `toLowerCase` also maps other Unicode letters, and it can change the length of a few special characters.
- JavaText.ParseInt: accepts only the ASCII digits. Java's `Integer.parseInt` also accepts digits of other Unicode scripts.
- Null arguments are not modelled, except where the source itself tests for null: a player's name and colour, the capture list of a `MoveResult`, and the player shown in the status line. A null `Move`, `Position` or `GamePlayer` passed to the engine cannot occur in the model, so the null-position check of `validatePreConditions` (GameEngineService.java line 156) has no counterpart.
- Boards.NewBoard: takes a natural size. A negative size makes Java's array allocation throw, and `BoardFactory` never passes one.
- GameEngineService.TryCaptureOpponents: requires a stone colour. The only caller passes the mover's colour after the EMPTY check has already refused EMPTY.
- GameEngine.ApplyNegotiationResults: requires both seats to be filled. The only caller invokes it after both seated players are done.
- The iteration order of Java's `HashSet` and `HashMap` is not modelled. The capture list and the negotiation removal are stated as sets of cells, and duplicates are proved absent. The order in which `tryCaptureOpponents` lists captured stones follows the neighbour and flood-fill order.
- The getters and setters of `GameEngine` and `MoveResult`, and `GameEngine.getPhase`, are not modelled separately; they are plain field reads on the records.
- The engine methods `applyMove`, `pass` and `resign` of `GameEngine.java` (lines 200-222) only delegate to `GameEngineService`, so only the service versions are modelled.
- `ScoreResult`, `Move` and `Position` are plain records and appear as Dafny datatypes without operations of their own.
- The source has these quirks, and the model keeps them:
  - `applyMove` does not check the game phase, so moves are accepted during negotiation.
  - `pass` does not check whether the game has ended.
  - A resignation result has no error message, so `formatMoveResult` prints it as "BŁĄD: null".
  - The null check of `parseMove` at CommandParser.java line 50 cannot fire, because line 47 already calls methods on the command.
  - Negotiation credits each removed stone to the player of the other colour, by the colour of the stone that was on the cell.
