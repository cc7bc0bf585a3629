# A verified model of the Go board engine and its KataGo bridge

This project models the core of a desktop Go game in Dafny. The game is written in C++
and plays against the KataGo engine. The model covers:

- **Rules** (module `Rules`): the breadth-first flood fill that finds a group and its
  liberties, the capture of opposing groups by a placed stone, and the two legality
  checks (the one that ignores capture, and the full one with no suicide unless the
  stone captures). The search keeps its shared `visited` grid as an `array2<bool>`
  and is proved against a path-based reachability predicate. Each search returns
  exactly the connected group it starts from, each stone once.
- **Board replay** (modules `Board`, `Actions`, `Replay`): the snapshot type, the
  action log (`NoAction | CaptureStones | AddStone | Pass`), the fold from a log to a
  snapshot, the `BOARD_STATE_CORRUPT` failure, the pass and end-of-game tracking, and
  the ko query `computeIfKo`.
- **Game state** (module `GameState`): the `GoBoardState` object with its log,
  undo cursor and cached snapshot. Its methods are proved against value-level
  specifications (`UndoSpec`, `RedoSpec`, `PassSpec`, `AddStoneSpec`, `Cleared`).
  Lemmas show that undo and redo are inverse and that every operation keeps a
  consistent game consistent and never fails on one.
- **Engine bridge** (modules `Codec`, `KataGo`, `Engine`, `Settings`, `Json`,
  `Numeric`):
  - the coordinate codec, which skips the letter 'I';
  - the two query records;
  - the move list built from the log;
  - the loop of `nextNMoves` over an abstract sequence of engine answers;
  - newline framing of the engine's output and the FIFO message queue;
  - the field checks of `getNextMove` and `getEvaluation`, and the ownership index
    mapping;
  - difficulty levels and their default settings.
- **Small tables** (modules `Errors`, `Utils`, `Base`): the error table, the minimum
  severity, warning expiry with the clock as a parameter, the hex colour parser, and
  the `GoStone` order.
- **Self-tests** (modules `Groups`, `Fixtures`): the `areGroupsEqual` helper, with
  `std::sort` modelled as a sort and proved unique on distinct positions. Each self-test
  fixture is a method whose `ensures ok` states that the test passes.

Integers are unbounded. `std::stoi` is modelled as a parse that fails where the library
throws, including out of 32-bit range. The JSON library is a small value model (`Json`).
The JSON parser and serialiser are function parameters.

## Model

| member | source | states |
|---|---|---|
| Base.Dim | src/base.hpp:9-13 | the board sizes are exactly 9, 13 and 19, one per enumerator |
| Base.Opponent | src/rules.cpp:77-79 | the colour a capture explores is the other colour |
| Base.StoneLessIsLexicographic | src/base.hpp:43-48 | `<` orders stones by x, then by y |
| Base.StoneLessIgnoresColour | src/base.hpp:43-48 | recolouring either stone never changes `<` |
| Base.StoneEqualsIsIdentity | src/base.hpp:50-54 | `==` holds exactly when colour, x and y all agree |
| Base.SamePointOtherColour | src/base.hpp:43-54 | two stones that differ only in colour are neither `<` each other nor `==` |
| Base.StoneLessIsStrictOrder | src/base.hpp:43-48 | `<` is irreflexive, asymmetric and transitive |
| Base.StoneLessConnected | src/base.hpp:43-48 | stones on different points are ordered one way or the other |
| Board.CellOf | src/compute.hpp:35-38 | the cell written for a colour is never empty |
| Board.TurnFromCell | src/state.hpp:18-25 | EMPTY maps to none; a stone cell maps to the colour whose cell it is |
| Board.TurnOfCellOf | src/state.hpp:18-25 | BLACK maps to BLACK and WHITE to WHITE |
| Board.EmptySnapshot | src/state.hpp:33 | the size constructor gives a size-by-size all-empty grid, no pending pass, not ended |
| Board.SetCell | src/compute.hpp:35-38 | writing one cell keeps the grid's shape, sets that cell and changes no other |
| Board.SnapshotEqualsSizeMismatch | src/state.hpp:44-45 | snapshots of different outer sizes are unequal |
| Board.SnapshotEqualsIffSameCells | src/state.hpp:43-56 | on well-formed snapshots of one size, `==` holds exactly when the cells agree |
| Board.SnapshotEqualsIgnoresPassAndEnd | src/state.hpp:43-56 | the pending pass and the ended flag never affect `==` |
| Board.SnapshotEqualsReflexiveSymmetric | src/state.hpp:47-55 | `==` is reflexive and symmetric |
| Replay.DoesCellValidateStoneMeansSameColour | src/compute.hpp:9-12 | a cell validates a stone exactly when it holds that stone's colour |
| Replay.RemoveStones | src/compute.hpp:48-57 | removal fails only with BOARD_STATE_CORRUPT; on success every listed point is empty, other stones stay, empty cells stay empty |
| Replay.RemoveStonesSucceeds | src/compute.hpp:48-57 | removal succeeds when each listed point holds its stone's colour and no point is listed twice |
| Replay.RemoveStonesOkOnlyIfRemovable | src/compute.hpp:48-53 | a removal that succeeds found every listed point holding its stone's colour, each point listed once: an empty cell, a stone of the other colour or a point listed a second time makes it fail |
| Replay.RemoveStonesOkIff | src/compute.hpp:48-57 | removal succeeds exactly when every listed point holds its stone's colour and no point is listed twice; otherwise it fails with BOARD_STATE_CORRUPT |
| Replay.ApplyAction | src/compute.hpp:29-72 | one action keeps the snapshot well formed and of the same size |
| Replay.Replay | src/compute.hpp:15-88 | the fold fails only with BOARD_STATE_CORRUPT and otherwise gives a well-formed board of the game's size |
| Replay.ReplayEmpty | src/compute.hpp:17-24 | the empty log replays to the empty board with no pass and not ended |
| Replay.ReplaySnoc | src/compute.hpp:25-77 | one more action: an error stays, an ended game stays, otherwise the action is applied |
| Replay.ReplayStopsWhenEndedOrFailed | src/compute.hpp:28 | once the replay has failed or the game has ended, later actions change nothing |
| Replay.ReplayPrefixOk | src/compute.hpp:25-77 | every prefix of a log that replays also replays |
| Replay.ReplayAddStone | src/compute.hpp:33-40 | AddStone sets its cell, clears the pending pass, changes no other cell and checks no occupancy |
| Replay.ReplayPass | src/compute.hpp:60-69 | the first Pass records its colour, a Pass of the other colour ends the game, a repeat changes nothing, the grid is untouched |
| Replay.ReplayCaptureStones | src/compute.hpp:41-58 | CaptureStones sets the capturing cell and then removes the listed stones; the replay fails with BOARD_STATE_CORRUPT exactly when they are not removable after the placement; on success the pending pass is cleared, the listed points are empty, the capturing point keeps its colour unless listed, and every other cell is unchanged |
| Replay.ReplayNoAction | src/compute.hpp:26-72 | NoAction changes nothing |
| Replay.VisitAction | src/compute.hpp:29-72 | the loop body computes exactly one application of the action |
| Replay.ComputeActions | src/compute.hpp:15-88 | the imperative loop computes the replay of the whole log |
| Replay.ComputeIfKoMeaning | src/compute.hpp:90-117 | the ko query is true exactly when the log has more than 6 actions, both replays succeed, and the cells after the candidate equal the cells of the log without its last action |
| Rules.DirectionTo | src/rules.hpp:14 | every adjacent point is reached by one of the four directions |
| Rules.StepIsAdjacent | src/rules.hpp:14 | the four directions lead only to adjacent points |
| Rules.ReachSymmetric | src/rules.cpp:21-45 | connection through one colour is symmetric |
| Rules.ReachTransitive | src/rules.cpp:21-45 | connection through one colour is transitive |
| Rules.LibertySpreads | src/rules.cpp:31-39 | all stones of one group share that group's liberties |
| Rules.ReachInClosed | src/rules.cpp:21-45 | a neighbour-closed set containing the start contains the whole group |
| Rules.ReachAvoidsClosed | src/rules.cpp:55-84 | marking an already explored, closed group as visited does not change what a later search from outside it reaches |
| Rules.SomeLibertyIsLibertyOf | src/rules.cpp:31-39 | the flag the search sets is the group's liberty, excluding marked points and the start |
| Rules.ExploreGroupAndLiberties | src/rules.cpp:4-49 | the start comes first; the stones are exactly the cells connected to the start through the target colour, unmarked, each once; the liberty flag holds exactly when some stone has an unmarked empty neighbour other than the start; exactly these stones get marked |
| Rules.GetCapturedGroups | src/rules.cpp:51-88 | each listed group is the full opposing group of a neighbour, with no liberty once the placed point is taken; every capturing direction lands in a listed group; no two groups share a point; the groups come in scan order up, right, down, left: group i starts at the neighbour in direction dirs[i], the directions strictly increase, and each capturing direction lands in a group found through it or an earlier direction |
| Rules.IsValidStoneIgnoringCapture | src/rules.cpp:90-116 | true exactly when the stone's group, grown from its point, touches an empty point other than that point |
| Rules.IsValidStone | src/rules.cpp:118-127 | true exactly when the placement keeps a liberty or some direction captures |
| Errors.SeverityOf | src/error.hpp:40-51 | exactly BOARD_STATE_CORRUPT is recoverable, exactly the two parse errors are debug, and no error is unrecoverable |
| Errors.Surviving | src/error.hpp:90-102 | the kept packets are stored packets that survive at `now` |
| Errors.SurvivingKeeps | src/error.hpp:90-102 | a packet is kept exactly when it is stored and survives: it is not a warning whose age at `now` exceeds 2000 ms |
| Errors.NonWarningsSurvive | src/error.hpp:93-98 | packets that are not warnings are always kept |
| Errors.SurvivingAppend | src/error.hpp:90-102 | the filter works packet by packet and keeps the stored order |
| Errors.SurvivingIdempotent | src/error.hpp:90-104 | filtering again at the same time removes nothing more |
| Errors.ErrorsOf | src/error.hpp:100 | the returned errors are the kept packets' errors, in order |
| Errors.GetErrorSeverity | src/error.hpp:70-82 | none exactly for an empty list; otherwise the severity of some element and minimal in the order DEBUG < UNRECOVERABLE < RECOVERABLE < WARNING |
| Errors.ErrorHandler.constructor | src/error.hpp:59 | the store starts empty |
| Errors.ErrorHandler.Init | src/error.hpp:62-64 | `init` empties the store |
| Errors.ErrorHandler.ThrowError | src/error.hpp:66-68 | one packet is appended, stamped `now`, with the table entry of the error |
| Errors.ErrorHandler.GetErrors | src/error.hpp:84-105 | expired warnings are erased from the store, and the errors of the kept packets are returned in stored order |
| GameState.Visible | src/state.cpp:170 | the visible log is the prefix of length \|actions\| - undo_by |
| GameState.DropUndone | src/state.cpp:12-17 | `handleUndoClear` leaves exactly the visible actions and undo_by 0 |
| GameState.Recompute | src/state.cpp:30-43 | a replay error keeps state and snapshot and returns the error; success stores the replay of the visible log |
| GameState.Appended | src/state.cpp:134-147 | after appending, undo_by is 0 and the log is the old visible log plus the action |
| GameState.Cleared | src/state.cpp:19-24 | `clear` gives an empty log, undo_by 0 and a consistent empty board |
| GameState.UndoSpec | src/state.cpp:49-70 | undo is refused exactly when everything is undone; otherwise undo_by grows by one; on an error the snapshot is kept |
| GameState.RedoSpec | src/state.cpp:26-47 | redo is refused exactly when nothing is undone; otherwise undo_by shrinks by one; on an error the snapshot is kept |
| GameState.LastPass | src/state.cpp:76-91 | the colour of the last visible action when that action is a Pass, none otherwise |
| GameState.PassSpec | src/state.cpp:72-112 | pass is refused exactly when the game has ended or the last visible action is a Pass of the same colour; otherwise the Pass becomes the last visible action |
| GameState.PassAsWritten | src/state.cpp:72-112 | as written, pass appends behind the whole log and leaves undo_by unchanged |
| GameState.AddStoneSpec | src/state.cpp:114-166 | a refusal changes nothing; an accepted placement leaves undo_by 0 and one more action than was visible |
| GameState.AddStoneSpecMeaning | src/state.cpp:114-147 | the placement is refused exactly when the game has ended, the point is occupied, or nothing is captured and the stone's group would have no liberty; otherwise the log becomes the visible actions plus CaptureStones with the groups concatenated when something is captured, and plus AddStone when nothing is |
| GameState.CaptureCountAppend | src/state.cpp:168-186 | the capture count of a concatenated log is the sum of the counts |
| GameState.UndoThenRedo | src/state.cpp:26-70 | on a consistent game, a successful undo followed by redo restores the state exactly |
| GameState.RedoThenUndo | src/state.cpp:26-70 | on a consistent game, a successful redo followed by undo restores the state exactly |
| GameState.UndoKeepsConsistent | src/state.cpp:49-70 | undo never fails on a consistent game and keeps it consistent |
| GameState.RedoKeepsConsistent | src/state.cpp:26-47 | redo never fails on a consistent game and keeps it consistent |
| GameState.AppendedKeepsConsistent | src/state.cpp:134-163 | appending an action that applies gives a consistent game whose snapshot is that action's effect |
| GameState.PassKeepsConsistent | src/state.cpp:72-112 | pass never fails on a consistent game and keeps it consistent |
| GameState.CapturedStonesRemovable | src/state.cpp:124-139 | the stones a capture removes are on the board, on distinct points, and hold their colour after the placement |
| GameState.AddStoneKeepsConsistent | src/state.cpp:114-166 | a placement never fails on a consistent game and keeps it consistent |
| GameState.CaptureCountAfterCapture | src/state.cpp:127-139 | a capture adds the number of removed stones to its colour's count only |
| GameState.PassAsWrittenIndexOutOfRange | src/state.cpp:78-79 | undoing a one-action log reaches a state where pass reads index -1 |
| GameState.PassAsWrittenAgreesWhenNothingUndone | src/state.cpp:72-112 | with nothing undone, pass as written and the corrected pass give the same state and result |
| GameState.PassAsWrittenShowsUndone | src/state.cpp:94-100 | as written, pass after an undo hides its own Pass and shows the undone action again |
| GameState.FlattenGroups | src/state.cpp:130-133 | the removed-stones list is the captured groups concatenated in order |
| GameState.GoBoardState.constructor | src/state.hpp:75 | a new game is the cleared state of its size |
| GameState.GoBoardState.HandleUndoClear | src/state.cpp:12-17 | the new state is DropUndone of the old |
| GameState.GoBoardState.Clear | src/state.cpp:19-24 | the new state is Cleared |
| GameState.GoBoardState.Redo | src/state.cpp:26-47 | state and result are RedoSpec of the old state |
| GameState.GoBoardState.Undo | src/state.cpp:49-70 | state and result are UndoSpec of the old state |
| GameState.GoBoardState.Pass | src/state.cpp:72-112 | state and result are PassSpec of the old state |
| GameState.GoBoardState.AddStone | src/state.cpp:114-166 | the groups are the captured groups of the placement, in scan order, and state and result are AddStoneSpec of the old state |
| GameState.GoBoardState.Place | src/state.cpp:124-147 | on a free point of a running game, state and result are AddStoneSpec of the old state |
| GameState.GoBoardState.GetCaptures | src/state.cpp:168-186 | the sum of removed-list lengths over the visible captures made by that colour |
| GameState.GoBoardState.GetActions | src/state.hpp:84 | the whole log, undone actions included |
| GameState.GoBoardState.GetComputed | src/state.hpp:85 | the cached snapshot |
| Codec.ColourString | src/katago.hpp:94 | "B" exactly for Black |
| Codec.ColourOf | src/katago.hpp:77 | Black exactly for "B", White for anything else |
| Codec.StoneToMove | src/katago.hpp:88-97 | a move is a colour and a point of at least one character |
| Codec.MoveToStone | src/katago.hpp:76-86 | decoding succeeds exactly when the row number parses; the colour and x = size - row come from the move; y is the letter's distance from 'A', less one for letters after 'I' |
| Codec.ColumnLetterSkipsI | src/katago.hpp:90-91 | the column letter is 'A'+y below 8 and 'A'+y+1 from 8 on, lies in 'A'..'T' and is never 'I' |
| Codec.RowNumberInRange | src/katago.hpp:92 | the row number is the decimal string of size - x, in 1..size |
| Codec.MoveRoundTrip | src/katago.hpp:76-97 | decoding the encoding of any stone on the board gives it back |
| Codec.IAndJShareColumn | src/katago.hpp:79-80 | 'I' and 'J' both decode to column 8 |
| Codec.MoveQuery | src/katago.hpp:17-39 | the move query has exactly id, moves, rules "japanese", komi 6.5 and both board sizes equal to the size |
| Codec.EvaluationQuery | src/katago.hpp:43-71 | the evaluation query adds maxVisits 800, temperature 0.3, reduction 0.5 and includeOwnership true to the move query's fields |
| Numeric.StoiOfIntToString | src/katago.hpp:83-92 | reading back the decimal string of a row number gives the number |
| KataGo.MoveOfAction | src/katago.cpp:26-66 | NoAction contributes no move; every other action contributes one |
| KataGo.MovesOfAppend | src/katago.cpp:21-69 | the move list of a concatenation is the concatenation of the move lists |
| KataGo.MovesOfLength | src/katago.cpp:21-69 | one move per action other than NoAction |
| KataGo.MovesOfSplit | src/katago.cpp:21-69 | order is kept, and a NoAction anywhere is dropped without affecting the rest |
| KataGo.MoveOfActionDecodes | src/katago.cpp:31-58 | the move of AddStone or CaptureStones decodes to its stone; the move of a Pass is [colour, "pass"] |
| KataGo.GetMoves | src/katago.cpp:21-69 | the loop builds exactly the move list of the log |
| KataGo.ParseMove | src/katago.cpp:14-19 | the answer is [rootInfo.currentPlayer, moveInfos[0].move] exactly when both are present |
| KataGo.PlayOf | src/katago.cpp:127-138 | "pass" decodes to the colour, and any other move to its stone |
| KataGo.Loop | src/katago.cpp:110-139 | at most one query per answer, and one per answer on completion |
| KataGo.LoopCompletes | src/katago.cpp:110-147 | with all answers present, the loop completes after n queries and returns the last answer's move |
| KataGo.LoopGivesUp | src/katago.cpp:117-122 | at the first missing answer k, the loop stops with none after k + 1 queries |
| KataGo.LoopQueryMoves | src/katago.cpp:110-125 | query k carries the initial moves followed by the first k answers |
| KataGo.LoopRound | src/katago.cpp:110-139 | one round sends the query for the moves so far, then stops or continues with the answer appended |
| KataGo.KataGoClient.constructor | src/katago.cpp:71-89 | a new client is at level 5 and not busy |
| KataGo.KataGoClient.UpdateDiffLevel | src/katago.cpp:91-94 | the level must lie in 1..5 and is stored |
| KataGo.KataGoClient.NextNMoves | src/katago.cpp:96-148 | after an initialisation failure, nothing is sent and the result is none; otherwise the queries and result are those of the loop, and the busy flag stays set exactly when the loop gave up |
| KataGo.KataGoClient.GetEvaluation | src/katago.cpp:150-173 | after an initialisation failure, nothing is sent and the result is none; otherwise one evaluation query for the log's moves is sent and the engine's reply is returned |
| Engine.NewlineAt | src/katago_engine.cpp:188 | the position of the first '\n', none exactly when there is none |
| Engine.Frame | src/katago_engine.cpp:186-191 | after framing, neither the lines nor the rest contain '\n' |
| Engine.FrameJoin | src/katago_engine.cpp:186-191 | the lines, each followed by '\n', and then the rest give back the buffer |
| Engine.FrameOfJoin | src/katago_engine.cpp:186-191 | framing lines joined by '\n' gives those lines back, in order |
| Engine.ParsedAppend | src/katago_engine.cpp:192-202 | parsing the lines one by one keeps their order |
| Engine.ParsedDrops | src/katago_engine.cpp:192-202 | a line that does not parse is dropped without affecting the others |
| Engine.SentIsReceived | src/katago_engine.cpp:247-251 | what sendJSON writes is framed back into the same messages, in order |
| Engine.MoveReply | src/katago_engine.cpp:275-286 | the refusal that raises ENGINE_NOT_USABLE happens exactly when moveInfos is missing or empty or rootInfo.currentPlayer is missing; a move read has two parts |
| Engine.MoveReplyIsParseMove | src/katago_engine.cpp:275-286 | the transport reads a move exactly when parseMove does, and the same move |
| Engine.IntSqrt | src/katago_engine.cpp:301 | the truncated square root of the ownership length |
| Engine.OwnershipValuesLand | src/katago_engine.cpp:301-307 | on a square length, value i lands in cell (i / side, i % side) |
| Engine.OwnershipCellsFilled | src/katago_engine.cpp:301-307 | every cell (x, y) holds value x * side + y, so every cell is filled exactly once |
| Engine.FilledAll | src/katago_engine.cpp:302-307 | once all values are written, the grid is the ownership grid |
| Engine.FillOwnership | src/katago_engine.cpp:302-307 | the fill loop builds the ownership grid |
| Engine.OwnershipAsWrittenOverruns | src/katago_engine.cpp:301-307 | on a length that is not a square, value side * side goes to row side, which is past the grid |
| Engine.OwnershipOfTwoOverruns | src/katago_engine.cpp:301-307 | two values: the second goes to row 1 of a one-row grid |
| Engine.EvaluationReply | src/katago_engine.cpp:296-311 | refused (ENGINE_NOT_USABLE) exactly when ownership, rootInfo or rootInfo.scoreLead is missing or the ownership array's length is not a square; answered when the fields are present, the length is a square and every value and the score lead are numbers; a reply holds the score lead and an ownership grid whose side squared is the array's length, value i at (i / side, i % side) |
| Engine.KataGoEngine.constructor | src/katago_engine.cpp:28-52 | the buffer, the queue and the output start empty, with the initialisation flag given |
| Engine.KataGoEngine.ReadChunk | src/katago_engine.cpp:184-203 | the buffer becomes the framing rest of old buffer + chunk, and the parsing lines join the queue in order |
| Engine.KataGoEngine.SendJSON | src/katago_engine.cpp:247-258 | writes the serialisation and exactly one '\n'; writes nothing after an initialisation failure |
| Engine.KataGoEngine.GetJSON | src/katago_engine.cpp:260-266 | pops the oldest message (first in, first out) |
| Engine.KataGoEngine.GetNextMove | src/katago_engine.cpp:268-287 | after an initialisation failure, none with no error and no message consumed; otherwise the oldest message is consumed, the answer is MoveReply of it, and ENGINE_NOT_USABLE is raised exactly when it is refused |
| Engine.KataGoEngine.GetEvaluation | src/katago_engine.cpp:289-312 | after an initialisation failure, none with no error and no message consumed; otherwise the oldest message is consumed, the answer is EvaluationReply of it, and ENGINE_NOT_USABLE is raised exactly when it is refused |
| Settings.GetLevel | src/katago_settings.hpp:34-48 | 1 to 4 give their levels; 5 and every other number give level 5; never EVAL |
| Settings.LevelStringOfLevel | src/katago_settings.hpp:18-48 | getLevelString(getLevel(k)) is "LEVEL_" followed by k, for k in 1..5 |
| Settings.LevelStringInjective | src/katago_settings.hpp:18-32 | different levels have different names, and EVAL is named "LEVEL_5" |
| Settings.DefaultVisitsDecrease | src/katago_settings.cpp:10-30 | the default maxVisits strictly decreases from level 1 to level 5, and EVAL gets level 5's defaults |
| Settings.GetSetting | src/katago_settings.cpp:32-73 | the defaults when the file is unavailable, malformed or lacks the level; otherwise the file's entry |
| Settings.ApplyDiffLevel | src/katago_settings.cpp:75-80 | writes exactly maxVisits, rootPolicyTemperature and rootFpuReductionMax and keeps every other field |
| Settings.ApplyDiffLevelIdempotent | src/katago_settings.cpp:75-80 | applying a level twice is applying it once |
| Utils.Byte | src/utils.hpp:82-84 | a channel is a byte, equal to the parsed value when that value fits |
| Utils.StripHash | src/utils.hpp:75-78 | exactly one leading '#' is removed |
| Utils.Channel | src/utils.hpp:82-84 | a channel is a byte and exists exactly when its pair parses in base 16 |
| Utils.AlphaOf | src/utils.hpp:92-93 | the eight-digit alpha is 1 exactly for the pair 255, and 0 otherwise |
| Utils.HexToColor | src/utils.hpp:70-103 | a colour exactly when there are 6 or 8 characters after the '#' and every pair parses; r, g and b are the first three pairs read in base 16, as bytes; the six-digit form keeps alpha 1 and the eight-digit form takes alpha from the fourth pair |
| Utils.HexToSdlColor | src/utils.hpp:70-103 | the step-by-step parser computes HexToColor |
| Utils.HexToColorRoundTrip | src/utils.hpp:80-85 | "#RRGGBB" written from three bytes parses back to them with alpha 1 |
| Utils.HexToColorRoundTrip8 | src/utils.hpp:88-93 | "#RRGGBBAA" written from four bytes parses back to the three colour channels, with the alpha of the fourth |
| Utils.HashIsOptional | src/utils.hpp:76-78 | a code parses the same with or without one leading '#' |
| Utils.SecondHashFails | src/utils.hpp:76-78 | a second '#' is not stripped, and the code is rejected |
| Groups.SortBy | src/test.hpp:18-23 | the sort result is a permutation of its input |
| Groups.SortSorted | src/test.hpp:18-23 | under a strict weak order, the sort result is sorted |
| Groups.SortUnique | src/test.hpp:18-23 | two permutations of elements that the order ranks pairwise sort to the same sequence |
| Groups.StoneWeakOrder | src/base.hpp:43-48 | GoStone's `<` is a strict weak order |
| Groups.LexWeakOrder | src/test.hpp:21-23 | vector comparison (lexicographic) over a strict weak order is a strict weak order |
| Groups.GroupWeakOrder | src/test.hpp:21-23 | comparing stone vectors is a strict weak order |
| Groups.SortEach | src/test.hpp:18-19 | sorting inside each group keeps the number of groups |
| Groups.SortStonesOfEach | src/test.hpp:18-19 | the for-loop sorts the stones of every group |
| Groups.AreGroupsEqual | src/test.hpp:9-26 | true exactly when both lists have the same canonical form (stones sorted in each group, then groups sorted) |
| Groups.CanonicalIsSorted | src/test.hpp:22-23 | the canonical form is sorted group by group and as a list |
| Groups.CanonicalIgnoresStoneOrder | src/test.hpp:18-19 | permuting the stones of one group on distinct points does not change the result |
| Groups.CanonicalIgnoresGroupOrder | src/test.hpp:22-23 | permuting the groups, with distinct positions, does not change the result |
| Groups.SingleGroupsEqual | src/test.hpp:9-26 | two single groups on distinct points holding the same stones compare equal |
| Fixtures.BoardsWellFormed | src/test.hpp:49-60 | the two fixture grids are 9-by-9 |
| Fixtures.CaptureFixture0 | src/test.hpp:62-69 | any correct capture result for Black at (4,5) compares equal to the six-stone White group expected |
| Fixtures.Capture0Directions | src/test.hpp:66-67 | Black at (4,5) captures in direction 0 (DIRECTION_UP) and in no other direction |
| Fixtures.CaptureFixture1 | src/test.hpp:74-80 | any correct capture result for Black at (1,8) compares equal to {(0,8)} |
| Fixtures.CaptureFixture2 | src/test.hpp:84-92 | any correct capture result for Black at (7,7) compares equal to {(8,5),(8,6),(8,7)} |
| Fixtures.TestCaptureGroups | src/test.hpp:48-99 | the three capture tests pass |
| Fixtures.Placement0 | src/test.hpp:115-116 | White at (1,0) has no liberty, ignoring capture |
| Fixtures.Placement1Captures | src/test.hpp:119-120 | White at (8,1) captures in direction 0 (DIRECTION_UP), which makes the placement valid |
| Fixtures.Placement2 | src/test.hpp:123-124 | White at (3,3) keeps a liberty |
| Fixtures.Placement3 | src/test.hpp:127-128 | White at (1,7) has no liberty, ignoring capture |
| Fixtures.TestValidPlacement | src/test.hpp:101-137 | the four placement tests pass |
| Fixtures.TestValidKatago | src/test.hpp:139-156 | Black (4,8) on 9x9 is written in column 'J' and decodes back to itself |
| Fixtures.IsTestPassed | src/test.hpp:165-172 | every self-test passes |

## Left out

- Rendering, input handling, sound, theme and config loading, and the main loop are not part of this model. They are SDL user-interface code. The `playCapture` call inside `addStone` is a no-op here.
- `undo.hpp` is not part of this model. It is dead code that nothing in the core uses.
- Process spawning, pipes, `select`/`PeekNamedPipe`, the reader thread, and the mutex and condition variable are left out. The reader loop is modelled one chunk at a time, sequentially.
- `getJSON` waits until a message is queued. The model instead requires a non-empty queue, because blocking cannot be expressed.
- Concurrency around `is_busy` is left out. The atomic `is_busy` is an ordinary field, and `work_mutex` is not modelled.
- The JSON library is not part of this model. Only the value shapes the core reads are modelled. The parser and serialiser are parameters.
- Library exceptions are not modelled. Where the library would throw (a missing key, a string read as a number, `std::stoi` on non-digits), the model returns none or `TypeError`.
- KataGo.KataGoClient.NextNMoves: the `addDiffLevelToKatagoRequest` helper is a parameter `tune`, because its source is not part of this model. The query ids from `genRandomString` are also a parameter, because they are random.
- KataGo.KataGoClient.GetEvaluation: the engine's evaluation reply is a parameter, because it travels through the process pipe. `Engine.KataGoEngine.GetEvaluation` models how that reply is read.
- KataGo.PlayOf: an empty move string gives none. The source would read the terminating NUL and then throw in `std::stoi`.
- Floating-point payloads are opaque values: komi, temperatures, score lead and ownership values. The model does not reason about them numerically.
- Utils.AlphaOf: the eight-digit alpha is modelled as the integer truncation of pair/255. This is exact for the integers 0..255, but floating-point rounding is not modelled.
- The clock `getCurrentMillis` is a parameter `now`.
- Errors.ErrorHandler.GetErrors: the `erase` inside the loop is modelled as removing that packet and going on with the next one. The iterator invalidation is not modelled.
- Board.SnapshotEqualsIffSameCells: the lemmas about snapshot `==` assume well-formed square grids. For a ragged grid of the same outer size, the source's loop could read out of range.
- Drawing geometry is left out: `GetGoBoardInfo`, `isPointInCircle` and `getBoardCellFromPoint`. These compute on floats.
- Ko is not enforced: `computeIfKo` is modelled as a query only. Nothing in the game calls it, and `GAME_IN_KO` is never raised.
- KataGo.KataGoClient.NextNMoves: requires n >= 0. In the source, a negative n makes `while (n--)` keep querying until n passes INT_MIN, which is a signed overflow. That path is not modelled.
- Settings.GetSetting: a level entry in the file is abstracted as a complete record. The source fills each key the entry lacks with fixed defaults: maxVisits 20, rootPolicyTemperature 1.4 and rootFpuReductionMax 0.0. These are the same for every level, not that level's `getDefaultSetting`. The model does not capture this per-key fallback.
- Utils.HexToColor: the six-digit form sets alpha to 1 and the eight-digit form to pair/255 truncated. Both land on a 0..255 byte, so 1 is nearly transparent, although the source comment calls it fully opaque. The model keeps the source's values.
- The console output of `printTestResult` and the `std::cout` traces in `nextNMoves` are left out.
- Groups.SortBy: `std::sort` is modelled by one particular sort (insertion). The uniqueness lemma `SortUnique` argues from distinct positions only. Two stones on the same point with different colours are unordered, and `std::sort` may leave them in either order.
- `Engine.EvaluationReply` and `Engine.KataGoEngine.GetEvaluation` refuse an ownership array whose length is not a square. See Findings: the code as written overruns there.
- The `GoBoardState` model follows `PassSpec`, which forgets the undone actions before appending the Pass. See Findings for the pass as written.

## Findings

| source | as written | input that shows it | evidently intended | confidence | as-written member | corrected member |
|---|---|---|---|---|---|---|
| src/state.cpp:78-79 | `pass` reads `actions[size - undo_by - 1]` whenever the log is non-empty | a log of one action, undone once, then `pass`: index -1 | read the last visible action only when one exists | not executed | GameState.PassAsWrittenIndexOutOfRange | GameState.PassSpec |
| src/state.cpp:93-100 | `pass` appends its Pass behind the undone actions and leaves `undo_by` unchanged | log [a, b] with b undone, then `pass(t)`: the visible log becomes [a, b] and the new Pass stays hidden | forget the undone actions first, as `addStone` does, so the Pass is visible | not executed | GameState.PassAsWrittenShowsUndone | GameState.GoBoardState.Pass |
| src/katago_engine.cpp:301-307 | the side is the truncated square root of the ownership length, and every value is written to (i / side, i % side) | an ownership array of 2 values: the second goes to row 1 of a 1-by-1 grid | refuse a length that is not a square | not executed | Engine.OwnershipOfTwoOverruns | Engine.EvaluationReply |
