# Knight's Tour: a verified model

The Knight's Tour project has two halves:
- a browser game, `CavaloSolitario`, where a player moves a knight across an n-by-n board and keeps a leaderboard;
- a reinforcement-learning side: a Gym-style environment, a DQN agent, a training script, a registry of trained weights files, and a Flask server that answers hint and playout requests from the game.

This Dafny project models the core of both halves and proves what each promises.

- `knight_moves.dfy`: the eight knight offsets, in the order both halves list them.
  - Proved: they are exactly the knight moves, and different actions lead to different squares.
- `knight_env.dfy`: the environment, `KnightTourEnv`, as a class over an `array2<int>` board (0 empty, 1 visited, 2 knight).
  - `reset`, `step`, the move mask, the legal-destination board and the observation are methods.
  - Proved: the mask holds exactly the legal moves.
  - Proved: `step` keeps the tour invariant. The path is a knight path of distinct squares; the board marks exactly the path, with the knight on its last square; the visited count is the path's length.
  - Proved: the count reaches the board size exactly when no cell is empty, so `win` is a full board.
  - Rewards: an invalid move gets -2 and leaves everything unchanged; a progress move gets a reward in [1, 6); a stuck position gets -10.
  - The completing move is rewarded `-1.0 * (total - visited)`, which is 0. The model keeps that value.
- `dqn_agent.dfy`: the agent, as a class. The network is opaque; it is a pair of function parameters (`predict`, `fit`) over abstract weights.
  - Replay memory: a deque with `maxlen` 50000.
  - `act`: the random draw is a parameter. Exploration picks a legal move whenever one exists. Exploitation is the masked `argmax`: the first highest-scoring legal action.
  - `replay`: the TD targets. A terminal transition keeps its reward; any other adds `gamma` times the target network's maximum.
  - Epsilon decay has no clamp. It can end below `epsilon_min`: `EpsilonUndershootsMinimum` exhibits one such value.
  - `update_target_model`, `load`.
- `model_config.py` is modelled in `model_config.dfy`. The filesystem is a parameter: the list of existing paths, in listing order.
  - `get_model_path` looks, in order, at the best file, then the fallback list, then the `*.h5` file with the highest `_e` episode number, then gives `None`.
  - Also modelled: `_is_fallback_model`, `get_model_info`, `list_available_sizes` and `update_best_model`.
- `app.dfy` models the Flask server, `app.py`:
  - the 400/500 validation;
  - the agent cache;
  - the grid decoding into a fresh environment;
  - `/predict`: the hint is a legal move whenever one exists;
  - `/play_with_ai`: the playout never exceeds the board, so its `2 * n * n` safety limit is never reached, and it reports success exactly when every square is visited.
- `train.dfy` models the training script, `train.py`:
  - the episode loop and the log rows;
  - the `last_100` window and the per-hundred summaries;
  - the epsilon restart;
  - the checkpoint and final paths.
  - Proved: on the 6x6 board the centre always has a move, so no invalid move is ever taken.
  - Proved: when a run's checkpoints and its final file are all that exist in the 6x6 directory, and no fallback list covers 6x6, the registry's fallback search picks the latest checkpoint.
- Game files:
  - `game_rules.dfy`: the game's rules as values.
  - `leaderboard.dfy`: the records, the top-5 list and `formatTime`.
  - `cavalo_game.dfy`: the game class, with `handleCellClick`, `placeKnight`, `moveKnight`, `undoMove`, Warnsdorff's `getBestMove`, and the `getAIHint` grid encoding.
- Shared helpers: `sequences.dfy` holds sliding windows, `text.dfy` decimal numerals, padding and string splitting, and `wrappers.dfy` the `Option` type.

Where a source comment and the code disagree, the model follows the code:
- The epsilon restart checks only the win of the episode that closes each thousand, not the whole thousand. It sets epsilon to `max(epsilon, 0.2)`, although the message it prints says 0.1.
- The game ends a move with `checkWinCondition` as written (see "## Findings"). A completed closed tour is therefore lost and no score is recorded. The intended check is defined and proved beside it, in `CheckWinCondition`.
- On a 3x3 board the centre has no knight move. There, every step is an invalid move, and an episode runs its full thousand steps.

## Model

| member | source | states |
|---|---|---|
| KnightMoves.InBounds | script.js:187-189 | a square is on the board when both coordinates lie in [0, n); the same test as RL/knight_env.py:107 |
| KnightMoves.DeltasAreKnightMoves | RL/knight_env.py:18-21 | every entry of the move table is a knight move, and every knight move is an entry |
| KnightMoves.DestInjective | RL/knight_env.py:18-21 | two different actions from the same square reach different squares |
| KnightMoves.KnightPathSnoc | RL/knight_env.py:82-86 | appending a knight move's destination extends a knight path |
| KnightMoves.CellsCard | RL/knight_env.py:16 | the board has `board_size * board_size` squares |
| KnightMoves.FullSubset | script.js:243-256 | a set of board squares has at most n*n members, and has n*n exactly when it is the whole board |
| Sequences.Push | RL/dqn_agent.py:17 | appending to a bounded deque keeps at most `maxlen` elements: the last `maxlen` of the history |
| Sequences.PushAll | RL/dqn_agent.py:17 | pushing elements one at a time never exceeds the bound |
| Sequences.PushAllIsWindow | RL/train.py:105-117 | appending then dropping the oldest past 100 leaves exactly the last 100 episodes |
| Sequences.WindowOfWindow | RL/train.py:115-117 | windowing the window and then appending is the same as windowing the whole history |
| Sequences.DistinctSnoc | script.js:125 | adding a new square keeps the history free of repeats and adds it to the set |
| Sequences.DistinctCard | script.js:245 | a history without repeats has as many squares as its set |
| Text.DigitChar | RL/model_config.py:69 | a digit value becomes a digit character |
| Text.NatToString | RL/model_config.py:69 | `str(n)` is a non-empty digit string without a leading zero |
| Text.ParseNatToString | RL/model_config.py:169 | `int(str(n)) == n`: the size key's numeral reads back |
| Text.LeadingZero | script.js:346 | a leading zero does not change a numeral's value |
| Text.PadStart | script.js:346 | `padStart` gives the target width or the string, whichever is longer, ending with the original |
| Text.PadZerosValue | script.js:346 | zero-padding keeps a numeral's value |
| Text.IndexOf | RL/model_config.py:118-119 | the first occurrence of `_e`, or none |
| Text.PadStartFills | script.js:346 | every character `padStart` adds in front is the fill character |
| Text.FirstField | RL/model_config.py:118 | `split(sep)[0]` is the prefix in which no separator starts, ending at the first separator, or the whole string exactly when there is none |
| Text.SecondField | RL/model_config.py:118 | `split(sep)[1]` exists exactly when the separator occurs |
| Text.SecondFieldFollowsFirst | RL/model_config.py:118 | `split(sep)[1]` starts right after the separator that ends the first field and runs up to the next separator |
| Text.FirstFieldOfDigits | RL/model_config.py:169 | the field before `x` of `"{n}x{n}"` is the numeral |
| GameRules.Squares | script.js:126 | the squares of the move history, in order |
| GameRules.MovesBeforeMembers | script.js:175-182 | the first k moves of the loop collect exactly the free squares reached by the first k offsets |
| GameRules.MovesBeforeLength | script.js:175-182 | at most one square per offset |
| GameRules.MovesBeforeDistinct | script.js:175-182 | no square is listed twice |
| GameRules.PossibleMoves | script.js:168-185 | the on-board, unvisited destinations of the eight offsets, in offset order; `PossibleMovesAre` states what it holds |
| GameRules.PossibleMovesAre | script.js:168-189 | a square is possible exactly when it is on the board, unvisited and a knight move away; at most eight, without repeats |
| GameRules.VisitedIsElements | script.js:125 | the visited set holds exactly the history's squares |
| GameRules.FreshIsDistinct | script.js:149 | no square of the history is listed twice |
| GameRules.PathIsKnightPath | script.js:117-118 | each history square is on the board and a knight move from the one before |
| GameRules.IncreasingNumbers | script.js:126 | the move numbers start at 1 and increase |
| GameRules.VisitedSize | script.js:245 | `visited.size` equals the history's length |
| GameRules.VisitedHas | script.js:250 | every history square is visited |
| GameRules.PathOnBoard | script.js:187-189 | the visited squares are on the board |
| GameRules.GameStateSize | script.js:243-245 | in any game state the visited squares are on the board, one per history entry |
| GameRules.GamePlace | script.js:123-126 | placing the knight starts a valid one-square game numbered 1 |
| GameRules.GameAdvance | script.js:137-151 | a legal move keeps the game valid, adding the square with number `moveCount + 1` |
| GameRules.GameRetract | script.js:287-301 | undoing the last square keeps the game valid and removes exactly that square |
| Leaderboard.Insert | script.js:404 | inserting keeps the records as a permutation, one longer |
| Leaderboard.SortedSnoc | script.js:404 | appending a record that ranks last keeps the list sorted |
| Leaderboard.SortedBelow | script.js:404 | every record of a sorted list ranks no later than one its last record does not rank behind |
| Leaderboard.SortedInit | script.js:404 | a sorted list without its last record is sorted |
| Leaderboard.InsertBelow | script.js:404 | insertion keeps an upper bound shared by every record |
| Leaderboard.InsertKeepsSorted | script.js:404 | insertion keeps the order of time, then moves |
| Leaderboard.SortScores | script.js:404 | the sort is a permutation |
| Leaderboard.SortScoresSorted | script.js:404 | the sort orders by time, then by moves |
| Leaderboard.AddScore | script.js:401-405 | push, sort, slice: at most five records, sorted, all drawn from the old list and the new one |
| Leaderboard.AddScoreKeepsBest | script.js:401-405 | a record survives while fewer than five remain, or when it ranks strictly ahead of the fifth |
| Leaderboard.AddScoreToShortList | script.js:401-405 | a new record always enters a list of fewer than five |
| Leaderboard.LeaderboardKey | script.js:388 | the key `{n}x{n}_{tourType}`; `LeaderboardKeySize` and `LeaderboardKeyInjective` state how it reads back |
| Leaderboard.LeaderboardKeySize | script.js:388 | the part of a key before `x` is the board size's numeral |
| Leaderboard.LeaderboardKeyInjective | script.js:388 | different sizes or tour types get different keys |
| Leaderboard.FormatTime | script.js:342-347 | `mm:ss`, whose two sides read back as the whole minutes and the remaining seconds |
| Leaderboard.Clock | script.js:346 | two zero-padded numerals around a colon read back as minutes and seconds |
| Leaderboard.PaddedReadsBack | script.js:346 | a zero-padded numeral reads back as its number |
| CavaloGame.CavaloSolitario.constructor | script.js:2-13 | an 8x8 open game, not started, with the stored leaderboard |
| CavaloGame.CavaloSolitario.VisitedMatchesHistory | script.js:7-8 | the visited set has one square per history entry, all on the board |
| CavaloGame.CavaloSolitario.StartNewGame | script.js:67-80 | the chosen size and tour type, an active game with no knight, nothing visited, count 0 |
| CavaloGame.CavaloSolitario.GetPossibleMoves | script.js:168-185 | the loop's moves are the possible moves of the rules |
| CavaloGame.CavaloSolitario.ClosedTourNeverWins | script.js:243-260 | as written, a closed tour never wins; an open tour wins exactly as intended |
| CavaloGame.CavaloSolitario.CheckWinConditionAsWritten | script.js:243-260 | as written: an open tour wins when every square is visited; a closed tour additionally needs the start square among the possible moves; `ClosedTourNeverWins` states what follows |
| CavaloGame.CavaloSolitario.CheckWinCondition | script.js:243-260 | as intended: every square visited and, for a closed tour, the start a knight move from the knight; `WinMeansCompleteTour` states what it means |
| CavaloGame.CavaloSolitario.WinMeansCompleteTour | script.js:243-260 | the intended check: the history covers the board and, for a closed tour, ends a knight move from its start |
| CavaloGame.CavaloSolitario.OnwardCount | script.js:233 | the onward count is the number of possible moves from the square, at most eight |
| CavaloGame.CavaloSolitario.GetBestMove | script.js:227-241 | Warnsdorff's rule: none exactly when there are no candidates; otherwise the first candidate with the fewest onward moves |
| CavaloGame.CavaloSolitario.PlaceKnight | script.js:123-135 | the knight on the clicked square, which is the only visited one, with move number 1 |
| CavaloGame.CavaloSolitario.SaveToLeaderboard | script.js:387-409 | the record joins the list under the game's key, which keeps its best five |
| CavaloGame.CavaloSolitario.Advance | script.js:137-151 | the move adds the square, counts one move and numbers it `moveCount + 1` |
| CavaloGame.CavaloSolitario.HandleVictory | script.js:262-279 | the game stops and its time and moves enter the leaderboard |
| CavaloGame.CavaloSolitario.HandleGameOver | script.js:281-285 | the game stops and nothing is recorded |
| CavaloGame.CavaloSolitario.EndOfMove | script.js:160-165 | won exactly when the as-written win check holds, and then the game stops and the score enters the leaderboard; lost, with the game stopped and nothing recorded, exactly when it fails and no move remains; otherwise play goes on |
| CavaloGame.CavaloSolitario.MoveKnight | script.js:137-166 | the knight moves to an unvisited knight-move square, the count grows by one and the history gets the square; won, lost or moved on as the as-written win check and the remaining moves say, with the leaderboard updated only on a win; a closed tour is never won |
| CavaloGame.CavaloSolitario.HandleCellClick | script.js:106-121 | ignored when inactive; with no knight, a placement that keeps the count, the game state and the leaderboard; a move exactly when the square is a possible move, with every effect of `MoveKnight`; otherwise nothing changes |
| CavaloGame.CavaloSolitario.UndoMove | script.js:287-312 | with two or more squares, drops the last from the history and the visited set and returns the knight; the move count stays |
| CavaloGame.CavaloSolitario.EncodeState | script.js:461-475 | the grid holds 2 on the knight, 1 on other visited squares and 0 elsewhere |
| CavaloGame.CavaloSolitario.AIHintRequest | script.js:451-475 | a request only with a knight on a 5x5 board, carrying the encoded grid |
| CavaloGame.ClosedTourRejected | script.js:247-253 | a completed closed tour is declared won by the intended check and not by the check as written |
| KnightEnv.ProgressReward | RL/knight_env.py:81 | a progress move's reward lies in [1, 6) |
| KnightEnv.WinReward | RL/knight_env.py:89-93 | the completing move's reward is 0, and would be negative before the board is full |
| KnightEnv.Stacked | RL/knight_env.py:61 | the three channels stacked cell by cell into an (n, n, 3) state |
| KnightEnv.KnightTourEnv.MarkedMember | RL/knight_env.py:110 | a square is marked exactly when it is on the board and its cell is non-zero |
| KnightEnv.KnightTourEnv.ValidIsConsistent | RL/knight_env.py:82-87 | the tour invariant implies the counting invariant |
| KnightEnv.KnightTourEnv.WinIffFull | RL/knight_env.py:89 | the visited count never exceeds the board, and equals it exactly when no cell is empty |
| KnightEnv.KnightTourEnv.constructor | RL/knight_env.py:12-32 | a fresh board with the knight alone on the centre; the tour invariant holds |
| KnightEnv.KnightTourEnv.Reset | RL/knight_env.py:34-51 | a fresh zero board with 2 on the centre, path `[centre]`, count 1; the tour invariant and an observation |
| KnightEnv.KnightTourEnv.GetValidMovesMask | RL/knight_env.py:114-120 | entry i is true exactly when move i lands on an empty square of the board |
| KnightEnv.KnightTourEnv.GetValidMovesBoard | RL/knight_env.py:122-129 | 1.0 exactly on the squares that a legal move reaches |
| KnightEnv.KnightTourEnv.LegalBeforeSome | RL/knight_env.py:124-128 | a square is marked by the first k moves exactly when one of them is legal and reaches it |
| KnightEnv.KnightTourEnv.HasValidMoves | RL/knight_env.py:131-133 | true exactly when some move is legal |
| KnightEnv.KnightTourEnv.GetObservation | RL/knight_env.py:53-61 | the knight one-hot, the visited cells and the legal destinations |
| KnightEnv.KnightTourEnv.IsValidMove | RL/knight_env.py:103-112 | a move is valid when the square is on the board and its cell is 0 |
| KnightEnv.KnightTourEnv.Step | RL/knight_env.py:63-101 | an invalid move gets -2 and changes nothing; a legal one advances the knight; win exactly at a full board, stuck with -10 when no move remains; the invariant is kept |
| KnightEnv.KnightTourEnv.Transition | RL/knight_env.py:63-101 | the state change of `step` before the observation is built: an invalid move gets -2 and changes nothing; a legal one marks the old square 1 and the new one 2 and grows path and count by one; a full board wins with 0, no remaining move gives Stuck and -10, otherwise the progress reward; the invariants are kept |
| KnightEnv.KnightTourEnv.Advance | RL/knight_env.py:82-87 | the old square becomes 1, the new one 2, the path and the count grow by one, nothing else changes |
| KnightEnv.KnightTourEnv.MoveMarker | RL/knight_env.py:82-84 | the board half of a move: the marked squares grow by the destination, the knight stays unique |
| KnightEnv.ObservedState | RL/app.py:189 | the stacked observation has one row per board row |
| DqnAgent.Masked | RL/dqn_agent.py:70 | masked-out actions become minus infinity and the others keep their values |
| DqnAgent.ArgMax | RL/dqn_agent.py:73 | the first index of a maximal score |
| DqnAgent.Greedy | RL/dqn_agent.py:66-73 | a legal action whenever one exists, scoring highest among the legal ones and strictly above the earlier ones; 0 when none is legal |
| DqnAgent.MaxOf | RL/dqn_agent.py:99 | `np.amax`: a member of the row, at least every entry |
| DqnAgent.TdTargets | RL/dqn_agent.py:94-99 | the online predictions with the taken action's value replaced: the reward when done, else reward plus gamma times the target network's maximum |
| DqnAgent.DecayedEpsilon | RL/dqn_agent.py:103-104 | unchanged at or below the minimum; above it, multiplied by `epsilon_decay`, which keeps it above `epsilon_min * decay` |
| DqnAgent.EpsilonFloor | RL/dqn_agent.py:103-104 | any number of decays stays between `epsilon_min * decay` and the start |
| DqnAgent.EpsilonUndershootsMinimum | RL/dqn_agent.py:103-104 | with the default parameters, epsilon 0.01005 decays to below 0.01 |
| DqnAgent.Select | RL/dqn_agent.py:82 | the sampled memory entries in the drawn order |
| DqnAgent.DQNAgent.constructor | RL/dqn_agent.py:13-28 | the hyper-parameters as given, an empty memory, and the target network synchronised with the online one |
| DqnAgent.DQNAgent.UpdateTargetModel | RL/dqn_agent.py:46-48 | the target weights become the online weights; nothing else changes |
| DqnAgent.DQNAgent.Load | RL/dqn_agent.py:106-109 | both networks hold the loaded weights |
| DqnAgent.DQNAgent.Remember | RL/dqn_agent.py:50-52 | the transition is appended; past 50000 entries the oldest is dropped |
| DqnAgent.DQNAgent.Act | RL/dqn_agent.py:54-73 | explores exactly when the draw is at most epsilon, then picks a legal action if any exists; otherwise the greedy masked action |
| DqnAgent.DQNAgent.Predictions | RL/dqn_agent.py:91-93 | one prediction per state |
| DqnAgent.DQNAgent.Replay | RL/dqn_agent.py:75-104 | nothing below a full batch; otherwise `fit` on the TD targets of a sample, and the decayed epsilon; the memory is unchanged |
| DqnAgent.StatesOf | RL/dqn_agent.py:84 | the batch's states in order |
| ModelConfig.SizeKey | RL/model_config.py:67-69 | the key `{n}x{n}`; `SizeKeyReadsBack` and `SizeKeyInjective` state how it reads back |
| ModelConfig.SizeKeyReadsBack | RL/model_config.py:169 | `int(size_key.split('x')[0])` recovers the size |
| ModelConfig.SizeKeyInjective | RL/model_config.py:67-69 | different sizes get different keys |
| ModelConfig.Join | RL/model_config.py:83-87 | `os.path.join` adds one separator before a relative name |
| ModelConfig.Glob | RL/model_config.py:111-112 | the glob returns exactly the existing `*.h5` files of the directory |
| ModelConfig.EpisodeKey | RL/model_config.py:117-121 | the sort key of a globbed file; a name without `_e` gets 0 |
| ModelConfig.EpisodeKeys | RL/model_config.py:117-121 | the sort key of every globbed file |
| ModelConfig.FirstHighest | RL/model_config.py:117-122 | the stable descending sort puts first the first file with the highest key |
| ModelConfig.LastResort | RL/model_config.py:110-126 | none exactly when the glob is empty; otherwise an existing `*.h5` file: when every key parses, one with the highest key and every earlier listed file strictly lower (the stable descending sort); when some key fails to parse, the first listed file |
| ModelConfig.FirstExisting | RL/model_config.py:100-108 | an existing file joined from a listed name; none exactly when none exists; `FirstExistingIsFirst` gives the list order |
| ModelConfig.FirstExistingIsFirst | RL/model_config.py:100-108 | the file found is the first listed fallback that exists: every name listed before it is missing |
| ModelConfig.SortedInsert | RL/model_config.py:173 | `sorted` as insertion: same members, ascending |
| ModelConfig.HeadBelow | RL/model_config.py:173 | the head of an ascending list stays below the rest |
| ModelConfig.ModelConfig.constructor | RL/model_config.py:14-65 | the 5x5 champion, three sizes without a file, and for 5x5 only the fallbacks e5900, e6400, e5700 in that order |
| ModelConfig.ModelConfig.Lookup | RL/model_config.py:71-94 | the best file whenever it exists; otherwise the fallback search's result; any path returned exists (the cases without a path are stated by ModelConfig.ModelConfig.LookupMeaning) |
| ModelConfig.ModelConfig.Fallback | RL/model_config.py:96-126 | a listed fallback that exists beats the glob, and the one taken is `FirstExisting`'s, the first in list order; with none existing, the last resort; any path found exists, and none exactly when every fallback is missing and the glob is empty |
| ModelConfig.ModelConfig.LookupMeaning | RL/model_config.py:71-126 | no path for an unknown size or one without a file; any path exists; none exactly when the best file, every fallback and every `*.h5` file are missing |
| ModelConfig.ModelConfig.FindFallbackModel | RL/model_config.py:96-126 | the loop returns `Fallback`: the first existing listed fallback, else the last resort |
| ModelConfig.ModelConfig.GetModelPath | RL/model_config.py:71-94 | returns `Lookup`: the best file when it exists, else the ordered fallback search |
| ModelConfig.ModelConfig.IsFallbackModel | RL/model_config.py:151-162 | only a found path can be flagged as a fallback |
| ModelConfig.ModelConfig.FallbackFlag | RL/model_config.py:151-162 | the best file is never flagged; any other path is flagged exactly when it does not end with the best file's name |
| ModelConfig.ModelConfig.GetModelInfo | RL/model_config.py:128-149 | unsupported exactly for unknown sizes; otherwise the entry, the lookup's path, available exactly when a path is found, and the fallback flag |
| ModelConfig.ModelConfig.ListAvailableSizes | RL/model_config.py:164-173 | strictly ascending, so each size once; exactly the table's sizes whose lookup finds a file |
| ModelConfig.ModelConfig.UpdateBestModel | RL/model_config.py:175-193 | the size's entry becomes the new one; the other sizes are unchanged |
| ModelConfig.ModelConfig.UpdatedModelIsUsed | RL/model_config.py:175-193 | after an update naming an existing file, the lookup returns that file |
| ModelConfig.Updated | RL/model_config.py:185-193 | the new entry holds the file and win rate, "Custom validation" when no range is given |
| App.Record | RL/app.py:114-123 | the reply's offset is the knight move of the action |
| App.CheckShape | RL/app.py:67-76 | no board: 400; not square: 400; empty or ragged: 500; otherwise the size |
| App.Kept | RL/app.py:94-102 | 1 and 2 are copied, any other value reads as empty |
| App.LastKnightUnique | RL/app.py:99-101 | the knight is the last 2 in row-major order, so it is unique |
| App.SetCell | RL/app.py:96-102 | writing a non-empty value into an empty cell marks exactly that square |
| App.KnightStep | RL/app.py:99-101 | a 2 becomes the knight, any other cell keeps the one found before |
| App.NextRow | RL/app.py:94-95 | the end of a row is the start of the next |
| App.DecodeCell | RL/app.py:96-102 | cell (r, c) is copied if it holds 1 or 2 |
| App.DecodeRow | RL/app.py:95-102 | a row's cells are copied left to right, the knight the last 2 met |
| App.DecodeBoard | RL/app.py:90-102 | the zeroed board receives the grid's 1s and 2s |
| App.DecodeInto | RL/app.py:88-105 | the board is the kept grid; the count is the number of kept cells; no knight exactly when the grid has no 2, otherwise the last 2 |
| App.DecodedComplete | RL/app.py:94-105 | once every square is read, the board, count and knight are the grid's |
| App.HintRequestDecodes | RL/app.py:88-105 | the game's hint request is a square grid that decodes to the game's knight and visited squares |
| App.NewDecoded | RL/app.py:166-184 | a fresh environment holding the posted grid |
| App.ChooseMove | RL/app.py:107-112 | the agent's action is legal whenever a legal move exists |
| App.PlayStep | RL/app.py:193-207 | a move is taken exactly when one is legal, adding one visited square |
| App.Play | RL/app.py:186-207 | one square per move, fewer moves than squares, ending on a full board or with no legal move |
| App.LoadedAgent | RL/app.py:36-39 | a fresh agent with epsilon 0 whose two networks hold the loaded weights |
| App.Server.constructor | RL/app.py:17-21 | an empty agent cache |
| App.Server.LoadAgentForSize | RL/app.py:17-55 | a cached size is answered from the cache; otherwise success exactly when the lookup finds a file that loads, and only a success is cached |
| App.Server.Prepare | RL/app.py:64-105 | shape errors first, then 400 when no agent loads, then 500 for a grid without a knight; otherwise the agent and the decoded environment |
| App.Server.Predict | RL/app.py:58-137 | the error statuses as above; the hint is a legal move whenever the posted grid has one |
| App.Server.PlayWithAI | RL/app.py:139-223 | the error statuses as above; the visited count is the kept cells plus the moves, at most n*n; success exactly at a full board |
| Train.TrainingBoardHasMove | RL/train.py:19 | the 6x6 centre has a knight move |
| Train.StartEpisode | RL/train.py:58 | a fresh episode with one visited square; a legal move exactly when the centre has one |
| Train.ChooseAction | RL/train.py:63-64 | the action is legal exactly when some move is |
| Train.StepEnv | RL/train.py:66-70 | invalid exactly when the action is illegal; a legal action adds one square |
| Train.EpisodeStep | RL/train.py:63-73 | invalid exactly when no move is legal; one transition remembered |
| Train.RunEpisode | RL/train.py:62-76 | 1 to 1000 steps; visited = 1 + steps - invalid; an early end is a full board or no move; no invalid move when the centre has one |
| Train.AverageReward | RL/train.py:88 | `avg_reward * score == total_reward` |
| Train.WinFlag | RL/train.py:89 | 1 exactly when every square was visited, otherwise 0 |
| Train.TrainEpisode | RL/train.py:58-113 | the row logs `score = time + 1` and `visited = score + 1`, win exactly at 36, no invalid moves; one transition remembered per step; the one replay decays epsilon exactly when the memory then holds 64 transitions, and otherwise leaves it; target synchronised when `e % 10 == 0` |
| Train.FirstPicks | RL/dqn_agent.py:82 | a sample of distinct positions exists whenever the memory holds a batch |
| Train.RestartedEpsilon | RL/train.py:120-123 | never lowers epsilon; raises it to at least 0.2 only when a thousandth episode is lost |
| Train.BestEpisode | RL/train.py:129 | `max` by (win, visited, -episode): ranks no lower than any entry and strictly above earlier ones |
| Train.WinsInGroup | RL/train.py:132 | at most the window's length; 0 exactly when no episode won |
| Train.WinsInGroupCounts | RL/train.py:132 | the count is the number of episodes of the window that were won |
| Train.WinsInGroupAdditive | RL/train.py:132 | the count over two stretches is the sum of the counts |
| Train.BestEpisodeStrict | RL/train.py:129-132 | with distinct episodes, the best ranks strictly above the others, and is a win when the group has one |
| Train.SummariesGrow | RL/train.py:127-136 | a summary is added exactly when an episode closes a hundred, for that hundred |
| Train.EpsilonsGrow | RL/dqn_agent.py:80-81 | a row whose epsilon is the previous row's restarted value, decayed exactly when the scores so far reach 64, extends the epsilon invariant |
| Train.ScoredGrows | RL/train.py:72-79 | the transitions remembered only grow, so once the memory holds a batch every later replay trains |
| Train.Checkpoints | RL/train.py:127-140 | one checkpoint per hundred episodes, named by its episode count |
| Train.CheckpointPrefix | RL/train.py:139 | the fixed start of a checkpoint path holds no `_e` |
| Train.FirstSeparatorAt | RL/model_config.py:118 | the first `_e` is where it occurs when none comes before |
| Train.NoSeparator | RL/model_config.py:119 | a string with no `_e` before or after a point has none |
| Train.EpisodeField | RL/model_config.py:118 | the numeral after `_e` reads back as the episode count |
| Train.CheckpointKey | RL/model_config.py:117-121 | a checkpoint's sort key is its episode count |
| Train.FinalKey | RL/train.py:145 | the final model's name has no `_e`, so its sort key is 0 |
| Train.GlobKeepsAll | RL/model_config.py:111-112 | when every file matches, the glob is the whole listing |
| Train.SavedNameMatches | RL/train.py:139 | a saved name is a `*.h5` file of the 6x6 directory |
| Train.SavedPathsMatch | RL/train.py:139-146 | every saved path matches the 6x6 glob |
| Train.SavedKeys | RL/train.py:139-146 | the saved paths' keys are the episode counts in order, then 0 |
| Train.HighestCheckpoint | RL/model_config.py:117-122 | keys rising by a hundred, then 0: the sort puts the last checkpoint first |
| Train.SavedGlob | RL/model_config.py:111-112 | the glob of the saved directory lists every saved path in order |
| Train.SavedHighest | RL/model_config.py:117-122 | the last checkpoint ranks first among the saved paths |
| Train.LatestCheckpointFound | RL/model_config.py:96-126 | with no 6x6 fallbacks, the fallback search over a run's saved files finds its last checkpoint |
| Train.LastResortOfSaved | RL/model_config.py:110-124 | the last-resort search over a run's saved files picks the last checkpoint |
| Train.RecordEpisode | RL/train.py:96-140 | the row is logged; the window is the last 100 rows; summaries and checkpoints follow the log |
| Train.Train | RL/train.py:33-146 | 10000 rows, each a logged episode; the first row keeps epsilon 1.0; each later row's epsilon is the previous one restarted and then decayed exactly when the scores of the episodes so far add up to 64; one summary per hundred; the checkpoints and then the final path |

## Left out

- The neural network (`_build_model`, `fit`, `predict`, `save_weights`, `load_weights`) is opaque. It appears as function parameters over abstract weights. A file that fails to load is a `None` from the loading parameter.
- Randomness is a parameter, or a nondeterministic choice with its range stated: `np.random.rand`, `random.choice`, `random.randrange` and `random.sample`.
- Not modelled:
  - the clock (`Date.now`, the timer);
  - the DOM, the modals, `render`, `print`;
  - CSV writing;
  - `localStorage` (the stored leaderboard is a constructor parameter);
  - `fetch`.
- `showHint` and `highlightPossibleMoves` (script.js:191-225) only highlight cells; their move choice is `GetBestMove` and `GetPossibleMoves`.
- `updateLeaderboard` (script.js:411-449) only renders the best record of each key. Only the key split is modelled, in `LeaderboardKeySize`.
- `model_status`, `print_status` and the module-level wrappers of model_config.py (lines 199-238) only report or forward.
- The grid is taken as a square list of lists of integers. Other request bodies are not modelled:
  - `np.array(..., dtype=np.int32)` truncates floats (2.7 becomes 2, read as the knight), turns booleans into 0 and 1, and parses numeric strings;
  - only non-numeric strings, `None` and ragged lists raise, which gives a 500;
  - 1-D and 3-D arrays are not modelled.
- The `basename` of the reply's `model_file` is not modelled.
- App.Kept: numbers are unbounded. The grid values come from the client, and a value outside the `int32` range raises on NumPy 2 or wraps on NumPy 1; the model reads every value other than 1 and 2 as an empty square. The environment's `int8` board only ever holds 0, 1 and 2.
- ModelConfig.EpisodeKey: `ParseNat` reads plain ASCII digit strings. Python's `int` also accepts a sign, surrounding spaces and underscores between digits. The glob matches any `*.h5` name, so a file such as `x_e+3.h5` in a size directory is sorted by 3 in Python, while the model finds its key unreadable and, as when the sort raises, takes the first listed file.
- KnightEnv.ObservedState: states only the shape of the stacked state, because the agent treats states as opaque inputs to the network.
- Train.TrainEpisode: states the target synchronisation for the episode that performs it. It does not follow the target weights across later episodes.
- Train.Train: the average of visited squares per group is only printed. It is not part of the summaries.

## Findings

| source | as written | input that shows it | evidently intended | confidence | as-written member | corrected member |
|---|---|---|---|---|---|---|
| script.js:247-253 | a closed tour wins when every square is visited and the start square is among `getPossibleMoves`, which lists only unvisited squares | a 6x6 closed game in which the player completes a closed tour: 36 squares, the last a knight move from the first; the start square is visited, so it is never a possible move and the game is declared lost | win when every square is visited and the current square is a knight move from the start | high (not executed) | CavaloGame.CavaloSolitario.CheckWinConditionAsWritten | CavaloGame.CavaloSolitario.CheckWinCondition |
