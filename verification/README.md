# KungFu Chess, verified

KungFu Chess is chess without turns: a move takes time, a jump guards its cell for a while, and
everything in flight is resolved against a clock. This project models the parts of the program
that decide what happens, and proves what they keep. Paths and lines below refer to the Python
sources.

`dafny verify dfyconfig.toml` checks everything.

## What is modelled

**The simulation** (`realtime/`). `RealTimeArbiter.advance_time` repeatedly picks the least due
candidate (an arrival, two motions meeting, or a motion passing over a piece) and resolves it.
`RealTime.dfy` and `Motions.dfy` keep the source's objects and loops; `Simulation.dfy` says on
values what they compute. A motion there is its timetable: one stop for each cell of its path.
`Motions.Motion` proves that the source's arithmetic on destination and arrival time is exactly
taking a prefix of that timetable. What is next is defined without any list or sort: the due
candidate with the least key.

**The engine** (`engine/`, `rules/`, `events/`). `Engine.GameEngine` is the source's object;
`Games.dfy` says on values what its requests and waits do and publish. The laws about whole games
(`Invariants`, `Ledger`, `Outcomes`, `Scores`, `Rests`, `JumpRests`, `Finality`) hold for every board with unique
ids and every sequence of moves, jumps, resignations and waits.

**The server** (`server/`). `RoomRegistries.dfy` and `Directories.dfy` keep the registry's dictionaries
and the directory's scripts; `Rooms.dfy` and `RoomRuns.dfy` state the agreement between them, alone
and beside other servers on the same directory. `Sessions.dfy` is the session, `Countdowns.dfy` its
disconnect countdown, `Matchmaking.dfy` the queue, `Ratings.dfy` the ELO arithmetic.

**Board text** (`board_io/`). `BoardText.dfy` writes, reads and closes the round trip.

Where code and documentation differ, the model follows the code. Four such places are results here:

- `tests/test_real_time_arbiter.py:240` promises the same result for one big `advance_time` as for
  several small ones. Cutting one call in two goes unnoticed, in state and reports, on every board
  with the given jumps, exactly when one of the two is for no time or no jump ends by the end of the
  second (`Splitting.SplitInvisibleExactly`). A jump that ended before the cut still intercepts in
  the one call but not after the cut (`Cuts.GuardOutlivesJump`); a guard captured after the cut is
  still reported as having ended its jump by the one call but not by the two (`Cuts.JumpEndsUntold`).
  State and arrivals alone agree exactly when nothing follows the cut or no jump ends before it
  (`Splitting.StateSplitsExactly`). All this is about `advance_time`: a cut in the engine's `wait` is
  noticed whenever a piece lands before it, since rests start at the end of a call.
- `tests/test_game_engine_events.py:427` says nothing is published once a game has ended. A wait
  of a finished game is silent exactly when it captures no king and brings no pawn to its last
  rank (`Finality.SilentExactly`). Otherwise it publishes a promotion (`Finality.PromotedAfterTheEnd`)
  or an ending again, which can name the other winner (`Finality.TwoWinners`). The rating hand-off
  ignores a second ending.
- The loop does not always work forward in time. A motion sent back to its source can be captured
  there by a motion that had passed that cell before it came back: `Homecoming.CapturedInThePast`
  plays such a game from its start, with the durations of `constants.py`. This is the only way, and
  it happens exactly when the piece does land at home and another motion has flown over it
  (`CleanStops.ResolveKeepsFront`, `CleanStops.HomeStop`).
- A board with rows but no columns is rendered as blank lines and read back as an empty board. A
  board is read back as itself exactly when it has a cell, or neither rows nor columns
  (`BoardText.SurvivesExactly`).

Piece ids are compared only for equality and order, so an id is an integer: its rank in the order
of the id strings. Users, connections, rooms, codes and servers are integers compared for equality.
Random room ids and join codes are inputs (`Rooms.Draw`), and so are elapsed times.

## Model

| member | source | states |
|---|---|---|
| Paths.PathShape | realtime/motion.py:36-48 | A path ends at its destination, visits no cell twice and never its source; it is empty only for a motion that goes nowhere. |
| Paths.PathPrefix | realtime/motion.py:36-48 | Aiming at a cell of one's own path gives the path up to that cell. |
| Paths.PathIsClear | rules/piece_rules.py:26-37 | For aligned cells the rules' own walk ends, and answers whether the board is empty on the motion's path short of its last cell. |
| Motions.TimetableValid | realtime/motion.py:50-53 | A motion at an even number of milliseconds a cell reaches distinct cells at rising times, the last at its arrival time. |
| Motions.ShorteningKeepsHistory | realtime/motion.py:55-62 | Re-aiming before cell k keeps the first k cells of the path and the time at which each is reached. |
| Motions.Motion.TimeAtCell | realtime/motion.py:50-53 | The time at a cell is the one in the timetable. |
| Motions.Motion.TruncateBefore | realtime/motion.py:55-62 | Shortening in place is taking a prefix of the timetable, through any number of shortenings. |
| Boards.Board.AddPiece | model/board.py:40-41 | The piece stands on its cell; whoever stood there is replaced. |
| Boards.Board.RemovePiece | model/board.py:43-51 | A piece is removed by id, wherever it stands. |
| Simulation.MeasureFalls | realtime/real_time_arbiter.py:70-83 | Pieces on the board plus path length plus two for each motion: this falls at every resolved candidate, in every state, so the loop ends. |
| SimulationLaws.NextNoneIffQuiet | realtime/real_time_arbiter.py:89-118 | The loop stops exactly when no arrival, collision or encounter is due. |
| SimulationLaws.KeyDetermines | realtime/real_time_arbiter.py:93-118 | Different candidates have different keys, so the choice never depends on the order of the motion list. |
| SimulationLaws.NextInOrder | realtime/real_time_arbiter.py:89-131 | What is next is never later than anything else due. At one time arrivals come last, smaller ids first, and of two meetings of the same pieces the one on the upper row, then to the left. |
| SimulationLaws.RunValid | realtime/real_time_arbiter.py:54-118 | After any run every piece is in one place, on the board or in flight. |
| SimulationLaws.RunQuiet | realtime/real_time_arbiter.py:70-83 | After a run to a time nothing is due by that time. |
| SimulationLaws.RunSplit | realtime/real_time_arbiter.py:54-118 | Running to one time and on to a later one is running to the later one, reports included. |
| Accounting.RunAccounts | realtime/real_time_arbiter.py:133-247 | Live pieces before are, each exactly once, the live pieces after, those reported captured and those dropped. |
| Reports.RunReports | realtime/real_time_arbiter.py:205-247 | Whatever stands on the board after a run stood there before or is reported landing there; every reported capture is by an enemy, or of oneself. |
| Presence.ResolveRightly | realtime/real_time_arbiter.py:133-247 | In every step the mover of every report is on the reported cell at exactly the time of the step. It captured an enemy that stands there unguarded, is passed over, or came there earlier; it destroyed itself against a guard or an enemy there at the same time; or the cell was empty. |
| Presence.ResolveCutsRightly | realtime/real_time_arbiter.py:133-228 | In every step a motion is stopped only by a friend, before the cell it would have reached at exactly the time of the step, and no other motion changes. |
| Presence.ResolveDropsRightly | realtime/real_time_arbiter.py:222-228 | Dropped is only a motion that is home again, on a cell taken by a friend. |
| Presence.RunInOrder | realtime/real_time_arbiter.py:54-118 | Over a whole call every mover reached the reported cell in its motion by the end of the call, or came home, and what it captured was there before it: nobody captures what came to the cell later. |
| Timing.SurvivorsAreWhole | realtime/real_time_arbiter.py:54-118 | What is in flight after a call was in flight, with the same timetable, before it: shortening is never visible between calls. |
| Timing.RunKeepsFuture | realtime/real_time_arbiter.py:89-118 | Until the time of its first cell nothing happens to a motion. |
| CleanStops.ResolveKeepsFront | realtime/real_time_arbiter.py:89-247 | After what is next at time t, nothing is due before t but the arrival of a motion this step shortened: always, but for a piece landing on its own source, and then exactly if no other motion flew over that source before t. |
| CleanStops.HomeKeepsFront | realtime/real_time_arbiter.py:222-247 | The same for any arrival at home, whatever else is late: destroyed, dropped, or landing where nothing had flown over. |
| CleanStops.ShortenedArrivesNext | realtime/real_time_arbiter.py:150-153 | When a friend shortens one motion, nothing is reported and its arrival is resolved next. |
| CleanStops.CleanStop | realtime/real_time_arbiter.py:175-177 | Stopped on a cell of its path, it lands there on an empty cell, captures and shortens nothing, and the rest is as far ahead in time as before. |
| CleanStops.HomeStop | realtime/real_time_arbiter.py:150-153 | Stopped before its first cell, it comes home; the rest is as far ahead in time as before exactly if it comes home quietly. |
| CleanStops.TieStop | realtime/real_time_arbiter.py:141-145 | At an exact tie of friends past the first cell of both, both stop short and land one right after the other on different empty cells. |
| CleanStops.TieNext | realtime/real_time_arbiter.py:141-145 | At any exact tie of friends, also on a first cell, nothing is reported, both are cut and their arrivals are resolved next in the order of their keys, the second unless the first comes home to where something had flown over. |
| Homecoming.CapturedInThePast | realtime/real_time_arbiter.py:222-228 | A game of three rooks played from its start: the walker, sent home at 3500, is captured there in the same call at 3000 by a motion that had flown over its home. |
| RealTime.RealTimeArbiter.CollisionBetween | realtime/real_time_arbiter.py:120-131 | Finds the meeting of two motions that is first by time, row and column, or none if they share no cell. |
| RealTime.RealTimeArbiter.NextEvent | realtime/real_time_arbiter.py:89-118 | Listing the candidates and taking the least by time, rank and ids gives the least due candidate. |
| RealTime.RealTimeArbiter.StartMotion | realtime/real_time_arbiter.py:45-49 | The piece leaves the board and is in flight with an even timetable from now. |
| RealTime.RealTimeArbiter.ResolveMotionArrival | realtime/real_time_arbiter.py:205-256 | Intercepted, dropped at home, sent one cell back, or landed with whatever it captured. |
| RealTime.RealTimeArbiter.ResolveMotionCollision | realtime/real_time_arbiter.py:133-166 | Friends: the later stops short, both at a tie. Enemies: the later captures, a tie destroys both. |
| RealTime.RealTimeArbiter.ResolveEncounter | realtime/real_time_arbiter.py:168-190 | A friend in the way stops the motion, an enemy is captured in passing. |
| RealTime.RealTimeArbiter.IsResting | realtime/real_time_arbiter.py:20-37 | Whether the piece rests now; a rest that is over is forgotten. |
| RealTime.RealTimeArbiter.AdvanceTime | realtime/real_time_arbiter.py:54-87 | Runs the simulation to the new clock, reports ended jumps and arrivals and drops ended jumps; a negative duration changes nothing. |
| Arbitration.AdvanceSettles | realtime/real_time_arbiter.py:54-87 | After any call nothing is overdue and every jump ends later. |
| Arbitration.AdvanceByNothing | realtime/real_time_arbiter.py:54-87 | Advancing a settled arbiter by nothing changes and reports nothing. |
| Splitting.StateSplitsExactly | realtime/real_time_arbiter.py:54-87 | On every settled board with the given jumps, `advance_time` cut after x leaves the same state, arrivals and drops exactly when nothing follows the cut or no jump ends by then. |
| Splitting.SplitInvisibleExactly | realtime/real_time_arbiter.py:54-87 | The same with the reported ended jumps as well: exactly when one of the two calls is for no time or no jump ends by the end of the second. |
| Cuts.GuardOutlivesJump | realtime/real_time_arbiter.py:70-86 | A game played from its start: a jump is up until 1000 and the attacker lands at 1001. One call from 1 intercepts it, two calls cut at 1000 let it capture. |
| Cuts.JumpEndsUntold | realtime/real_time_arbiter.py:61-68 | A game played from its start in which no jump ends before the cut: the guard is captured in passing, and one call reports the end of its jump while two do not. |
| Splitting.ManySlices | realtime/real_time_arbiter.py:54-87 | While no jump ends, advancing in any number of pieces is advancing once: the same state, arrivals and drops, and no ended jump is reported. |
| Rules.ValidateMove | rules/rule_engine.py:17-39 | The verdict on a request: empty source, friend on the destination, illegal for the piece, or ok. |
| Rules.AcceptedMove | rules/piece_rules.py:40-98 | An accepted move leads elsewhere over at least one cell, meets nothing now on the board short of its end, and has a whole positive number of milliseconds for each cell. |
| RuleLaws.Refusals | rules/rule_engine.py:17-39 | An empty source, a friend in the place and an illegal move are told apart, in this order. |
| RuleLaws.KingRule | rules/piece_rules.py:40-43 | A king is accepted exactly to a neighbouring cell without a friend. |
| RuleLaws.KnightRule | rules/piece_rules.py:71-74 | A knight is accepted exactly where the squares of the two distances add up to five and no friend stands. |
| RuleLaws.RookRule | rules/piece_rules.py:46-50 | A rook is accepted exactly along its row or column with nothing on the line between and no friend at its end. |
| RuleLaws.BishopRule | rules/piece_rules.py:53-58 | A bishop is accepted exactly along a diagonal with nothing on the line between and no friend at its end. |
| RuleLaws.QueenRule | rules/piece_rules.py:61-69 | A queen is accepted exactly where a rook or a bishop in its place is. |
| RuleLaws.PawnRule | rules/piece_rules.py:77-98 | A pawn is accepted exactly towards the rank where it is promoted: to the next empty cell, over two empty cells from its second rank, or one cell diagonally onto an enemy. |
| RuleLaws.ColoursAlike | constants.py:9 | Turning the board upside down and swapping the colours changes no verdict. |
| Engine.GameEngine.RequestMove | engine/game_engine.py:81-102 | A move is refused for game over, jump, rest or rules, in this order, or launched at the even speed. |
| Engine.GameEngine.RequestJump | engine/game_engine.py:107-126 | A jump is refused for game over, a guarded cell, no piece or rest, in this order, or guards the cell. |
| Requests.MoveOutcome | engine/game_engine.py:81-102 | When each answer is given; a refusal changes nothing and is told with piece and destination unless the game is over; an accepted piece leaves its cell and arrives after one move duration for each step of the distance. |
| Requests.JumpOutcome | engine/game_engine.py:107-126 | When each answer is given; an accepted jump guards the cell of a piece for one jump duration and is not told. |
| Engine.GameEngine.Resign | engine/game_engine.py:128-132 | The other side wins, once. |
| Engine.GameEngine.Wait | engine/game_engine.py:134-148 | The arbiter advances, ended jumps start short rests, arrivals are applied in order. |
| Requests.WaitTells | engine/game_engine.py:137-207 | A wait that does not end the game tells of every ended jump and then of every arrival, in order and once each, with its place and the new time. |
| Engine.GameEngine.Settle | engine/game_engine.py:165-185 | A landed piece rests long; a pawn on its last rank becomes a queen and this is published. |
| Invariants.PlaySound | engine/game_engine.py:81-185 | In every reachable state every piece is in one place, nothing is overdue, every motion is as it was launched and no cell is guarded twice. |
| Invariants.WaitZero | engine/game_engine.py:134-148 | In every reachable state waiting for nothing changes and publishes nothing. |
| Ledger.PlayBalanced | realtime/real_time_arbiter.py:133-247 | For every measure on pieces: the sum at the start and what promotions added is found again in the live, the captured and the dropped. |
| Outcomes.EachPieceOnce | realtime/real_time_arbiter.py:192-247 | At any time in any game each piece of the start is exactly one of live, captured once, dropped once, and no other piece exists. |
| Outcomes.KingsAreSafe | engine/game_engine.py:150-158 | While the game is not over every king of the start is live or was dropped unreported. |
| LostKing.KingVanishes | realtime/real_time_arbiter.py:222-228 | A game played from its start in which a king is dropped: it is nowhere, the game goes on, and only two moves of others were ever published. |
| Scores.ScoreTracker.OnCapture | events/score_tracker.py:19-20 | The tally is the score of the published captures. |
| Scores.CaptureScores | events/score_tracker.py:5-12 | A captured pawn earns 1, a knight or bishop 3, a rook 5, a queen 9, a king nothing, and the other side nothing. |
| Scores.MaterialLedger | events/score_tracker.py:5-20 | While the game is not over, material is the starting material less the enemy's score, less what was stopped or dropped, plus eight for each promotion. |
| Rests.WaitRestsLanded | engine/game_engine.py:160-169 | After a wait that does not end the game, every piece that landed and still stands rests until the long rest from now. |
| JumpRests.WaitRestsJumped | engine/game_engine.py:140-144 | After a wait that does not end the game, every piece reported to have ended its jump rests until the short rest from now. |
| Rests.NoPawnEverHome | engine/game_conditions.py:26-33 | No state of an unfinished game shows a pawn on its last rank if the start did not. |
| Rests.RateLimit | engine/game_engine.py:81-126 | After an accepted move the same piece is next accepted, for a move or a jump, no sooner than the time of one cell and the shorter rest later. |
| JumpRests.JumpRateLimit | engine/game_engine.py:107-148 | After an accepted jump the same piece is next accepted, for a move or a jump, no sooner than the whole jump and a whole short rest later. |
| Finality.OverIsFinal | engine/game_engine.py:187-228 | A finished game stays finished; requests change nothing; a wait publishes only endings and promotions: an ending exactly when a king is captured, a promotion exactly when, before any such capture, a pawn lands on its last rank and stands there. |
| Finality.SilentExactly | engine/game_engine.py:150-185 | A wait of a finished game publishes nothing exactly when it captures no king and brings no pawn to its last rank. |
| Finality.OverForever | engine/game_engine.py:81-132 | The same over any number of operations: an ending or a promotion is published exactly if one of the waits captures a king or brings a pawn home. |
| Finality.TwoWinners | engine/game_engine.py:128-158 | A concrete game that ends twice with different winners. |
| Finality.PromotedAfterTheEnd | engine/game_engine.py:176-185 | A concrete game in which a promotion is published after the end. |
| Countdowns.TickExactly | server/session.py:116-130 | A tick the game survives keeps the countdowns with time left; of two that run out together the one that began first decides. |
| Countdowns.SecondsFall | server/session.py:132-137 | The seconds shown start at the whole countdown rounded up to seconds, strictly fall without repeats, and end at the time left rounded up, however the time is cut. |
| Countdowns.OnlyWatching | server/session.py:116-137 | Whatever is asked, whoever leaves or comes back: while the game goes on it is the game as if nobody had left. |
| Countdowns.CountdownRuns | server/session.py:85-137 | In any session, from the moment a player leaves, whatever is asked of the game and whatever the other player does: while the player is away and the game goes on, what is left is the countdown less the time of the ticks, and the notices about the player are the seconds above. |
| Countdowns.CountdownFires | server/session.py:124-130 | The player is resigned in exactly the first tick in which the time away reaches the countdown, and the last second is told in it, unless the game ends in or before that tick, by itself or because a countdown that began before runs out too. |
| Countdowns.CountdownShows | server/session.py:124-137 | While a player is away and the game goes on, the last second n told satisfies 1000 (n - 1) < left <= 1000 n; the first does so for the whole countdown, and 0 is told only when nothing is left. |
| Countdowns.PresentIsSafe | server/session.py:116-130 | A player who is not away is never resigned by a tick; the other is, exactly when the other countdown runs out. |
| Countdowns.ComesBackInTime | server/session.py:97-130 | A countdown whose player comes back never fires: one notice tells of the return, the other countdown runs on, and no tick resigns the player until leaving again. |
| Sessions.AssignSeated | server/session.py:72-77 | The first connection has white, the second black, and nobody shares a seat. |
| Sessions.ReconnectSeated | server/session.py:97-112 | A reconnect moves a seat and keeps this so. |
| Sessions.GameSession.BeginDisconnectCountdown | server/session.py:85-95 | A player who leaves starts one countdown; a spectator none. To the registry the seat is then away. |
| Sessions.GameSession.Reconnect | server/session.py:97-112 | A user known by one connection, whose seat is away, gets that seat back on the new connection and its countdown stops; a seat is given back only to its user and only while away; otherwise nothing changes. |
| Sessions.GameSession.OnGameOver | server/session.py:176-195 | The first ending hands the result to the two seated players if both are known by name, and to nobody otherwise; later endings hand over nothing. |
| Sessions.GameSession.Tick | server/session.py:116-130 | The engine waits, then either all countdowns stop or each advances and the first to run out ends the game; to the registry nobody moves and nobody newly leaves. A tick that ends the game publishes an ending, and the winner of the first one is handed over. |
| Directories.RoomDirectory.ReserveNewRoom | server/room_directory.py:52-75 | All identifiers and names are claimed, or nothing is. |
| Directories.RoomDirectory.ReserveJoin | server/room_directory.py:79-99 | A code leads to a live room and claims the user, or nothing changes. |
| Directories.RoomDirectory.CloseRoom | server/room_directory.py:141-145 | The room, the given users and the code are gone. |
| Rooms.UsernamesDisjoint | server/rooms.py:70-75 | Username sets of different rooms are disjoint. |
| Rooms.SeatsOfNewRoom | server/rooms.py:79-119 | The only player of a new room has white; of two on different connections the first has white and the second black. |
| RoomLaws.SearchOutcome | server/rooms.py:226-238 | The first free draw is found exactly if nobody is seated anywhere; a seated user ends the search, and it is exhausted exactly when no draw is free. |
| RoomLaws.LeavingKeepsTheSeat | server/rooms.py:141-156 | Whoever leaves while others stay may come back exactly if the connection had a seat. |
| RoomLaws.ComingBackRestores | server/rooms.py:128-156 | Leaving and coming back moves role and name to the new connection and leaves nobody away. |
| RoomLaws.ReturnReplaces | server/rooms.py:255-265 | Who comes back is filed on the new connection alone, everyone else as before. |
| RoomLaws.ClosedInTime | server/rooms.py:180-187 | The room of a finished game is closed in exactly the first tick in which the time since the end reaches the grace period, however it is cut. |
| RoomLaws.NotClosedEarly | server/rooms.py:180-187 | While the game goes on a tick closes nothing. |
| Rooms.CloseLeavesNoTrace | server/rooms.py:289-304 | A closed room is in no map and no directory entry, and none of its users, gone or present, keeps a claim. |
| Rooms.CloseKeepsAgreement | server/rooms.py:289-304 | Closing a room keeps registry and directory in agreement. |
| Rooms.OpenKeepsAgreement | server/rooms.py:191-253 | Opening a granted room for one or two players keeps the agreement. |
| Rooms.RollbackRestores | server/rooms.py:193-207 | When building the room fails, undoing the reservation restores everything. |
| Rooms.JoinKeepsAgreement | server/rooms.py:86-99 | Joining by code, also a code of another server's room, keeps the agreement. |
| Rooms.LeaveKeepsAgreement | server/rooms.py:141-156 | Leaving keeps the agreement, and the last one out closes the room. |
| Rooms.ReturnKeepsAgreement | server/rooms.py:128-139 | Coming back keeps the agreement. |
| Rooms.ReturnIsUnique | server/rooms.py:128-139 | There is at most one room a user can come back to, so the search order does not matter. |
| Rooms.TickKeepsAgreement | server/rooms.py:172-187 | A tick, with or without closing a finished room, keeps the agreement. |
| RoomRuns.RunAgrees | server/rooms.py:59-304 | In every state of every run registry and directory say the same about this server's rooms, users and codes, and in every room the seats are given in order and to one connection each. |
| RoomRuns.OthersUntouched | server/room_directory.py:52-148 | Whatever a server does leaves the rooms, users and codes of every other server alone. |
| RoomRuns.ServersSideBySide | server/room_directory.py:52-148 | Two servers on one directory: any operation of one keeps both in agreement with it. |
| RoomRuns.FleetRunAgrees | server/room_directory.py:52-148 | Any number of servers taking turns in any order on one directory: in every state each of them agrees with it. |
| RoomRegistries.GameRoomRegistry.CreatePrivateRoom | server/rooms.py:79-84 | A room with a code, where the one player has white, or nothing. |
| RoomRegistries.GameRoomRegistry.CreateMatchedRoom | server/rooms.py:101-119 | The first player is told white and the second black, and these are the seats of a new room; or neither is seated. |
| RoomRegistries.GameRoomRegistry.JoinPrivateRoom | server/rooms.py:86-99 | Gives the user the next seat, black to the first joiner, or lets it watch; a claim on a room that is not here is let go again. |
| RoomRegistries.GameRoomRegistry.TryReconnect | server/rooms.py:128-139 | Gives a seat back in a room where one is waiting, with its role, in the place of the user's stale connection, or changes nothing. |
| RoomRegistries.GameRoomRegistry.RemoveParticipant | server/rooms.py:141-156 | Leaves a countdown behind, or closes the room behind the last one. |
| RoomRegistries.GameRoomRegistry.TickOneRoom | server/rooms.py:172-187 | A finished game's room is closed when its grace has run out. |
| RoomRegistries.GameRoomRegistry.CloseRoomNow | server/rooms.py:289-304 | Everyone still present is sent to the lobby and the room is forgotten everywhere. |
| RoomRegistries.GameRoomRegistry.ReserveNewRoom | server/rooms.py:226-238 | Draws are tried until one is free, a taken name stops the search. |
| Matchmaking.Matchmaker.EnqueueOrMatch | server/matchmaker.py:53-64 | A seeker meets the earliest compatible waiter, who has waited longest, or waits last; the shape of the queue is kept. |
| Matchmaking.Matchmaker.Tick | server/matchmaker.py:66-75 | Those who have waited too long are the first few, and exactly they leave. |
| Matchmaking.Matchmaker.CancelSearch | server/matchmaker.py:77-80 | The seeker waits no longer, nobody else is affected. |
| Matchmaking.CompatibleMeans | server/matchmaker.py:88-92 | Compatible are ratings at most the tolerance apart. |
| Matchmaking.AtMostTwoCompatible | server/matchmaker.py:88-92 | A seeker is compatible with at most two waiters. |
| Matchmaking.LengthBounded | server/matchmaker.py:53-64 | The queue is no longer than the range of ratings has room for. |
| Ratings.Expectations | server/rating.py:7-8 | Expected scores are complementary, strictly between zero and one, and at least a half for the stronger player. |
| Ratings.Odds | server/rating.py:7-8 | The two expectations stand in the proportion of the exponential of the lead; 400 points are odds of ten to one. |
| Ratings.Examples | server/rating.py:50-55 | A win between equals is worth 16, from 400 ahead 3, from 400 behind 29. |
| Ratings.HalfToEven | server/rating.py:54-55 | A half is rounded to the even neighbour. |
| Ratings.UpdateBounds | server/rating.py:50-55 | A rating moves by at most 32; a winner never drops, a loser never rises, a draw never helps the stronger player, an upset is worth at least 16. |
| Ratings.SumAlmostKept | server/rating.py:50-55 | A game changes the sum of the two ratings by at most one. |
| Ratings.RatingStore.UpdateRatings | server/rating.py:46-73 | Both ratings change together, from the ratings before the game, by at most 32 each, up for the winner and down for the loser. |
| BoardText.Render | board_io/board_printer.py:8-14 | The text shows every man on its cell and empty tokens elsewhere. |
| BoardText.BuildBoard | board_io/board_parser.py:34-50 | Blank lines are skipped; a row of another width or an unknown token is refused. |
| BoardText.RoundTrip | board_io/board_parser.py:34-50 | Writing a board and reading the lines gives the same size and the same colour and kind on every cell. |
| BoardText.SurvivesExactly | board_io/board_printer.py:8-14 | Any board in bounds is read back as some board, and as itself exactly when it has a cell, or neither rows nor columns. |
| BoardText.AcceptedIsRectangular | board_io/board_parser.py:34-50 | Whatever is accepted is a rectangle of known tokens. |
| BoardText.ReadsExactly | board_io/board_parser.py:34-50 | A text is accepted exactly when all lines that say something are equally wide and of known tokens; else the first other line decides why it is refused. |
| BoardText.Letters | board_io/board_printer.py:8-14 | The letters of the pieces and the dot of an empty cell. |
| BoardText.OneKing | board_io/board_printer.py:8-14 | A concrete row as text. |

## Left out

- RealTime.RealTimeArbiter.StartMotion: asks for a duration that is a whole number of milliseconds for each cell, which is how the engine launches every motion (`engine/game_engine.py:99-101`); for other durations the source computes cell times in floating point and rounds on shortening.
- Motions.Motion.TimeAtCell: asks for the same even speed, as above.
- Motions.Motion.TruncateBefore: asks for the same even speed, as above.
- RealTime.RealTimeArbiter.AdvanceTime: returns ended jumps and arrivals as two lists; the source puts the ended jumps first in one list.
- `Motion.progress_at`, `rest_remaining_fraction` as a fraction, and snapshots of pieces in flight: they only feed the display.
- `PieceRuleRegistry` with other strategies, other win conditions and other promotion rules: the model has the default registry, king capture and last-rank promotion.
- Requests outside the board: the engine does not check bounds and neither does the model, so the laws hold for them too.
- A game without a dispatcher: the model always publishes.
- RoomRegistries.GameRoomRegistry.TickOneRoom: the session's own tick is an input here, constrained to what `Sessions.GameSession.Tick` promises about seats, names, countdowns and the end of the game; sessions are values in the registry, so sharing of session objects is not captured. The loop of `tick` over the rooms is a sequence of these, and the heartbeat is left out.
- RoomRegistries.GameRoomRegistry.RemoveParticipant: `Participant.state` is not modelled; a searching participant may enter a room while still queued, so it does not track membership.
- Countdowns.CountdownRuns: the length of a countdown is not negative.
- RoomRegistries.GameRoomRegistry.TryReconnect: asks for a connection without a role in any session; the server calls it once for a connection, right after its login (`server/ws_gateway/connection_handler.py:27-30`).
- RoomRuns.RunAgrees: directory entries do not expire, dead servers are not cleaned up, and another server's steps are taken between this server's operations, not in the middle of them.
- Failures of `send_fn` or of the rating store, the wire protocol, sockets, databases, passwords and the clients.
- Ratings.RatingStore.UpdateRatings: exact arithmetic with the exponential as any positive increasing function inverted by negation, ten at 400; no floating point.
- BoardText.RoundTrip: white space is the ASCII white space; ids that the parser makes up from token and cell are not part of a layout.
