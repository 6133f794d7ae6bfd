# WatchTogetherGame room engine, in Dafny

This project models the server core of WatchTogetherGame, a party game played in rooms. In each round one player is the host and picks a video. The other players (the children) guess which of the submitted videos is the host's. The host then matches each child to the video it believes that child submitted, points are awarded, and the host role passes to the next player.

The model covers three parts of the program:

- **The room registry** of `utils/game_state.ts`: the in-memory Map of rooms, with `createRoom`, `joinRoom`, `getRoom` and `removePlayer`. It also covers the per-viewer snapshot `getPublicState`.
- **The message handler** of `routes/api/ws.ts`:
  - the lookup of the player a connection is bound to
  - every case of `handleMessage`, including the scoring that runs when the host submits the matches
  - the removal of a player when its connection closes
  - the two broadcast helpers
- **The stand-alone scorer** `calculate_watch_futogether_scores` of `culcFutogether.py`. Only its `scores` dictionary is modelled.

Modules, leaf first:

- `Wrappers`: `Option` and `Result`.
- `GameTypes`: players, submissions, settings, phases, and the inbound messages. `RoomState` is the value of one room. The well-formedness invariant says that:
  - the players Map and its insertion order agree
  - exactly the player named by `hostId` carries the host flag
  - the round counter is 0 exactly in the lobby
- `Projection`: `getPublicState`, built field by field from the room and the viewer.
- `Broadcast`: who receives what. `broadcastState` sends each bound player its own snapshot; `broadcast` sends the same message to every bound player.
- `Scoring`: the submit_match scoring rules as functions of the room.
- `Transitions`: every message, and every registry edit of one room, as a function from a room's value to its next value and the effect to deliver.
- `Rooms`:
  - the class `Room`, whose fields the handler updates in place; each method is proved to leave `State()` equal to the matching `Transitions` function of the old state
  - the three scoring loops of submit_match, proved to compute `Scoring.Scored`
- `Registry`: the rooms Map, `handleMessage` and `onclose` over values.
- `Server`: the class `RoomTable`, which holds the Map. Its methods are the registry functions and the two handlers, each proved equal to the `Registry` function and to keep the registry well formed. The connection lookup is the source's nested loop.
- `Futogether`: the Python scorer. `CalculateScores` follows its loops; it is proved equal to `RoundScores`, which states each player's points outright.

Inputs the program draws from its environment are parameters of the model:

- The random partner indices of the Fisher–Yates shuffle become `swaps`. The shuffle at step `i` swaps with `swaps[i]`, which must be at most `i`.
- The id from `crypto.randomUUID` becomes `freshId`. It must not already name a player of the room joined, or that room's host.
- Connections are opaque handles compared for identity. Every bound connection counts as open.

## Behaviour as coded

The model follows the code as written. These are the places where the code's behaviour is easy to misread, or where it differs from how the game is meant to play (for instance, the host is not meant to guess, and a room should keep a host):

- play_video, pause_video and seek_video have no phase guard. The host may send them in any phase, and relays reach every bound player, the host included.
- submit_guess accepts a guess from any member, the host too. A new guess replaces the old one.
- The rule that withholds the host's vote points compares the number of guesses naming the host's video with the number of children. Every stored guess counts: the host's own guess, and the guesses of players who have since left, because removePlayer never clears them. So the host can lose its vote points although a child guessed wrong, or keep them although every child was right.
- submit_match only checks that the number of guesses is at least the number of players minus one, so a host's own guess counts toward that number. If the host has no submission, nothing is scored, but the phase still becomes RESULTS.
- update_settings is host-only but accepted in every phase. It merges the settings; only in ROUND_SETTINGS does it also advance the phase.
- submit_video looks for the entry to replace by the sender's id. What it stores is the client-supplied record, whose owner field the server never checks. Watching starts exactly when the number of submissions equals the number of players.
- createRoom replaces any room already under the id. The handler only calls it for an unknown id. The room it creates has its host unbound; the join case then binds the host to the joining connection.
- joinRoom does not check the phase; the join case does.
- removePlayer never reassigns the host. When the host leaves, `hostId` keeps the departed id and no player carries the host flag, so every host-only message from the remaining players is ignored from then on. The room is stuck: the game can no longer move past a host-driven phase.

## Model

| member | source | states |
|---|---|---|
| Broadcast.Recipients | routes/api/ws.ts:334-335 | exactly the players that have a bound connection, each taken from the join order |
| Broadcast.RecipientsInJoinOrder | routes/api/ws.ts:334-335 | when the join order has no repeats, the recipients have none either, and earlier joiners come first |
| Broadcast.StateDeliveries | routes/api/ws.ts:330-343 | one state update per recipient, in the order of `Recipients` (so one per bound player in join order, by `RecipientsInJoinOrder`), to that player's connection and holding that player's own snapshot |
| Broadcast.RawDeliveries | routes/api/ws.ts:345-354 | the same message to each recipient, in the order of `Recipients` (so once per bound player in join order, by `RecipientsInJoinOrder`), the sender included |
| Broadcast.EveryBoundPlayerGetsOwnView | routes/api/ws.ts:334-341 | every player with a bound connection receives the snapshot built for it |
| Projection.PublicStateContents | utils/game_state.ts:171-223 | what the snapshot copies, blanks and masks. Every player is listed in join order with its public fields. The same submissions appear in the same order, and an owner field is blanked exactly when the viewer may not see it. The current owner is hidden from children while watching and guessing. Guesses are absent before GUESSING, masked during it and verbatim in RESULTS. Matches appear only in RESULTS |
| Projection.ChildLearnsNoOwner | utils/game_state.ts:188-206 | during WATCHING and GUESSING a child sees no owner but itself, and no current-video owner |
| Projection.GuessesStayMasked | utils/game_state.ts:207-216 | during GUESSING every other player's guess reads as the "guessed" marker |
| Projection.HostSeesOwnership | utils/game_state.ts:188-206 | the host sees every submission and the current owner unchanged, in every phase |
| Projection.SamePositionsForEveryViewer | utils/game_state.ts:188-201 | all viewers get the submissions at the same positions, differing at most in owner fields |
| Projection.OpenPhasesAreViewerIndependent | utils/game_state.ts:185-220 | outside WATCHING and GUESSING every viewer gets the same snapshot |
| Transitions.NewRoom | utils/game_state.ts:76-105 | a well formed room in the lobby at round 0 with the default settings (300 s, no theme, 10/5/5), whose only player is its unbound host with score 0 |
| Transitions.AddPlayer | utils/game_state.ts:119-128 | the joiner is appended to the join order as a non-host with score 0, bound to its connection, and nothing else changes |
| Transitions.AddPlayerKeepsWellFormed | utils/game_state.ts:119-128 | adding a fresh non-host player keeps the room well formed |
| Transitions.Without | utils/game_state.ts:140 | deleting a key from the Map's insertion order: the others stay in order, one fewer if it was present, unchanged otherwise |
| Transitions.RemovePlayer | utils/game_state.ts:140 | the player leaves both the players and the join order; nothing else changes |
| Transitions.RemovePlayerKeepsWellFormed | utils/game_state.ts:136-148 | removal keeps the room well formed and leaves `hostId` alone; when the host leaves, nobody is host |
| Transitions.BindSocket | routes/api/ws.ts:78-81 | the new host's record gains the connection and nothing else changes |
| Transitions.PlayerCount | utils/game_state.ts:142 | `players.size` is the length of the join order |
| Transitions.MergeSettings | routes/api/ws.ts:105 | the shallow spread: each top-level key present in the patch wins, every other key keeps its value |
| Transitions.UpdateSettings | routes/api/ws.ts:101-112 | ignored unless the host sends it; otherwise the new settings are the old ones merged with the patch, in any phase; ROUND_SETTINGS moves to VIDEO_SELECTION, other phases stay, and the state is broadcast |
| Transitions.UpdateSettingsIdempotent | routes/api/ws.ts:104-108 | sending the same settings twice leaves the room as sending them once |
| Transitions.StartGame | routes/api/ws.ts:114-123 | acts exactly for the host in the lobby, setting round 1 and ROUND_SETTINGS; otherwise nothing changes |
| Transitions.StartGuessing | routes/api/ws.ts:206-214 | acts exactly for the host while watching, moving to GUESSING; otherwise nothing changes |
| Transitions.SubmitGuess | routes/api/ws.ts:216-224 | acts exactly during GUESSING, for any member, and records or replaces the sender's guess |
| Transitions.ControlRelay | routes/api/ws.ts:196-204 | pause and seek never change the room; they are relayed exactly when the host sends them |
| Transitions.SwapIndex | routes/api/ws.ts:141 | the partner index of step `i` is at most `i` |
| Transitions.SwapExchanges | routes/api/ws.ts:142 | the destructuring swap exchanges the two positions and leaves every other alone |
| Transitions.SwapPermutes | routes/api/ws.ts:142 | a swap keeps the submissions' multiset |
| Transitions.ShuffleDown | routes/api/ws.ts:140-143 | the loop keeps the number of submissions |
| Transitions.ShuffleDownPermutes | routes/api/ws.ts:140-143 | the loop's steps from `i` down to 1 permute the submissions |
| Transitions.ShufflePermutes | routes/api/ws.ts:139-143 | the shuffle is a permutation of the submissions |
| Transitions.WithSubmission | routes/api/ws.ts:129-136 | the new record takes the place of the sender's first entry, all other entries unchanged, or is appended when there is none |
| Transitions.SubmitVideoOutcome | routes/api/ws.ts:125-154 | acts exactly during VIDEO_SELECTION. WATCHING starts exactly when the submissions number the players, and the first shuffled submission becomes the current video and owner. Before that only the submissions change |
| Transitions.SubmitVideoPermutes | routes/api/ws.ts:138-145 | the submissions after the step are a permutation of those recorded |
| Transitions.FindById | routes/api/ws.ts:167 | the position of the first submission with that video id, or none at all |
| Transitions.PlayVideo | routes/api/ws.ts:156-194 | host only, in any phase. The current video id becomes the requested one, and a truthy target owner replaces the current owner. A state broadcast follows exactly when something changed, otherwise the message is relayed |
| Transitions.PlayVideoFallsBackToFirstMatch | routes/api/ws.ts:164-169 | without an owner, the owner of the first submission with the id is credited |
| Transitions.MatchesOf | routes/api/ws.ts:235-238 | the matches map has a key for exactly the children named in the entries |
| Transitions.MatchesOfLastWins | routes/api/ws.ts:236-238 | a child's value is the video id of its last entry |
| Transitions.SubmitMatch | routes/api/ws.ts:226-233 | acts exactly for the host during GUESSING with at least players−1 guesses. Then the matches become the submitted list, every player is rescored against them, and the phase becomes RESULTS, with nothing else changed. Otherwise nothing changes |
| Transitions.SubmitMatchKeepsWellFormed | routes/api/ws.ts:226-292 | storing the matches, scoring and moving to RESULTS keeps the room well formed |
| Transitions.IndexOf | routes/api/ws.ts:299 | `indexOf`: the first position of the id, or -1 exactly when it is absent |
| Transitions.Rehost | routes/api/ws.ts:306-310 | moving the host flag keeps the set of players |
| Transitions.NextRound | routes/api/ws.ts:294-326 | acts exactly for the host in RESULTS. Once the round counter reaches the player count, only the phase changes, to GAME_OVER. Otherwise the next round opens in ROUND_SETTINGS with the counter one higher and the host role passed to the next player. Videos, guesses, matches and the current video are cleared, and the id, join order and settings are kept |
| Transitions.NextRoundRotatesHost | routes/api/ws.ts:298-320 | the role passes to the player after the host in join order, wrapping around; exactly the new host carries the flag, only the two host records change, and the round stays within the player count |
| Transitions.HostlessRoomIsStuck | routes/api/ws.ts:101-326 | once the host has left, every host-only message from a remaining player changes nothing and sends nothing |
| Transitions.NextRoundKeepsWellFormed | routes/api/ws.ts:294-326 | next_round keeps the room well formed |
| Transitions.StepKeepsRoster | routes/api/ws.ts:101-326 | no message changes the room's id, join order or set of players |
| Transitions.StepKeepsWellFormed | routes/api/ws.ts:101-326 | every message keeps the room well formed, so at most one player, `hostId`, carries the host flag |
| Transitions.ChildCannotSteer | routes/api/ws.ts:101-326 | each host-only message from a child changes nothing and sends nothing |
| Scoring.FindOwned | routes/api/ws.ts:240 | the position of the first submission owned by the player, or none at all |
| Scoring.Scored | routes/api/ws.ts:240-286 | scoring changes only scores and keeps the players; with no host submission nothing changes |
| Scoring.ScoresNeverDecrease | routes/api/ws.ts:248-285 | with non-negative point values no score goes down |
| Scoring.HostVoteSumSuppressed | routes/api/ws.ts:265-269 | when the count test holds (the number of guesses naming the host's video equals the number of children, and there is a child), the host earns no vote points from any submission |
| Scoring.TooEasyVideoEarnsNoVotes | routes/api/ws.ts:259-285 | when the count test holds and the host has not guessed, the host gains only its match points |
| Scoring.AllChildrenCorrectIff | routes/api/ws.ts:242-260 | when every guesser is a current child, the count test holds exactly when there is a child and every child guessed the host's video |
| Scoring.HostGuessPassesCountTest | routes/api/ws.ts:219-220 | a room where the host's own guess makes the count test hold although one child guessed wrong |
| Scoring.HostGuessFailsCountTest | routes/api/ws.ts:248-260 | a room where every child guessed right but the host's own guess makes the count test fail |
| Scoring.ChildrenEarnNoMatchPoints | routes/api/ws.ts:248-285 | a non-host earns its guess and vote points and no match points |
| Rooms.CollectMatches | routes/api/ws.ts:235-238 | the loop builds exactly the matches map |
| Rooms.TallyGuess | routes/api/ws.ts:249-256 | one turn of the guesses loop: the vote is counted and a right guess rewarded, extending the handled guessers by one |
| Rooms.AwardGuesses | routes/api/ws.ts:245-257 | after the loop every right guesser has gained the guess points, the vote counts are the tallies of all guesses, and the correct count is the host video's votes |
| Rooms.AwardVotes | routes/api/ws.ts:262-275 | every owner gains its videos' vote points, except the host's when the count test holds |
| Rooms.AwardMatches | routes/api/ws.ts:277-285 | the host gains the match points once per correct match |
| Rooms.ScoreRound | routes/api/ws.ts:240-286 | the three loops together give exactly `Scoring.Scored` |
| Rooms.Room.constructor | utils/game_state.ts:76-105 | the new room object is `NewRoom` and well formed |
| Rooms.Room.AddPlayer | utils/game_state.ts:119-128 | the room becomes `AddPlayer` of its old state |
| Rooms.Room.RemovePlayer | utils/game_state.ts:140 | the room becomes `RemovePlayer` of its old state |
| Rooms.Room.BindSocket | routes/api/ws.ts:78-81 | the room becomes `BindSocket` of its old state |
| Rooms.Room.UpdateSettings | routes/api/ws.ts:101-112 | new state and effect are `UpdateSettings` of the old state |
| Rooms.Room.StartGame | routes/api/ws.ts:114-123 | new state and effect are `StartGame` of the old state |
| Rooms.Room.Shuffle | routes/api/ws.ts:139-143 | the in-place Fisher–Yates loop leaves `Shuffle` of the old submissions |
| Rooms.Room.BeginWatching | routes/api/ws.ts:138-150 | the shuffle, then WATCHING and the first submission as current video |
| Rooms.Room.SubmitVideo | routes/api/ws.ts:125-154 | new state and effect are `SubmitVideo` of the old state |
| Rooms.Room.PlayVideo | routes/api/ws.ts:156-194 | new state and effect are `PlayVideo` of the old state |
| Rooms.Room.StartGuessing | routes/api/ws.ts:206-214 | new state and effect are `StartGuessing` of the old state |
| Rooms.Room.SubmitGuess | routes/api/ws.ts:216-224 | new state and effect are `SubmitGuess` of the old state |
| Rooms.Room.SubmitMatch | routes/api/ws.ts:226-292 | new state and effect are `SubmitMatch` of the old state |
| Rooms.Room.ConcludeRound | routes/api/ws.ts:235-288 | matches stored, scores as `Scoring.Scored`, phase RESULTS |
| Rooms.Room.NextRound | routes/api/ws.ts:294-326 | new state and effect are `NextRound` of the old state |
| Rooms.Room.PassHost | routes/api/ws.ts:305-320 | host flags moved, host id, round and phase set, round data cleared |
| Rooms.Room.ClearRound | routes/api/ws.ts:316-320 | submissions, guesses, matches and current video cleared |
| Rooms.Room.ControlRelay | routes/api/ws.ts:196-204 | relay exactly for the host |
| Rooms.Room.Dispatch | routes/api/ws.ts:72-327 | the switch over the message type gives exactly `Transitions.Step` |
| Rooms.Room.Apply | routes/api/ws.ts:72-327 | a message from a member is handled as `Step` and the room stays well formed |
| Registry.CreateRoom | utils/game_state.ts:76-109 | the new room sits under the id; every other room is unchanged |
| Registry.CreateRoomKeepsTableOk | utils/game_state.ts:107 | the registry stays well formed, and a new id is appended to the insertion order |
| Registry.JoinRoomAdds | utils/game_state.ts:111-130 | an unknown room yields null and no change; otherwise the joiner record is returned and appended to that room alone, and the registry stays well formed |
| Registry.RemovePlayer | utils/game_state.ts:136-148 | `true` exactly when the room existed and the player was its last. Then the room is deleted from the Map and its order; otherwise only the player leaves. An unknown room changes nothing |
| Registry.RemovePlayerKeepsTableOk | utils/game_state.ts:136-148 | removal keeps the registry well formed: no room is ever left empty |
| Registry.BoundFrom | routes/api/ws.ts:62-67 | the player found is bound to the connection and is the first such player in join order from the start position; none means no player there is bound |
| Registry.SenderFrom | routes/api/ws.ts:61-69 | the binding found is in the first room, in insertion order, that has a player bound to the connection, and is that room's first such player; none means no room has one |
| Registry.SenderOfFindsBoundPlayer | routes/api/ws.ts:59-70 | the lookup finds a bound player, and finds none exactly when no player of any room is bound to the connection |
| Registry.StateDeliveriesReachOnly | routes/api/ws.ts:330-343 | a state broadcast reaches only connections bound to the room's players |
| Registry.RawDeliveriesReachOnly | routes/api/ws.ts:345-354 | a relay reaches only connections bound to the room's players |
| Registry.HandleKeepsTableOk | routes/api/ws.ts:58-328 | handleMessage keeps the registry well formed |
| Registry.HandleJoinKeepsTableOk | routes/api/ws.ts:73-99 | the join case keeps the registry well formed |
| Registry.StepKeepsTableOk | routes/api/ws.ts:101-326 | a message handled in the sender's room keeps the registry well formed |
| Registry.HandleTouchesOneRoom | routes/api/ws.ts:58-328 | only the joined or sender's room can change; a join on a new id is the only thing that extends the order; an unresolved connection changes and sends nothing |
| Registry.RepliesStayInRoom | routes/api/ws.ts:58-354 | the reply is nothing, the join error to the joining connection alone, or deliveries only to players of the target room |
| Registry.JoinRepliesStayInRoom | routes/api/ws.ts:73-99 | the join case answers with the error or only players of the joined room |
| Registry.StartedGameRejectsJoin | routes/api/ws.ts:84-92 | a join on a started game changes nothing and sends one error to the joining connection |
| Registry.JoinCreatesRoom | routes/api/ws.ts:75-82 | a join on an unknown id creates a lobby whose only player is the bound host, appends the id, and sends the joiner its snapshot alone |
| Registry.JoinAddsToLobby | routes/api/ws.ts:93-96 | a join on a lobby appends the bound joiner, who receives its own snapshot |
| Registry.CloseKeepsTableOk | routes/api/ws.ts:33-47 | onclose keeps the registry well formed |
| Registry.CloseUnboundIsNoop | routes/api/ws.ts:33-47 | closing an unbound connection changes and sends nothing |
| Registry.CloseRemovesPlayer | routes/api/ws.ts:36-46 | the bound player leaves. The room is deleted, silently, exactly when it was the last player. Otherwise the host id stays and every bound player hears who left, then gets the state |
| Registry.LeavingThenState | routes/api/ws.ts:41-42 | the notices come first, then one state update per bound player |
| Server.RoomTable.constructor | utils/game_state.ts:74 | the registry starts empty and well formed |
| Server.RoomTable.GetRoom | utils/game_state.ts:132-134 | a room is found exactly when the id is a key; it sits under its own id and is well formed |
| Server.RoomTable.CreateRoom | utils/game_state.ts:76-109 | the registry becomes `Registry.CreateRoom` of the old one and stays well formed |
| Server.RoomTable.JoinRoom | utils/game_state.ts:111-130 | registry and result are `Registry.JoinRoom` of the old registry |
| Server.RoomTable.RemovePlayer | utils/game_state.ts:136-148 | registry and result are `Registry.RemovePlayer` of the old registry |
| Server.RoomTable.FindBound | routes/api/ws.ts:62-67 | the inner loop finds the first player bound to the connection |
| Server.RoomTable.FindSender | routes/api/ws.ts:59-70 | the nested loop finds the first room, and its first player, bound to the connection |
| Server.RoomTable.Join | routes/api/ws.ts:73-99 | the join case leaves the registry and the deliveries `Registry.HandleJoin` gives |
| Server.RoomTable.HandleMessage | routes/api/ws.ts:58-328 | handleMessage leaves the registry and the deliveries `Registry.Handle` gives and keeps it well formed |
| Server.RoomTable.Close | routes/api/ws.ts:33-47 | onclose leaves the registry and the deliveries `Registry.Close` gives |
| Futogether.Lookup | culcFutogether.py:38 | `submissions[player]`: a submitted video of the player, or nothing exactly when the player has none |
| Futogether.FirstSubmitter | culcFutogether.py:54 | the first submitter of the video in insertion order, or nothing exactly when nobody submitted it |
| Futogether.UnsubmittedFrom | culcFutogether.py:37-38 | the first player, from the start position, without a submission; none means every player from there has one |
| Futogether.RoundScores | culcFutogether.py:14-61 | a successful round scores exactly the players |
| Futogether.AwardGuesses | culcFutogether.py:22-28 | every child naming the parent's video gets 10 points, and `correct` counts exactly those children |
| Futogether.CountVotes | culcFutogether.py:30-33 | one count per submitted video: the guesses naming it |
| Futogether.AwardVotes | culcFutogether.py:37-47 | the loop stops at the first player without a submission; otherwise each player gains 5 per vote, the parent nothing when it forfeits |
| Futogether.CountMatches | culcFutogether.py:51-57 | the number of videos whose first submitter is the child the parent named |
| Futogether.CalculateScores | culcFutogether.py:10-62 | the scores, or the key of the first failing lookup, are exactly `RoundScores` |
| Futogether.ForfeitsIff | culcFutogether.py:35-42 | the count test means what it says: the parent forfeits exactly when there is a child and every child guessed its video |
| Futogether.CorrectAtMostChildren | culcFutogether.py:23-27 | the right guessers never outnumber the children |
| Futogether.FailsExactlyWhen | culcFutogether.py:22-61 | the round fails exactly when the parent or some player has no submission, or the parent earned match points without being a player; the key reported is the parent or a player without a submission |
| Futogether.ScoresBounded | culcFutogether.py:14-61 | every score lies between 0 and 10 + 5 per guess + 5 per match |
| Futogether.ChildScore | culcFutogether.py:24-47 | a child earns 10 for a right guess plus 5 per vote for its video, and no match points |
| Futogether.ParentScore | culcFutogether.py:37-61 | the parent earns no guess points. It earns 5 per vote unless there is a child and every child found its video, plus 5 per right match |

## Left out

- WebSocket transport: the upgrade, `send`, and `readyState`. Every bound connection is treated as open; the deliveries are the list of (connection, message) pairs a broadcast would send.
- JSON parsing and serialisation. A message that is not valid JSON is logged and dropped before it reaches the handler (routes/api/ws.ts:26-29). The handler has no case for a type tag it does not know, modelled as `Unhandled`. The deep clone in `getPublicState` only keeps the room from being mutated, and the snapshot is built from the room's value.
- Message shape. The cast at routes/api/ws.ts:26 checks nothing, and the model assumes every message has the fields its type tag calls for. A wrongly shaped message can throw partway through the handler. The error is logged at routes/api/ws.ts:28-29 and nothing is broadcast, but the room keeps whatever was already changed. For example, a submit_match from the host without `matches` clears the room's matches (routes/api/ws.ts:235) and then throws at routes/api/ws.ts:236, leaving the phase at GUESSING and the scores as they were. These half-applied updates are not modelled.
- Logging and the error callback.
- `Math.random` and `crypto.randomUUID`: replaced by the `swaps` and `freshId` parameters.
- JavaScript numbers are modelled as unbounded integers; video offsets as reals.
- `Server.RoomTable`: the Map holds room values. The in-place update of one room object is modelled separately by `Rooms.Room`. The aliasing between the Map's entry and the room object `getRoom` hands out is not modelled.
- `Server.RoomTable.JoinRoom`, `Server.RoomTable.Join` and `Server.RoomTable.HandleMessage` require `freshId` to be unused in the room, which a random UUID is in practice.
- `Rooms.Room.NextRound` requires the room to have a player. A room in the registry always has one, and the sender is one of them.
- `Futogether.CalculateScores` requires distinct player names, which the player setup dialog enforces before scoring (culcFutogether.py:141-143). The `submissions` dictionary is modelled as its (player, video) pairs in insertion order.
- The PyQt windows of culcFutogether.py and the `log_text` report are not modelled; only the scores are.
- Page routes, islands and the client-side UI are not part of this model.
