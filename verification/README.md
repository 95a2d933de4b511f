# Two Rooms and a Boom: a verified model of the game server

The server runs lobbies of 6 to 30 players.  A started game deals teams, roles and two rooms, and plays three
timed rounds.  In each round the leader of either room picks hostages, the two selections change rooms, and the
round is left when both leaders are ready; meanwhile the players of a room can vote their leader out and elect
another.  This project models that backend and proves what holds over its runs.

## How the model is built

- `models.dfy` has the objects the services update in place (`Room`, `Player`, `GameSession`, `RoundState`) and
  the plain values they stand for (`RoomView`, ...).
- `rules.dfy`, `ballots.dfy` and `lobby.dfy` give every service call as a function on those values: same checks in
  the same order, same errors, same constants.  A random choice is an argument.
- `leader_service.dfy`, `exchange_service.dfy`, `round_manager.dfy`, `voting_service.dfy`, `game_service.dfy`,
  `player_service.dfy`, `room_service.dfy`, `room_store.dfy` and `rate_limiter.dfy` are the services themselves, as
  methods that loop over and assign to the objects.  Each is proved to take exactly the step of its function:
  `Refines(before, after, error, step)` says that the new state is the step's, or that the step's own error is
  returned and nothing has changed.  A map is walked in an arbitrary order and a shuffle is an arbitrary
  permutation.
- `calls.dfy` says what these calls mean to their callers: exactly when each is accepted, that every refusal states a
  fact, and all that an accepted call changes, down to the constants.  `outcomes.dfy` does the same for the effects of
  votes over whole runs, and `lobby.dfy` for the calls between games.
- `protocol.dfy` is one room's live game as a state machine over these steps.  Its state has the room, all vote
  sessions ever created, the active-vote table and the bag of pending goroutines; the vote calls and their resolution
  are cut at every lock release and sleep, and anything pending may happen at any time.  `IsRun` and `After` range over
  all sequences of steps, and the theorems about runs are in `population.dfy`, `leaders.dfy`, `promotions.dfy`,
  `rounds.dfy`, `resolution.dfy`, `turnout.dfy`, `race.dfy`, `elections.dfy` and `vote_index.dfy`; `witnesses.dfy` has
  runs into the states that break their hypotheses.
- `lobby.dfy` puts joining, leaving, renaming and a change of owner around that protocol, and shows that every stay
  of a room, from its creation on, is one run of the protocol.
- `role_config.dfy` and `dealing.dfy` have the role configurations and the counting behind the deal, `nicknames.dfy`
  the suffix search, and `sets.dfy` facts on sets.  `rate_traces.dfy` has whole traces of requests to the limiter, one
  after the other, and `overlap_traces.dfy` traces in which they overlap with each other and with sweeps.

## Where the code allows more than its comments say

The model follows the code.  Each of these is an explicit hypothesis of the theorems that need it, and the exact
condition for the property is proved.  Where a game can break the hypothesis, a run of accepted calls that does so is
given, too.

- Hostages can be selected in any status of the round, and `SetLeader` accepts anybody in the room.  A selected
  hostage can therefore become leader before the exchange, which then carries the leader out of the room.
  `Leaders.Careful` is the hypothesis: no step that changes the room promotes a hostage still to move.
  `Promotions.LeadersSafeAnywhereIff` is the exact condition, and `Promotions.LossHappens` breaks it from every lobby
  of six or more.
- `CastVote` does not check that the voter belongs to the electorate.  `Turnout.Rolled` is the hypothesis: accepted
  votes come from counted players.  After an outsider's vote the turnout can pass `TotalVoters`, and the equality that
  would notice a full turnout is never met again: `Turnout.OutsiderCastIff` is the exact condition.  More ballots than
  voters also make the race of the two resolvers matter: `Race.RaceConfluentIff` and `Race.RaceSettlesIff` say exactly
  when, over all runs.  `Witnesses.OutsiderVotes` and `Witnesses.RaceDiverges` get there from every lobby of six or
  more.
- `StartVote` is accepted in the seven seconds before an election, while a completion has not yet released the
  active-vote entry, and between the check and the storing of another `StartVote`.  `VoteIndex.Patient` is the
  hypothesis: no request is accepted at such a moment.  `VoteIndex.EarlyVoteIff` is the exact condition, and
  `Witnesses.EarlyRequest` and `Witnesses.SecondRequest` lead to such moments from every lobby of six or more.
- A reset leaves pending goroutines alive.  `Population` covers such left-over goroutines.  `Rounds.HandsOff` is about
  one game, without a reset or a manual start of a round in it; `Rounds.StartOrderlyIff` says that a new game stays
  orderly exactly when no advance or reveal of an earlier one is pending, and `Rounds.LeftoverHappens` leaves one.
- Starting a timer stops the session's old one and registers the new one in two steps.  `RoundManager.Manager.Register`
  says that a timer is left running out of reach exactly when another has been registered in between, as in
  `RoundManager.Manager.StartTwoTimers`.
- The cleanup of the rate limiter keeps a bucket for an hour after its last *refill*, not its last use.  With one
  reading of the clock per request it cannot be noticed exactly when the window is at most an hour and one tick of the
  clock: `RateTraces.EvictionInvisibleIff`.  The code reads the clock a second time when it creates a bucket, and with
  readings as far apart as they like `RateTraces.EvictionAlwaysInvisibleIff` is the exact condition.
- A request that is about to use its bucket when a sweep takes it spends the old bucket beside the new one.
  `OverlapTraces.OverlapBound` is the bound that remains, and `OverlapTraces.OverlapExceeds` a trace that passes the
  bound of requests without such overlap.
- Without an explicit selection, the check for too many roles skips those for larger games, and the deal does not:
  `GameService.AllRolesExactIff` says when every role is dealt.
- A newcomer's automatic nickname counts the players present, so after somebody has left it may repeat:
  `Lobby.JoinKeepsNamesIff` and `Lobby.AnonymousNamesClash`.  A suffix may also take a nickname past the 20
  characters that the length check allows.
- Players left over by an explicit role selection all become blue operatives, so a selection smaller than the room
  does not split the teams evenly.

## Model

| member | source | states |
|---|---|---|
| Population.PopulationConserved | backend/internal/services/exchange_service.go:162-252 | over every run from a lobby, with any leftover goroutines, the red room holds the larger and the blue room the smaller half of the players whenever a game is in progress |
| Population.StepKeepsPop | backend/internal/services/exchange_service.go:54-113 | every single step of the game keeps both room sizes, the shape of the selections, and that they are either all waiting or all swapped |
| Population.SelectionAcceptedIff | backend/internal/services/exchange_service.go:47-113 | a selection is accepted if and only if a leader makes it, it has the round's size, repeats nobody, names no leader, names only players of that leader's room, and is the room's first |
| Calls.SelectionStored | backend/internal/services/exchange_service.go:102-125 | an accepted selection is the first of the room its leader stands in, is stored there, and nothing else changes |
| Calls.SelectionRefusals | backend/internal/services/exchange_service.go:47-113 | every refusal of a selection states a fact |
| Calls.ExchangeAcceptedIff | backend/internal/services/exchange_service.go:172-260 | the exchange runs if and only if both rooms have selected equally many; it changes nothing about anybody but the room, and completes the round |
| Calls.HostagesByTheRules | backend/internal/models/round_state.go:60-81 | over every run from a lobby the round wants 1 hostage with up to 10 players; 2, 1, 1 with up to 21; and 3, 2, 1 with more; and each room has selected all of them or none |
| Population.ExchangeIds | backend/internal/services/exchange_service.go:228-252 | the exchange takes exactly the selected players out of each room and puts exactly the other selection in |
| Population.ExchangeSwaps | backend/internal/services/exchange_service.go:228-252 | the exchange keeps the size of both rooms and leaves the two selections swapped |
| Population.SecondExchangeIdle | backend/internal/services/exchange_service.go:228-252 | running the exchange again on the same round moves nobody |
| Leaders.LeadersStayLocated | backend/internal/services/leader_service.go:488-523 | in every run in which no step promotes a hostage still to move, each leader is in the room they lead, so the leaders differ; calls that are refused do not matter |
| Leaders.StepKeepsLeaders | backend/internal/services/leader_service.go:97-144 | every such step keeps the leaders in their rooms and out of the selections still to move |
| Leaders.HostageChoiceExists | backend/internal/models/round_state.go:60-81 | in every such run both rooms always have as many selectable players as hostages are wanted, and a leader who still has to choose has a selection that will be accepted |
| Leaders.ChoiceExists | backend/internal/services/exchange_service.go:47-113 | with both rooms filled evenly and the leaders in place, an accepted selection exists for the room that still has to choose |
| Leaders.EnoughSelectable | backend/internal/models/round_state.go:60-81 | a room evenly filled and with its leader in place has as many players who lead nothing as the round wants hostages |
| Leaders.QuotaFits | backend/internal/models/round_state.go:60-81 | from six players on, the number of hostages never exceeds the non-leaders of the smaller room |
| Promotions.LeadersSafeAnywhereIff | backend/internal/services/leader_service.go:488-523 | at any point of any run from a lobby, the leaders stay in their rooms for all careful runs from there if and only if no leader is a hostage still to move |
| Promotions.TransferSafeIff | backend/internal/services/leader_service.go:228-288 | handing over leadership keeps the leaders in their rooms for ever if and only if the new leader is not a hostage still to move |
| Promotions.PromotionHappens | backend/internal/services/leader_service.go:228-288 | from every lobby of six or more and for every deal, the game starts, the red leader selects hostages and hands over to one of them: all three calls are accepted, and the exchange will carry the new leader out of the room |
| Promotions.LossHappens | backend/internal/services/leader_service.go:228-288 | so every lobby of six or more has a run of accepted calls that ends with both leaders in place but not to stay there |
| Promotions.ExchangeUnseats | backend/internal/services/exchange_service.go:234-252 | an exchange whose selection holds a leader leaves that leader in the wrong room |
| Calls.TransferAcceptedIff | backend/internal/services/leader_service.go:228-288 | leadership can be handed over if and only if a leader hands it to somebody in the same room who leads nothing, not during SELECTING; the new leader leads the room the old one stands in, and nothing else changes |
| Calls.TransferRefusals | backend/internal/services/leader_service.go:235-281 | every refusal of a handover states a fact |
| Calls.ReplaceAcceptedIff | backend/internal/services/leader_service.go:441-485 | a leader can be replaced if and only if somebody else stands in the room, and only the leader changes |
| Calls.DisconnectEffect | backend/internal/services/leader_service.go:302-357 | a leader who drops out is replaced in the room they lead, and for anybody else nothing happens |
| Calls.AppointAcceptedIff | backend/internal/services/leader_service.go:97-144 | leaders are appointed if and only if both rooms have players and the two differ; the round is then on |
| Calls.PreserveAcceptedIff | backend/internal/services/leader_service.go:29-62 | the leaders are kept if and only if both are still players, and the round is then on |
| Calls.InstallAcceptedIff | backend/internal/services/leader_service.go:488-517 | a player can be put in office if and only if there is a round and they stand in the room; the error says what is missing |
| Rounds.RoundsProgress | backend/internal/services/round_manager.go:360-448 | after a start with no advance or reveal pending: rounds 1, 2, 3 in order, each left once and ended at most once, exactly 180, 120, 60 ticks after it began; the next round or the reveal on its way once both leaders are ready, the reveal only in round 3; SELECTING means the clock is at zero |
| Calls.OpenAcceptedIff | backend/internal/services/round_manager.go:46-108 | rounds 1 to 3 of a session can be opened; a round opens with its 180, 120 or 60 seconds, its number of hostages, nothing selected and nobody ready, and keeps the leaders |
| Calls.TickEffect | backend/internal/services/round_manager.go:196-256 | a tick takes one second off a clock that is above zero, and turns the round to SELECTING exactly when it reaches zero |
| Calls.ReadyAcceptedIff | backend/internal/services/round_manager.go:360-416 | each leader is ready once, and only that leader's flag changes |
| Rounds.StartOrderlyIff | backend/internal/services/game_service.go:589-629 | a new game, whatever was played before, keeps all that over every run if and only if no advance or reveal of an earlier game is pending |
| Rounds.LeftoverHappens | backend/internal/services/round_manager.go:417-448 | from every lobby, a start, both leaders ready and a reset leave such an advance, and every game started next can get out of order |
| Rounds.StepKeepsRound | backend/internal/services/round_manager.go:196-256 | every step but a start, a reset and a manual start of a round keeps the clock, the history and the single pending advance in agreement |
| Resolution.ResolvedExactlyOnce | backend/internal/services/voting_service.go:262-278 | over every interleaving a vote leaves ACTIVE at most once, causes at most one leader change or election and only then, and has its timeout pending as long as it is stored and ACTIVE |
| Resolution.StepKeepsOnce | backend/internal/services/voting_service.go:434-448 | every section of a cast, a completion or a timeout keeps that count, for every vote |
| Resolution.VotesFrozenOnceResolved | backend/internal/services/voting_service.go:178-221 | once a vote has left ACTIVE nothing about it changes in any run, so the tally outside the lock is the tally at resolution |
| Turnout.FullTurnoutNotLost | backend/internal/services/voting_service.go:252-256 | if the accepted votes are those of counted players, a vote has at most as many ballots as voters, and a stored ACTIVE vote with all of them has a turnout check or a completion pending |
| Turnout.OutsiderCastIff | backend/internal/services/voting_service.go:178-256 | accepting a vote leaves the number of ballots within the number of voters, over all runs in which counted players vote on, if and only if the voter was counted |
| Turnout.VotesNeverOverwritten | backend/internal/services/voting_service.go:192-221 | in every run a recorded vote keeps its choice |
| Race.RaceConfluentIff | backend/internal/services/voting_service.go:299-300 | over every run, whoever votes: when a completion is pending for an ACTIVE vote so is the timeout, and the two agree on the room and on whether an election follows if and only if the YES votes of a removal are no majority of the electorate or a majority of the ballots too |
| Race.RaceSettlesIff | backend/internal/services/voting_service.go:259-340 | letting either run to its end, with the election and the release of the table entry, and then the other, leaves the same game but for the vote's final status, if and only if that holds or no election could open |
| Race.RaceConfluent | backend/internal/services/voting_service.go:434-494 | in runs where the accepted votes are those of counted players this is always so |
| Race.CompletedAsIfTimedOut | backend/internal/services/voting_service.go:458-494 | in such runs a vote that was completed had its full turnout, so the timeout's rule gives the same verdict |
| Race.CompletionFromCheck | backend/internal/services/voting_service.go:252-256 | only the turnout check of a vote with exactly as many ballots as voters launches a completion |
| Witnesses.OutsiderVotes | backend/internal/services/voting_service.go:178-256 | every lobby of six or more has a run to an open vote in which the code accepts an outsider, after which there can be more ballots than voters |
| Witnesses.RaceDiverges | backend/internal/services/voting_service.go:299-300 | every lobby of six or more has a run after which the two resolvers leave different games: a unanimous YES, and the NO of as many outsiders before the completion runs |
| Witnesses.EarlyRequest | backend/internal/services/voting_service.go:416-428 | every lobby of six or more has a run in which a removal passes and the next request is accepted before the election, after which the table goes wrong |
| Witnesses.SecondRequest | backend/internal/services/voting_service.go:105-136 | every lobby of six or more has a run in which two requests pass the check before either is stored, after which the table goes wrong |
| Elections.ElectionsInstallCandidates | backend/internal/services/voting_service.go:304-329 | whoever an election installs is a candidate with a maximal count who stands in that room, and is never the leader whose removal led to it |
| Elections.StepKeepsPipeline | backend/internal/services/voting_service.go:416-428 | every step keeps elections following only removals that passed, for the same room, without the removed leader |
| Elections.WinnerExists | backend/internal/services/voting_service.go:305-318 | there is always a result of the tally, and it is nobody only if nobody voted |
| Outcomes.ElectedTakesOffice | backend/internal/services/leader_service.go:488-523 | over every run, the very step that records an installation makes that player the leader of the room and changes nothing else about it; the player is a candidate with a maximal count |
| Outcomes.WinnerInstalledIff | backend/internal/services/voting_service.go:320-329 | the winner takes office if and only if there is a round and the winner stands in the room; otherwise the room stays as it is |
| Outcomes.ElectionOpensToAll | backend/internal/services/voting_service.go:663-722 | over every run, the very step that records a follow-up election opens it, ACTIVE and with its timeout pending, to exactly the players of the room but the removed leader, who are both its candidates and its voters |
| Outcomes.ElectionOpensIff | backend/internal/services/voting_service.go:663-690 | the pause after a passed removal ends in such an election if and only if there is a round and somebody else is in the room |
| Outcomes.ElectionDueIff | backend/internal/services/voting_service.go:299-300 | a decided removal leads to an election if and only if twice its YES votes exceed the electorate on completion, or the ballots on the timeout |
| Calls.RequestAcceptedIff | backend/internal/services/voting_service.go:43-129 | a removal is accepted if and only if a round is on that is not SELECTING, the initiator stands in the room and leads nothing, the target leads and stands there, at least three do, and the table names no stored ACTIVE vote; the session counts exactly that room |
| Calls.RequestRefusals | backend/internal/services/voting_service.go:43-107 | every refusal of a removal states a fact |
| Calls.ElectionAcceptedIff | backend/internal/services/voting_service.go:669-714 | an election is accepted if and only if there is a round and somebody but the excluded player in the room; its candidates are all of those, once each, and its electorate as many |
| Calls.CastAcceptedIff | backend/internal/services/voting_service.go:178-221 | a ballot is accepted if and only if the vote is stored and ACTIVE, the voter has not voted, and the choice is one of the vote's; it is all that changes, and the error names the first thing wrong |
| Calls.FileEffect | backend/internal/services/voting_service.go:131-136 | a stored session is ACTIVE and its room's table entry, and no other session or entry changes |
| Calls.MarkEffect | backend/internal/services/voting_service.go:434-448 | a session is marked only while stored and ACTIVE, and only a timeout frees its room's entry |
| VoteIndex.IndexStaysRight | backend/internal/services/voting_service.go:571-583 | in every run from no votes that accepts no removal request during an unfinished resolution or while another is being stored, at most one vote per room is ACTIVE and the table, the query and a scan of the sessions agree on it |
| VoteIndex.EarlyVoteIff | backend/internal/services/voting_service.go:105-137 | after an accepted removal request the table stays right over all such runs if and only if no resolver of that room is still to touch it and no other request is between its check and its storing |
| VoteIndex.ReleaseBreaks | backend/internal/services/voting_service.go:333-340 | a release that is still to come deletes the entry of a newer vote |
| VoteIndex.ElectBreaks | backend/internal/services/voting_service.go:416-428 | an election that is still to come opens a second ACTIVE vote beside a newer one |
| VoteIndex.FilingBreaks | backend/internal/services/voting_service.go:131-136 | storing a session while a resolver of its room is unfinished leads to a table that is wrong |
| VoteIndex.TwoFilingsBreak | backend/internal/services/voting_service.go:131-136 | two sessions of a room that are both still to be stored end as two ACTIVE votes |
| Lobby.LobbyAlways | backend/internal/services/player_service.go:28-66 | over all joins, leaves, renames, changes of owner and games, a room never holds more than its 6 to 30 players, their ids differ, and exactly one of them owns it |
| Lobby.LeaveClosesIff | backend/internal/services/player_service.go:150-237 | a departure closes the room if and only if it is the owner's and no game is in progress: the branch for an emptied room is unreachable |
| Lobby.MembershipFrozen | backend/internal/services/player_service.go:41-43 | nobody joins or leaves a room during a game |
| Lobby.WaitingIsClean | backend/internal/services/game_service.go:589-629 | over every stay, with any leftover goroutines, a room that waits has no session and nobody in it has a role, a team or a room |
| Lobby.JoinAcceptedIff | backend/internal/services/player_service.go:28-85 | a player joins if and only if there is a place and no game; newcomers come last, anonymous and numbered, and only the first owns the room |
| Lobby.LeaveEffect | backend/internal/services/player_service.go:150-242 | between games a departure takes exactly that player out, and the owner's closes the room; during a game nobody goes |
| Lobby.OwnershipEffect | backend/internal/services/room_service.go:99-139 | the first player other than the old owner owns the room alone, and nothing else changes |
| Lobby.StayIsRun | backend/internal/services/player_service.go:28-237 | every stay of a room from its creation is a run of the protocol, so that the theorems on all runs apply to it |
| Lobby.StayKeepsPopulation | backend/internal/services/game_service.go:451-473 | from a room's creation on, whoever comes and goes, a game in progress has 6 to 30 players evenly split between the rooms |
| Lobby.RenameKeepsNames | backend/internal/services/player_service.go:95-125 | a rename keeps nicknames pairwise distinct |
| Lobby.RenameAcceptedIff | backend/internal/services/player_service.go:95-118 | a rename is accepted if and only if the name has 2 to 20 characters and the player exists |
| Lobby.RenameEffect | backend/internal/services/player_service.go:119-125 | the player is called by the wanted name if nobody else is, or by it with the first number from 2 on with which nobody else is, or 101 after 100; they are no longer anonymous, and nothing else changes |
| Lobby.JoinKeepsNamesIff | backend/internal/services/player_service.go:88-92 | a join keeps nicknames distinct if and only if nobody goes by the next number |
| Lobby.AnonymousNamesClash | backend/internal/services/player_service.go:88-92 | three joins, a leave and a join give two players the same nickname |
| Nicknames.DeduplicatedTakenIff | backend/internal/services/player_service.go:258-296 | the name found is somebody else's if and only if the wanted name and all its suffixes up to the one past the cap are |
| Nicknames.DeduplicatedIsFree | backend/internal/services/player_service.go:258-296 | in a room of at most a hundred players the search ends before its cap, with a name nobody else holds |
| Nicknames.Pigeonhole | backend/internal/services/player_service.go:274-295 | a name and its first suffixes can only all be taken by as many different names of other players |
| Nicknames.SuffixedInjective | backend/internal/services/player_service.go:276-276 | different suffixes give different names |
| Nicknames.DecimalInjective | backend/internal/services/player_service.go:276-276 | different numbers are written differently |
| Nicknames.DecimalReads | backend/internal/services/player_service.go:276-276 | numbers are written in decimal without leading zeros and read back the same |
| RateTraces.RateBound | backend/internal/middleware/rate_limiter.go:61-100 | over every trace one address gets at most (k + 1) * rate requests through in any half-open interval of k periods: windows, but an hour and a tick for a limiter that sweeps and has a longer window |
| RateTraces.RateBoundTight | backend/internal/middleware/rate_limiter.go:61-100 | that bound is reached for every k and every window longer than one tick |
| OverlapTraces.OverlapBound | backend/internal/middleware/rate_limiter.go:61-120 | however requests overlap with each other and with sweeps, at most (k + 1) * rate requests get through in k periods, besides those on a bucket swept since they found it |
| OverlapTraces.OverlapExceeds | backend/internal/middleware/rate_limiter.go:61-120 | a trace with one such request passes the bound of requests without overlap by one |
| OverlapTraces.RequestIsFindThenUse | backend/internal/middleware/rate_limiter.go:61-100 | the two sections with nothing in between are one request of the limiter, with the same answer and the same table |
| RateTraces.AddressesIndependent | backend/internal/middleware/rate_limiter.go:61-79 | no other address's requests change what an address is answered |
| RateTraces.EvictionInvisibleIff | backend/internal/middleware/rate_limiter.go:103-120 | with the two readings of a request alike, or a whole window apart, sweeps never change an answer over all traces if and only if the window is at most an hour and one tick, or nothing is ever allowed |
| RateTraces.EvictionAlwaysInvisibleIff | backend/internal/middleware/rate_limiter.go:61-120 | with any two readings, sweeps never change an answer if and only if the window is at most one tick, or nothing is ever allowed |
| RateTraces.SimulationDecides | backend/internal/middleware/rate_limiter.go:103-120 | an absent bucket answers like one that is due for refill, so the evicting limiter and one that never evicts give the same answers |
| RateLimiter.Bucket.Serve | backend/internal/middleware/rate_limiter.go:81-99 | refills when the window has passed, then takes a token if there is one, and says whether there was |
| RateLimiter.Limiter.Allow | backend/internal/middleware/rate_limiter.go:61-100 | answers and updates the table of buckets as the step does, with one reading of the clock for a new bucket and one for its use, and touches no other bucket |
| RateLimiter.Limiter.Sweep | backend/internal/middleware/rate_limiter.go:107-118 | deletes exactly the buckets whose last refill is more than an hour ago |
| Dealing.SelectionExact | backend/internal/services/game_service.go:171-285 | dealing each team its deck deals every selected role its chosen count, and the blue filler to everybody left, for every order of equal priorities |
| Dealing.DefinitionsExact | backend/internal/services/game_service.go:212-285 | the same for any definitions with non-negative counts and no more cards than players |
| Dealing.DeckExact | backend/internal/services/game_service.go:288-389 | a deck that fits its team holds each definition as often as it should and the filler otherwise, whatever order sorting gave |
| Dealing.ChosenShares | backend/internal/services/game_service.go:173-200 | each role of a configuration with distinct ids is in play as often as it was selected |
| Dealing.DeckOfTeam | backend/internal/services/game_service.go:291-313 | a team is dealt roles of its own colour only |
| Dealing.DeckAsDefined | backend/internal/services/game_service.go:288-435 | every card of a team is one of its definitions, a spy or a leader as its type says, or the basic role of a team without an operative of priority 99 |
| Dealing.TotalSkips | backend/internal/services/game_service.go:193-201 | without an explicit selection the check counts exactly the cards of the roles for games of this size |
| Dealing.BuiltInCounts | backend/internal/services/game_service.go:117-160 | a built-in deck holds one leader, the spies, and operatives for the rest |
| GameService.AssignTeams | backend/internal/services/game_service.go:63-84 | only teams change, and red gets the larger, blue the smaller half, for every shuffle |
| GameService.AssignRoles | backend/internal/services/game_service.go:91-161 | only roles change, everybody holds one of the six built-in roles of their team, and each team large enough has exactly one leader and its one spy, or two from ten players on |
| GameService.AssignRolesWithConfig | backend/internal/services/game_service.go:164-285 | on an error no player has been changed; otherwise everybody holds a role of their team as the configuration defines it, an explicit selection is dealt exactly, and the roles of a configuration without one exactly if there are no more cards than players |
| GameService.AssignTeamRoles | backend/internal/services/game_service.go:288-389 | a team's roles are those of a deck in priority order, each card to one player |
| GameService.TeamsAreExact | backend/internal/services/game_service.go:202-285 | red and grey are as large as the counts say and every role is held exactly as often as its count, the blue filler by the remaining players too |
| GameService.SelectionIsExact | backend/internal/services/game_service.go:171-200 | so every role of an explicit selection is held exactly as often as selected |
| GameService.AllRolesExactIff | backend/internal/services/game_service.go:193-230 | without a selection and with non-negative counts, nobody misses a role that is in play if and only if there are no more cards than players, and then every role is held exactly as often as its count |
| GameService.BuiltInHeld | backend/internal/services/game_service.go:117-160 | over both teams every built-in role is held exactly as often as the rules say |
| GameService.AssignRooms | backend/internal/services/game_service.go:451-473 | only rooms change, and they are split evenly with the odd player in the red one |
| GameService.AssignTeamsAndRoles | backend/internal/services/game_service.go:503-523 | the fallback to the built-in roles finds the teams as first split: everybody is assigned, and the deal is what the configuration or the built-in rules promise on each path |
| GameService.FallsBackIff | backend/internal/services/game_service.go:171-206 | the built-in roles are dealt if and only if there is no configuration or it has more cards than players, counting a selection, or else the roles for games of this size |
| GameService.StartGame | backend/internal/services/game_service.go:477-580 | takes the step, or returns its error; on success everybody has a room and a role of their team, the deal is exact on the configured and on the fallback path, and both leaders stand in their rooms |
| Calls.DealAcceptedIff | backend/internal/services/game_service.go:477-580 | a game starts if and only if none is in progress and there are six players: round 1, 180 seconds, under the leaders drawn, with nothing selected |
| GameService.ResetGame | backend/internal/services/game_service.go:589-629 | takes the step; on success the room waits without a session, nobody has a role, a team or a room, and names and owner flags are as before |
| Calls.ResetAcceptedIff | backend/internal/services/game_service.go:589-629 | a reset is accepted if and only if a game is in progress; it ends the session and everybody's role, team and room, and keeps ids, nicknames and owner flags |
| RoleConfig.ValidateRoleConfig | backend/internal/config/role_validator.go:9-122 | reports no fault if and only if the configuration is valid; then its role ids are distinct |
| RoleConfig.ValidIff | backend/internal/config/role_validator.go:9-122 | a configuration is valid if and only if it is named and versioned, every role is well formed with its own id, priorities differ within the red and the blue team, and both have a leader |
| RoleConfig.CheckRoles | backend/internal/config/role_validator.go:33-92 | the pass with its tables of seen ids and priorities finds a fault if and only if some role is bad or two clash |
| RoomStore.Store.ListPublicRooms | backend/internal/store/room_store.go:73-120 | the page is a slice of a newest-first list of exactly the matching public rooms, and the total is their number |
| RoomStore.Store.MatchingIff | backend/internal/store/room_store.go:79-92 | a room is listed if and only if it is stored and public and its status is the one asked for: waiting for WAITING, in progress for IN_PROGRESS |
| RoomStore.PageAt | backend/internal/store/room_store.go:103-119 | a page holds the rooms from its offset on, as many as there are up to its limit |
| RoomStore.SortNewestFirst | backend/internal/store/room_store.go:94-101 | the in-place exchange sort leaves a newest-first permutation |
| RoomStore.SelectNewest | backend/internal/store/room_store.go:94-101 | the inner loop brings the newest of the remaining rooms forward and permutes only them |
| RoomStore.ListingUniqueIff | backend/internal/store/room_store.go:94-101 | the listing depends on nothing but the rooms if and only if no two of them were created at the same time |
| RoomStore.PagesTile | backend/internal/store/room_store.go:103-119 | pages at successive offsets concatenate to the whole list |
| RoomStore.Store.Create | backend/internal/store/room_store.go:24-34 | stores a room unless its code is in use |
| RoomStore.Store.Get | backend/internal/store/room_store.go:37-47 | finds the room stored under a code, if any |
| RoomStore.Store.Update | backend/internal/store/room_store.go:50-61 | replaces the room under its code, and refuses one that is not stored |
| RoomStore.Store.Delete | backend/internal/store/room_store.go:64-70 | removes one room and no other |
| RoomService.CreateRoom | backend/internal/services/room_service.go:39-91 | creates an empty room of 6 to 30 places under an unused code, and fails only on a bad size or ten used codes |
| RoomService.GetPublicRooms | backend/internal/services/room_service.go:150-185 | clamps the parameters, so that every page is in bounds and has at most 100 rooms |
| RoomService.TransferOwnership | backend/internal/services/room_service.go:99-139 | makes the first player other than the old owner the only owner |
| PlayerService.JoinRoom | backend/internal/services/player_service.go:28-85 | takes the join step, or returns its error |
| PlayerService.UpdateNickname | backend/internal/services/player_service.go:95-146 | takes the rename step, or returns its error; on success the player has the name given, and nothing else has changed |
| PlayerService.HandleDuplicateNickname | backend/internal/services/player_service.go:258-296 | finds the first free name |
| PlayerService.LeaveRoom | backend/internal/services/player_service.go:150-255 | takes the departure step: the room is deleted, or remains as the step says, or nothing changes |
| PlayerService.RemoveGuest | backend/internal/services/player_service.go:225-242 | takes one player off the list and keeps the order of the others |
| LeaderService.PreserveLeaders | backend/internal/services/leader_service.go:29-62 | takes the step, or returns its error |
| LeaderService.AssignLeaders | backend/internal/services/leader_service.go:97-144 | takes the step for a random player of either room, or returns its error |
| LeaderService.PickEligible | backend/internal/services/leader_service.go:330-345 | picks somebody standing in the room who is not excluded, if there is anybody |
| LeaderService.TransferLeadership | backend/internal/services/leader_service.go:228-288 | takes the step, or returns its error |
| LeaderService.CheckTransfer | backend/internal/services/leader_service.go:250-281 | finds the first fault of a handover in the source's order, or the room the two players share |
| LeaderService.HandleLeaderDisconnect | backend/internal/services/leader_service.go:302-357 | takes the step for a random other player of that leader's room, or returns its error |
| LeaderService.AssignNewLeader | backend/internal/services/leader_service.go:441-485 | takes the step for a random eligible player, or returns its error |
| LeaderService.SetLeader | backend/internal/services/leader_service.go:488-533 | takes the step, or returns its error; on success the player leads the room and nothing else has changed |
| ExchangeService.SelectHostages | backend/internal/services/exchange_service.go:33-169 | takes the step, or returns its error, and starts the exchange if and only if both selections are now there |
| ExchangeService.CheckMembers | backend/internal/services/exchange_service.go:78-101 | finds the first selected id that repeats, is unknown, or stands elsewhere |
| ExchangeService.CheckNoLeader | backend/internal/services/exchange_service.go:67-76 | finds the first selected leader |
| ExchangeService.Reassign | backend/internal/services/exchange_service.go:234-252 | moves one player to where the two selections send them |
| ExchangeService.ExecuteExchange | backend/internal/services/exchange_service.go:172-260 | takes the step on every player, or returns its error |
| RoundManager.Manager.StartRound | backend/internal/services/round_manager.go:46-115 | takes the step, or returns its error, and leaves one new timer as the only one running for the session |
| RoundManager.Manager.StartTimer | backend/internal/services/round_manager.go:158-193 | stopping and registering with nothing in between: a started timer runs exactly as long as the table holds it; starting one stops the session's other and no one else's |
| RoundManager.Manager.Register | backend/internal/services/round_manager.go:158-171 | the section that registers a new timer keeps a started timer running exactly as long as the table holds it, if and only if no other timer of the session is registered |
| RoundManager.Manager.StartTwoTimers | backend/internal/services/round_manager.go:158-171 | a whole second call between the two sections of a first leaves a timer running that the table does not hold |
| RoundManager.Manager.StopTimer | backend/internal/services/round_manager.go:259-272 | stops the session's timer only, and closes no channel twice |
| RoundManager.TickTimer | backend/internal/services/round_manager.go:196-256 | takes the step, or returns its error |
| RoundManager.LeaderReady | backend/internal/services/round_manager.go:360-448 | takes the step, or returns its error, and starts the next round or the reveal if and only if both leaders are now ready |
| RoundManager.TransitionToRevealing | backend/internal/services/round_manager.go:451-480 | takes the step, or returns its error |
| VotingService.Service.StartVote | backend/internal/services/voting_service.go:42-137 | both sections with nothing in between: files the removal session the step describes, or returns its error |
| VotingService.Service.CheckRemoval | backend/internal/services/voting_service.go:43-107 | the checking section finds the step's first error, among them a vote already ACTIVE, or counts the electorate of the session to be stored |
| VotingService.CheckRequest | backend/internal/services/voting_service.go:48-102 | finds the first fault of a request in the source's order, and counts the players of the room |
| VotingService.Service.Store | backend/internal/services/voting_service.go:131-136 | the storing section makes a new session the active one of its colour, whatever the table named, and touches no other session |
| VotingService.CheckTurnout | backend/internal/services/voting_service.go:252-256 | launches a completion as the step does: exactly on a full turnout |
| VotingService.Service.StartElectionVote | backend/internal/services/voting_service.go:663-722 | files the election session the step describes, or returns its error |
| VotingService.Service.RecordVote | backend/internal/services/voting_service.go:178-221 | records a first valid vote of a stored ACTIVE session and nothing else, or returns the step's error |
| VotingService.Service.MarkCompleted | backend/internal/services/voting_service.go:262-278 | marks a stored ACTIVE session and hands it to the caller, or leaves everything alone |
| VotingService.Service.MarkTimedOut | backend/internal/services/voting_service.go:434-448 | marks a stored ACTIVE session and releases its table entry, or leaves everything alone |
| VotingService.Service.ReleaseIndex | backend/internal/services/voting_service.go:335-340 | deletes the entry of one colour, whichever vote it names |
| VotingService.Service.HasActiveVote | backend/internal/services/voting_service.go:571-583 | says whether the table names a stored ACTIVE vote |
| VotingService.Service.GetActiveVoteForRoom | backend/internal/services/voting_service.go:644-660 | returns the stored ACTIVE vote the table names |
| VotingService.Service.ExpireSession | backend/internal/services/voting_service.go:631-637 | drops one session from the store; goroutines keep theirs |
| VotingService.TallyRemoval | backend/internal/services/voting_service.go:288-297 | counts YES and other votes exactly, in any order of the map |
| VotingService.MostVoted | backend/internal/services/voting_service.go:311-318 | finds a largest count, in any order of the map |
| VotingService.TallyElection | backend/internal/services/voting_service.go:304-318 | returns a choice with a maximal count, in any order of the maps, and nobody only for no votes |
| VotingService.Decide | backend/internal/services/voting_service.go:280-329 | applies each resolver's rule, and installs the winner by the leader step; a winner without error leads the room |

## Left out

- Other rooms: the protocol is about one room, so vote ids from elsewhere and a room deleted under its goroutines are
  not modelled; `CastVote` is not told a room code that differs from its session's.
- Data races on a shared room below the level of service calls.
- The ten-minute spacing of the limiter's sweeps: a sweep may come at any time.
- The five-minute age of the sweep of vote sessions: any stored session may expire at any time.
- `EndRound`, `TransitionToExchanging`, `ValidateSelections`, `GetSelectionStatus` and `mapRoleIDToModel`, which
  nothing calls, and `Cleanup`, which runs at shutdown.
- Visibility changes, plain getters, session and player timestamps, and nickname copies inside vote sessions: they
  would only add easy members.
- Names, descriptions and icons of roles, the parsing of role counts, and their range patterns: a count is a number or
  a table from player counts to numbers.
- The random generator, identifiers and room codes: choices are arbitrary, new ids are fresh, codes are arguments.
- HTTP, JSON, the websocket hub, every broadcast, logging, and the web frontend.
