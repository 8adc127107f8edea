# crash-server round core, modelled in Dafny

This project models the sequential core of a multiplayer "crash" betting server: the balance ledger (`BalanceSystem`), the provably-fair crash-point arithmetic (`CrashGameMath`), the round phase state machine (`CrashGame`) and the handlers of the session coordinator actor (`GameServer`). Every operation is a pure function or a small method over immutable maps and datatypes.

- The locks and atomics of the ledger are dropped: each call is a map transformer.
- The spawned betting and flight timers become step functions over their loop-local state. One step is one loop iteration.
- Each coordinator handler is a transition of (peers, session → uuid, bets, players online), plus the list of (recipient, event) sends it makes.

Files:

- `ints.dfy`: `u32`/`u64` as subset types, with the wrap-around of `fetch_add`/`fetch_sub`/`wrapping_mul` written out.
- `wrappers.dfy`: `Option` and `Result<T, ()>`.
- `ids.dfy`: uuid and session id types.
- `balance_system.dfy`, `crash_game_math.dfy`, `crash_game.dfy`, `game_server.dfy`: one module per source file.

Modelling choices:

- **HMAC-SHA256** is a function parameter `mac: (string, string) -> HexDigest`. `HexDigest` is a string of 64 hex digits. Because `GenerateCrashPoint` is a function of its arguments, the same seeds, house-edge divisor and round id always give the same crash point.
- **House edge.** The `f32` house edge becomes the positive integer divisor `hs`. Crash points are integer hundredths: 142 means 1.42x.
- **Source revisions differ.** `game_server.rs` reads the phase and the live multiplier through `get_game_data`, which is not in the shown `crash_game.rs`. The coordinator handlers therefore take a `GameData` value (phase, multiplier, timers) as an argument.
- **Phase input to `PlayerJoined`.** When the phase it is given is `Idle`, `PlayerJoined` returns `startBetting = true`. That stands for the call to `start_betting_timer`.
- **Broadcast order.** `broadcast` iterates a `HashMap` in no fixed order, so `Broadcast` is a method that picks the next peer nondeterministically. Its contract says who receives what, not in which order.

Where the design description and the code disagree, the model follows the code. The one exception is the players-online counter of `PlayerJoined` and `Disconnect`. There the handler methods return the corrected bookkeeping, and the code as written is modelled separately (see "## Findings" and "## Left out").

- The coordinator never touches the ledger. Joining does not call `ensure_balance`. A bet reserves nothing, a cash-out credits nothing, and the round end commits nothing. The balance sent in `PlayerJoinedResponse` and `CrashOutResponse` is the literal 0.
- `reserve_bet_amount` checks the balance (`can_sub`), not the available amount. A second reservation overwrites the first.
- `divisible` does not reduce the whole hash modulo `hs`. It reduces each 4-digit chunk and shifts the residues into a `u64`. Only the last four residues survive, so for a 64-digit digest the instant crash happens exactly when hex digits 48–63, read as four chunks, are all multiples of `hs` (`InstantCrashIffTailDivisible`).
- `GameFinished` and `GameError` clear the bets but do not start a new betting phase: the restart is commented out.
- The cash-out win is `bet × multiplier` with no division by 100.
- The counts reported in `RemotePlayerJoined` and `RemotePlayerLeft` are the values before the change, because `fetch_add`/`fetch_sub` return the old value.
- The engine's round result is the constant multiplier 142 with a 10-second animation. This revision has no seeds or round ids in the engine.
- The betting countdown's shared counter wraps to `u32::MAX` on the loop's last decrement. It stays there through the flight and is reset to 5 only when the game finishes (`BettingPhaseRuns`, `RoundCycleCloses`).

## Model

| member | source | states |
|---|---|---|
| BalanceSystem.Empty | src/services/balance_system.rs:17-22 | a fresh ledger has no balances and no reservations, and so satisfies the invariant `reserved <= balance` with equal key sets |
| BalanceSystem.EnsureBalance | src/services/balance_system.rs:26-32 | afterwards the account has both entries; an existing entry keeps its values; a new one gets 999_900 and reservation 0; the invariant is kept |
| BalanceSystem.EnsureBalanceIdempotent | src/services/balance_system.rs:26-32 | creating an account twice is the same as creating it once |
| BalanceSystem.FetchBalance | src/services/balance_system.rs:35-50 | the result plus the reservation equals the balance when the reservation is covered; otherwise the result is 0; an unknown uuid gives 0; never above the balance |
| BalanceSystem.SaturatingSub | src/services/balance_system.rs:49 | `saturating_sub`: the result plus the subtrahend gives back the minuend when that is large enough; otherwise 0; never above the minuend |
| BalanceSystem.AvailablePlusReservedIsBalance | src/services/balance_system.rs:35-50 | under the invariant, available plus reserved is exactly the balance, so the saturation never applies |
| BalanceSystem.Add | src/services/balance_system.rs:53-62 | unknown uuid: Err and no change; known uuid: Ok with the new stored balance, other accounts and reservations untouched; the balance rises by exactly the amount without overflow; with overflow it is the sum minus 2^64, below the old balance |
| BalanceSystem.AddPreservesValid | src/services/balance_system.rs:53-62 | a credit that does not overflow keeps `reserved <= balance` |
| BalanceSystem.AddOverflowBreaksValid | src/services/balance_system.rs:53-62 | a concrete valid ledger where an overflowing credit leaves balance 0 below reservation 1 |
| BalanceSystem.CheckedAdd | src/services/balance_system.rs:53-62 | corrected credit: Ok exactly when the account exists and the sum fits in 64 bits, then balance rises by the amount; otherwise nothing changes; the invariant holds for all inputs |
| BalanceSystem.Sub | src/services/balance_system.rs:66-81 | succeeds iff the account exists and holds at least the amount; then result + amount = old balance and that is the new balance; on Err nothing changes |
| BalanceSystem.CanSub | src/services/balance_system.rs:85-93 | true exactly when `sub` would succeed |
| BalanceSystem.ReserveBetAmount | src/services/balance_system.rs:95-105 | true iff `can_sub` holds and a reservation entry exists; on success the reservation is overwritten with the amount; on failure nothing changes; the balance is never touched; the invariant is kept |
| BalanceSystem.ReserveSucceedsIffCovered | src/services/balance_system.rs:85-105 | on a valid ledger a registered account's reservation succeeds iff its balance covers the amount |
| BalanceSystem.CommitReservedBetAmount | src/services/balance_system.rs:107-115 | unknown reservation: no change; otherwise the reservation becomes 0, and the balance drops by the reserved amount when it covers it and is unchanged when it does not; the invariant is kept, and under it the debit is always exactly the reserved amount |
| BalanceSystem.ReserveThenCommit | src/services/balance_system.rs:95-115 | reserve then commit debits exactly the reserved amount and leaves nothing reserved, so the whole balance is available |
| BalanceSystem.ReachableLedgersValid | src/services/balance_system.rs:26-115 | any sequence of create, checked credit, reserve and commit keeps `reserved <= balance` for every account |
| CrashGameMath.HexValue | src/services/crash_game_math.rs:70 | a string of n hex digits denotes a number below 16^n |
| CrashGameMath.Decimal | src/services/crash_game_math.rs:58 | the decimal rendering of the round id is non-empty, all digits, and has no leading zero unless it is "0" |
| CrashGameMath.DecimalRoundTrip | src/services/crash_game_math.rs:58 | reading the rendered round id back gives the round id |
| CrashGameMath.RoundMessage | src/services/crash_game_math.rs:58 | the HMAC message starts with the client seed and continues with the decimal round id, which `DecimalRoundTrip` reads back |
| CrashGameMath.RoundHexHash | src/services/crash_game_math.rs:55-61 | the round hash is the 64-digit MAC, keyed by the server seed, of the client seed followed by the decimal round id, so equal arguments give equal hashes |
| CrashGameMath.RoundMessageInjective | src/services/crash_game_math.rs:55-61 | with the same client seed, different round ids give different HMAC messages |
| CrashGameMath.ChunkValue | src/services/crash_game_math.rs:70 | each 4-digit chunk is below 65536 |
| CrashGameMath.Residues | src/services/crash_game_math.rs:69-70 | one residue per chunk, each the chunk modulo `mod_val`, below both `mod_val` and 65536 |
| CrashGameMath.Shl16 | src/services/crash_game_math.rs:71 | `val << 16` on u64 keeps the low 48 bits moved up 16 and ends in 16 zero bits |
| CrashGameMath.ShiftFold | src/services/crash_game_math.rs:66-73 | the fold fits in u64, and its low 16 bits are exactly the last residue: adding the residue never carries |
| CrashGameMath.ShiftFoldIsLastFour | src/services/crash_game_math.rs:66-74 | the fold is the last four residues packed as 16-bit fields; earlier residues are shifted out |
| CrashGameMath.Divisible | src/services/crash_game_math.rs:63-75 | an empty hash is divisible, and a divisible hash ends in a chunk that is a multiple of `mod_val`; `DivisibleIffLastFourResiduesZero` gives the full characterisation |
| CrashGameMath.DivisibleIffLastFourResiduesZero | src/services/crash_game_math.rs:63-75 | `divisible` holds iff the residues of the last four chunks are all zero |
| CrashGameMath.DivisibleWhenEveryChunkDivisible | src/services/crash_game_math.rs:63-75 | a hash whose every chunk is a multiple of `mod_val` is divisible |
| CrashGameMath.InstantCrashIffTailDivisible | src/services/crash_game_math.rs:25-31 | for the 64-digit round hash, the 1.00 instant crash happens iff chunks 12 to 15 are multiples of `hs` |
| CrashGameMath.Prefix | src/services/crash_game_math.rs:33-37 | the 13-hex-digit prefix `h` is below e = 2^52 |
| CrashGameMath.CrashHundredths | src/services/crash_game_math.rs:38-40 | `e - h` is positive, `100 * e` and the quotient fit in u64, the result is at least 100, and exactly 100 when h = 0 |
| CrashGameMath.CrashHundredthsMonotone | src/services/crash_game_math.rs:37-40 | a larger prefix never gives a lower crash point |
| CrashGameMath.GenerateCrashPoint | src/services/crash_game_math.rs:19-43 | never None and never below 1.00; exactly 1.00 when the round hash is divisible by `hs`; otherwise the formula on its prefix |
| CrashGame.New | src/services/crash_game.rs:37-43 | a new engine is idle |
| CrashGame.GetGameState | src/services/crash_game.rs:118-128 | betting iff the betting flag is set; game iff only the game flag is set; idle iff neither is set |
| CrashGame.ResetBettingTimeLeft | src/services/crash_game.rs:161-164 | the countdown becomes 5; both phase flags, and hence the phase, are unchanged |
| CrashGame.DecrementBettingTimeLeft | src/services/crash_game.rs:157-159 | returns the value before the decrement; the counter drops by one, wrapping from 0 to u32::MAX; both phase flags, and hence the phase, are unchanged |
| CrashGame.StartBettingTimer | src/services/crash_game.rs:45-64 | outside idle nothing happens and no task starts; from idle the countdown is 5, only the betting flag is set, and the countdown task starts at 5 |
| CrashGame.GetRoundResult | src/services/crash_game.rs:130-135 | every round flies to multiplier 142 over a 10-second animation |
| CrashGame.StartGame | src/services/crash_game.rs:79-99 | outside the game phase nothing happens; in it the state is unchanged (setting the flag again is idempotent) and the flight task starts at second 0 |
| CrashGame.OnBettingTimerFinished | src/services/crash_game.rs:137-141 | the phase becomes game, the countdown untouched |
| CrashGame.OnGameFinished | src/services/crash_game.rs:143-147 | the game flag drops and the countdown is reset to 5; from the game phase this is idle |
| CrashGame.TimerStep | src/services/crash_game.rs:64-114 | one iteration of either spawned loop. Countdown: while its counter is positive it takes the value the shared counter had and keeps the phase; at 0 it enters the game and starts the flight at second 0. Flight: below the duration it advances one second and changes nothing else; at the duration the game flag drops, the countdown is reset to 5 and the task ends |
| CrashGame.Run | src/services/crash_game.rs:64-114 | zero iterations, or no running task, change nothing, and a finished task never restarts |
| CrashGame.RunAdditive | src/services/crash_game.rs:64-114 | running a iterations and then b more is the same as running a + b |
| CrashGame.CountdownReachesZero | src/services/crash_game.rs:64-76 | while the loop's counter is one ahead of the shared one, each tick takes the returned old value, so after that many ticks the loop counter is 0 and the shared counter has wrapped |
| CrashGame.BettingPhaseRuns | src/services/crash_game.rs:45-76 | from idle the betting loop ticks six times, exits only after the decrement that returns 0, and its seventh iteration enters the game with the flight at second 0 |
| CrashGame.FlightReachesDuration | src/services/crash_game.rs:99-106 | the flight loop advances one second per tick, changing nothing else, until the animation duration |
| CrashGame.RoundCycleCloses | src/services/crash_game.rs:45-147 | idle to betting to game (after 7 steps, still in the game after 17) and back to idle with countdown 5 and no task after 18 steps |
| GameServer.EmptyServer | src/services/game_server.rs:42-53 | a fresh server has no peers, sessions or bets and a zero counter, so it counts zero players for zero sessions |
| GameServer.Broadcast | src/services/game_server.rs:56-62 | every registered peer other than the excluded uuid receives the event exactly once, and nobody else receives anything |
| GameServer.OnPlayerJoined | src/services/game_server.rs:120-127 | the peer (replacing any earlier entry for the uuid) and the session are registered; bets untouched; players online stays equal to the number of joined sessions |
| GameServer.OnPlayerJoinedAsWritten | src/services/game_server.rs:120-127 | same maps as the corrected version, but the counter is raised on every join message |
| GameServer.RepeatedJoinAsWrittenMiscounts | src/services/game_server.rs:120-127 | as written, one session joining twice is counted as two players |
| GameServer.JoinResponse | src/services/game_server.rs:131-138 | the joiner's answer carries the round view's phase, multiplier and timers, the display name, and balance 0 |
| GameServer.PlayerJoined | src/services/game_server.rs:110-151 | the returned state is the corrected bookkeeping `OnPlayerJoined` (see Left out); the joiner gets exactly one `PlayerJoinedResponse` with the round view and balance 0, as the first send; every other earlier peer gets `RemotePlayerJoined` with the count before the join; betting starts iff the phase was idle |
| GameServer.OnDisconnect | src/services/game_server.rs:88-104 | the session mapping goes, and so does the peer it named; an unknown session changes nothing; bets are untouched; the player count invariant is kept |
| GameServer.OnDisconnectAsWritten | src/services/game_server.rs:88-94 | same maps as the corrected version, but the counter drops on every disconnect |
| GameServer.UnjoinedDisconnectAsWrittenWraps | src/services/game_server.rs:88-91 | as written, a connection that closes without joining drives an empty server's counter to u32::MAX |
| GameServer.Disconnect | src/services/game_server.rs:85-104 | the returned state is the corrected bookkeeping `OnDisconnect` (see Left out); nothing is sent unless the session's peer was registered; then every remaining peer gets `RemotePlayerLeft` once, with the count before the decrement |
| GameServer.OnBetRequest | src/services/game_server.rs:157-185 | the bet map gains uuid → amount only for a known session, in betting, with no bet yet; otherwise the state is unchanged; no existing bet is ever altered |
| GameServer.BetRequest | src/services/game_server.rs:157-185 | a rejected bet sends nothing; an accepted bet of a registered peer reaches every other peer once as `RemotePlayerBetsPlaced` |
| GameServer.FirstBetWins | src/services/game_server.rs:163-165 | a later bet by the same player in the round, from any session, leaves the first bet |
| GameServer.WinAmount | src/services/game_server.rs:197 | the win is bet × multiplier whenever that fits in u64 |
| GameServer.OnCrashOut | src/services/game_server.rs:191-196 | only a known session in the game phase holding a bet has the bet removed; otherwise nothing changes |
| GameServer.CrashOutRequest | src/services/game_server.rs:191-225 | an accepted cash-out of a registered peer sends the bettor exactly one `CrashOutResponse` and every other peer one `RemotePlayerCrashOut` with the same win; otherwise nothing is sent |
| GameServer.SecondCrashOutIsNoOp | src/services/game_server.rs:196 | after a cash-out a second one in the round is not accepted and changes nothing |
| GameServer.OnRoundEnd | src/services/game_server.rs:286-302 | round end empties the bet map and leaves peers, sessions and count alone |
| GameServer.GameFinishedHandler | src/services/game_server.rs:286-293 | every peer gets `GameFinished` once; the bets are cleared; no betting restart |
| GameServer.GameErrorHandler | src/services/game_server.rs:299-302 | every peer gets `GameError` once; the bets are cleared |
| GameServer.Relay | src/services/game_server.rs:231-281 | timer, round-update and game-started events reach every peer once, unchanged, and the state is untouched |
| GameServer.PlayersOnlineCountsSessions | src/services/game_server.rs:85-151 | with the corrected counting, any sequence of handled messages keeps players online equal to the number of joined sessions, modulo 2^32 |

## Left out

- WebSocket plumbing, heartbeat and request decoding (`peer.rs`, `create_ws.rs`): I/O with no logic of its own. `peer.rs` is read only to see that every closing connection sends `Disconnect`.
- JWT authentication and uuid generation (`auth.rs`, `auth_token_extractor.rs`, `user_claims.rs`): foreign library calls and wall-clock time.
- FlatBuffers encoding (`flatbuffer_utils.rs`): generated code.
- SHA-256 and HMAC-SHA256: a function parameter, never computed. `sha256` and the hashes of `BettingTimerStarted` are opaque strings.
- `generate_seed` and the random session id of `Connect`: randomness. `Connect` changes no state, so it has no handler model; session ids are inputs.
- Floating point: the `f32` house edge → `hs` conversion and the final `/ 100.0` to `f64`. `hs` is a positive integer and the result is in hundredths.
- `map_range` interpolation of the flight multiplier: external crate, and the value is only logged in this revision.
- Spawned tasks, intervals and atomics: replaced by the step functions `TimerStep`/`Run`. Interleavings with other callers are not modelled.
- The 100,000-round return-to-player test: statistical over floats and asserts nothing.
- `main.rs`, `env_settings.rs`, `build.rs`, `stats.rs`, `game_stats.rs` (apart from its counter), `error_response.rs`: startup, configuration and constant tables.
- `CrashGame::new(betting_time_duration, house_edge_pct)`, `set_game_server_addr` and `get_game_data`: called by the coordinator but absent from the shown revision of `crash_game.rs`. Their results enter as `GameData`.
- Logging everywhere.
- CrashGameMath.Divisible: requires the hash length to be a multiple of 4. For other lengths `o - 4` underflows `usize` (a panic in a debug build), whatever the comment says about a shorter first chunk. The HMAC digest always has 64 digits.
- CrashGameMath.GenerateCrashPoint: requires `hs > 0`. The source panics on `% 0`, and already on `100 / 0` when the house edge rounds to a zero percentage.
- GameServer.WinAmount: wraps modulo 2^64, as a release build does. A debug build panics on the overflowing multiplication instead.
- BalanceSystem.Add: the returned value also wraps (release semantics). A debug build panics on `+ amount_to_add` after the wrapping store.
- GameServer.PlayerJoined: the returned state uses the corrected counter (`OnPlayerJoined`). A repeated join from a session that has already joined therefore leaves `players_online` unchanged, where the `fetch_add` at game_server.rs:124-127 raises it. The code as written is `OnPlayerJoinedAsWritten`, and the sends are the same either way, because they depend only on the state before the join.
- GameServer.Disconnect: the returned state uses the corrected counter (`OnDisconnect`). A session that never joined therefore leaves `players_online` unchanged, where the `fetch_sub` at game_server.rs:88-91 decrements it, wrapping from 0. The code as written is `OnDisconnectAsWritten`, and the sends are the same either way.
- `generate_guest_username`: random and not part of this model. The display name it produces enters `PlayerJoined` as the `displayName` argument.
- GameServer.Broadcast: states who receives what, not the order, which depends on `HashMap` iteration.

## Findings

| source | as written | input that shows it | evidently intended | confidence | as-written member | corrected member |
|---|---|---|---|---|---|---|
| src/services/game_server.rs:88-91 | `players_online` is decremented on every `Disconnect`, including connections that never joined (every closing connection sends `Disconnect`) | empty server, one connection closes before joining: the counter becomes 4294967295 with no sessions | decrement only for a session that had joined, so the counter equals the number of joined sessions | medium, not executed | GameServer.OnDisconnectAsWritten (shown by GameServer.UnjoinedDisconnectAsWrittenWraps) | GameServer.OnDisconnect (with GameServer.PlayersOnlineCountsSessions) |
| src/services/game_server.rs:120-127 | `players_online` is incremented on every join message, even a repeated one from the same session | one session sends its join request twice: the counter is 2 with one session | increment only for a session joining for the first time | medium, not executed | GameServer.OnPlayerJoinedAsWritten (shown by GameServer.RepeatedJoinAsWrittenMiscounts) | GameServer.OnPlayerJoined (with GameServer.PlayersOnlineCountsSessions) |
| src/services/balance_system.rs:56 | `fetch_add` wraps the stored balance on overflow | balance 2^64 - 1 with 1 reserved, credit 1: balance 0, reservation 1 | refuse a credit that would overflow, keeping `reserved <= balance` | low, not executed | BalanceSystem.Add (shown by BalanceSystem.AddOverflowBreaksValid) | BalanceSystem.CheckedAdd (with BalanceSystem.ReachableLedgersValid) |
