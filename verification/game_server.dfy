/** The session coordinator of `services/game_server.rs`. The actor handles
    one message at a time, so each handler is a pure transition of the
    server state paired with the list of (recipient, event) sends it makes.
    The round phase and the live multiplier are read from the engine by
    `get_game_data`; here they arrive as a `GameData` argument. Peers are
    addressed by uuid. Broadcast walks a `HashMap`, whose order is
    unspecified, so it is a method that picks the next peer
    nondeterministically. */
module GameServer {
  import opened Ints
  import opened Wrappers
  import opened Ids
  import CrashGame

  datatype PeerInfo = PeerInfo(displayName: string)

  /** What the coordinator reads from the engine before acting. */
  datatype GameData = GameData(gameState: CrashGame.GameState, multiplier: uint32,
                               bettingTimeLeftMs: uint32, roundTimeElapsedMs: uint32)

  datatype GameEvent =
    | RemotePlayerJoined(displayName: string, playersOnline: uint32)
    | RemotePlayerLeft(displayName: string, playersOnline: uint32)
    | PlayerJoinedResponse(gameState: CrashGame.GameState, multiplier: uint32,
                           bettingTimeLeftMs: uint32, roundTimeElapsedMs: uint32,
                           displayName: string, balance: uint64)
    | RemotePlayerBetsPlaced(displayName: string, betAmount: uint64)
    | CrashOutResponse(winAmount: uint64, multiplier: uint32, balance: uint64)
    | RemotePlayerCrashOut(displayName: string, winAmount: uint64)
    | BettingTimerStarted(bettingTimeLeftMs: uint32, roundId: uint32,
                          serverSeedHash: string, nextRoundServerSeedHash: string)
    | BettingTimerUpdate(bettingTimeLeftMs: uint32)
    | GameRoundUpdate(multiplier: uint32)
    | GameStarted
    | GameFinished
    | GameError

  /** One `do_send` of an event to the peer registered under `to`. */
  datatype Send = Send(to: Uuid, event: GameEvent)

  /** The coordinator's state, with the `players_online` counter it shares
      with the stats endpoint. */
  datatype Server = Server(peers: map<Uuid, PeerInfo>, sessions: map<SessionId, Uuid>,
                           bets: map<Uuid, uint64>, playersOnline: uint32)

  function EmptyServer(): (s: Server)
    ensures s.peers == map[] && s.sessions == map[] && s.bets == map[] && s.playersOnline == 0
    ensures Counted(s)
  {
    Server(map[], map[], map[], 0)
  }

  /** The events `out` delivers to `u`, in order. */
  function Deliveries(out: seq<Send>, u: Uuid): seq<GameEvent>
    decreases |out|
  {
    if |out| == 0 then []
    else Deliveries(out[..|out| - 1], u)
         + (if out[|out| - 1].to == u then [out[|out| - 1].event] else [])
  }

  lemma DeliveriesSnoc(out: seq<Send>, x: Send, u: Uuid)
    ensures Deliveries(out + [x], u) == Deliveries(out, u) + (if x.to == u then [x.event] else [])
  {
    assert (out + [x])[..|out|] == out;
  }

  lemma {:induction false} DeliveriesConcat(a: seq<Send>, b: seq<Send>, u: Uuid)
    ensures Deliveries(a + b, u) == Deliveries(a, u) + Deliveries(b, u)
    decreases |b|
  {
    if |b| > 0 {
      var b' := b[..|b| - 1];
      assert a + b == (a + b') + [b[|b| - 1]];
      assert b == b' + [b[|b| - 1]];
      DeliveriesConcat(a, b', u);
      DeliveriesSnoc(a + b', b[|b| - 1], u);
      DeliveriesSnoc(b', b[|b| - 1], u);
    } else {
      assert a + b == a;
    }
  }

  lemma DeliveriesCons(x: Send, rest: seq<Send>, u: Uuid)
    ensures Deliveries([x] + rest, u) == (if x.to == u then [x.event] else []) + Deliveries(rest, u)
  {
    DeliveriesConcat([x], rest, u);
    DeliveriesSnoc([], x, u);
    assert [] + [x] == [x];
  }

  /** `out` delivers `e` once to each uuid of `targets` and nothing to
      anyone else. */
  ghost predicate SentOnceTo(out: seq<Send>, e: GameEvent, targets: set<Uuid>) {
    forall u :: Deliveries(out, u) == (if u in targets then [e] else [])
  }

  lemma SentOnceToExtend(out: seq<Send>, e: GameEvent, targets: set<Uuid>, u: Uuid)
    requires SentOnceTo(out, e, targets) && u !in targets
    ensures SentOnceTo(out + [Send(u, e)], e, targets + {u})
  {
    forall v ensures Deliveries(out + [Send(u, e)], v) == (if v in targets + {u} then [e] else []) {
      DeliveriesSnoc(out, Send(u, e), v);
      assert Deliveries(out, v) == (if v in targets then [e] else []);
      if v == u {
        assert Deliveries(out, v) == [];
      }
    }
  }

  /** Registered peers other than `exclude`. */
  function Audience(peers: map<Uuid, PeerInfo>, exclude: Option<Uuid>): set<Uuid> {
    if exclude.Some? then peers.Keys - {exclude.value} else peers.Keys
  }

  /** `broadcast(event, exclude)`: every registered peer other than
      `exclude` receives `e` exactly once, and nobody else receives anything. */
  method Broadcast(peers: map<Uuid, PeerInfo>, e: GameEvent, exclude: Option<Uuid>)
    returns (out: seq<Send>)
    ensures forall u :: Deliveries(out, u) == (if u in peers && Some(u) != exclude then [e] else [])
  {
    out := [];
    var remaining := peers.Keys;
    ghost var sent: set<Uuid> := {};
    while remaining != {}
      invariant remaining <= peers.Keys
      invariant sent == Audience(peers, exclude) - remaining
      invariant SentOnceTo(out, e, sent)
      decreases remaining
    {
      var u :| u in remaining;
      if Some(u) != exclude {
        assert sent + {u} == Audience(peers, exclude) - (remaining - {u});
        SentOnceToExtend(out, e, sent, u);
        out := out + [Send(u, e)];
        sent := sent + {u};
      } else {
        assert sent == Audience(peers, exclude) - (remaining - {u});
      }
      remaining := remaining - {u};
    }
    SentOnceToAudience(out, e, peers, exclude);
  }

  lemma SentOnceToAudience(out: seq<Send>, e: GameEvent, peers: map<Uuid, PeerInfo>, exclude: Option<Uuid>)
    requires SentOnceTo(out, e, Audience(peers, exclude))
    ensures forall u :: Deliveries(out, u) == (if u in peers && Some(u) != exclude then [e] else [])
  {
    forall u ensures Deliveries(out, u) == (if u in peers && Some(u) != exclude then [e] else []) {
      assert u in Audience(peers, exclude) <==> u in peers && Some(u) != exclude;
    }
  }

  /** The intended meaning of `players_online`: the number of joined
      sessions, as a `u32`. */
  predicate Counted(s: Server) {
    s.playersOnline == |s.sessions| % TWO_TO_THE_32
  }

  lemma MapInsertCard<K, V>(m: map<K, V>, k: K, v: V)
    requires k !in m
    ensures |m[k := v]| == |m| + 1
  {
    assert m[k := v].Keys == m.Keys + {k};
  }

  lemma MapRemoveCard<K, V>(m: map<K, V>, k: K)
    requires k in m
    ensures |m - {k}| + 1 == |m|
  {
    assert (m - {k}).Keys == m.Keys - {k};
  }

  lemma CountAfterInsert(s: Server, sid: SessionId, uuid: Uuid)
    requires Counted(s) && sid !in s.sessions
    ensures WrappingAdd32(s.playersOnline, 1) == |s.sessions[sid := uuid]| % TWO_TO_THE_32
  {
    MapInsertCard(s.sessions, sid, uuid);
  }

  lemma CountAfterRemove(s: Server, sid: SessionId)
    requires Counted(s) && sid in s.sessions
    ensures WrappingSub32(s.playersOnline, 1) == |s.sessions - {sid}| % TWO_TO_THE_32
  {
    MapRemoveCard(s.sessions, sid);
  }

  /** Peer and session bookkeeping of `PlayerJoined`, with the counter
      raised only for a session that had not joined before. An existing
      peer entry for the same uuid is replaced. */
  function OnPlayerJoined(s: Server, sid: SessionId, uuid: Uuid, displayName: string): (r: Server)
    ensures r.peers == s.peers[uuid := PeerInfo(displayName)]
    ensures r.sessions == s.sessions[sid := uuid]
    ensures r.bets == s.bets
    ensures Counted(s) ==> Counted(r)
  {
    if sid in s.sessions then
      s.(peers := s.peers[uuid := PeerInfo(displayName)], sessions := s.sessions[sid := uuid])
    else
      CountAfterInsertIfCounted(s, sid, uuid);
      Server(s.peers[uuid := PeerInfo(displayName)], s.sessions[sid := uuid], s.bets,
             WrappingAdd32(s.playersOnline, 1))
  }

  lemma CountAfterInsertIfCounted(s: Server, sid: SessionId, uuid: Uuid)
    requires sid !in s.sessions
    ensures Counted(s) ==> WrappingAdd32(s.playersOnline, 1) == |s.sessions[sid := uuid]| % TWO_TO_THE_32
  {
    if Counted(s) {
      CountAfterInsert(s, sid, uuid);
    }
  }

  /** `PlayerJoined` as written: `fetch_add` on every join message, even a
      repeated one from a session that has already joined. */
  function OnPlayerJoinedAsWritten(s: Server, sid: SessionId, uuid: Uuid, displayName: string): (r: Server)
    ensures r.peers == OnPlayerJoined(s, sid, uuid, displayName).peers
    ensures r.sessions == OnPlayerJoined(s, sid, uuid, displayName).sessions
    ensures r.playersOnline == WrappingAdd32(s.playersOnline, 1)
  {
    Server(s.peers[uuid := PeerInfo(displayName)], s.sessions[sid := uuid], s.bets,
           WrappingAdd32(s.playersOnline, 1))
  }

  /** As written, a session that sends its join request twice is counted
      twice: one session, two players online. */
  lemma RepeatedJoinAsWrittenMiscounts()
    ensures
      var s1 := OnPlayerJoinedAsWritten(EmptyServer(), 7, "p", "guest");
      var s2 := OnPlayerJoinedAsWritten(s1, 7, "p", "guest");
      && |s2.sessions| == 1
      && s2.playersOnline == 2
      && !Counted(s2)
  {
    var s1 := OnPlayerJoinedAsWritten(EmptyServer(), 7, "p", "guest");
    var s2 := OnPlayerJoinedAsWritten(s1, 7, "p", "guest");
    assert s2.sessions == map[7 := "p"];
  }

  /** `PlayerJoined`: registers the peer and the session, answers the joiner
      with the round view (balance 0), tells every other peer (with the
      count before the join) and asks for a betting phase iff the round was
      idle. */
  method PlayerJoined(s: Server, sid: SessionId, uuid: Uuid, displayName: string, view: GameData)
    returns (r: Server, out: seq<Send>, startBetting: bool)
    ensures r == OnPlayerJoined(s, sid, uuid, displayName)
    ensures Deliveries(out, uuid) == [JoinResponse(view, displayName)]
    ensures |out| >= 1 && out[0].to == uuid
    ensures forall u :: u != uuid ==> Deliveries(out, u) == (if u in s.peers then [RemotePlayerJoined(displayName, s.playersOnline)] else [])
    ensures startBetting <==> RoundIsIdle(view)
  {
    r := OnPlayerJoined(s, sid, uuid, displayName);
    var response := Send(uuid, JoinResponse(view, displayName));
    var joined := RemotePlayerJoined(displayName, s.playersOnline);
    var others := Broadcast(r.peers, joined, Some(uuid));
    out := [response] + others;
    DeliveriesCons(response, others, uuid);
    forall u | u != uuid
      ensures Deliveries(out, u) == (if u in s.peers then [joined] else [])
    {
      DeliveriesCons(response, others, u);
      assert u in r.peers <==> u in s.peers;
    }
    startBetting := RoundIsIdle(view);
  }

  /** The joiner's answer: the round view with a balance of 0. */
  function JoinResponse(view: GameData, displayName: string): (e: GameEvent)
    ensures e.PlayerJoinedResponse? && e.balance == 0 && e.displayName == displayName
    ensures e.gameState == view.gameState && e.multiplier == view.multiplier
    ensures e.bettingTimeLeftMs == view.bettingTimeLeftMs && e.roundTimeElapsedMs == view.roundTimeElapsedMs
  {
    PlayerJoinedResponse(view.gameState, view.multiplier, view.bettingTimeLeftMs,
                         view.roundTimeElapsedMs, displayName, 0)
  }

  predicate RoundIsIdle(view: GameData) {
    view.gameState == CrashGame.Idle
  }

  /** Bookkeeping of `Disconnect`: the session goes, and so does the peer it
      mapped to; the counter drops only for a session that had joined. Bets
      are not touched. */
  function OnDisconnect(s: Server, sid: SessionId): (r: Server)
    ensures r.sessions == s.sessions - {sid}
    ensures sid in s.sessions ==> r.peers == s.peers - {s.sessions[sid]}
    ensures sid !in s.sessions ==> r == s
    ensures r.bets == s.bets
    ensures Counted(s) ==> Counted(r)
  {
    if sid in s.sessions then
      CountAfterRemoveIfCounted(s, sid);
      Server(s.peers - {s.sessions[sid]}, s.sessions - {sid}, s.bets,
             WrappingSub32(s.playersOnline, 1))
    else
      s
  }

  lemma CountAfterRemoveIfCounted(s: Server, sid: SessionId)
    requires sid in s.sessions
    ensures Counted(s) ==> WrappingSub32(s.playersOnline, 1) == |s.sessions - {sid}| % TWO_TO_THE_32
  {
    if Counted(s) {
      CountAfterRemove(s, sid);
    }
  }

  /** `Disconnect` as written: `fetch_sub` runs for every disconnecting
      connection, including those that never joined. */
  function OnDisconnectAsWritten(s: Server, sid: SessionId): (r: Server)
    ensures r.peers == OnDisconnect(s, sid).peers
    ensures r.sessions == OnDisconnect(s, sid).sessions
    ensures r.playersOnline == WrappingSub32(s.playersOnline, 1)
  {
    var cleaned := if sid in s.sessions then s.peers - {s.sessions[sid]} else s.peers;
    Server(cleaned, s.sessions - {sid}, s.bets, WrappingSub32(s.playersOnline, 1))
  }

  /** As written, a connection that closes without joining (say, after a
      rejected token) drives the counter of an empty server to `u32::MAX`. */
  lemma UnjoinedDisconnectAsWrittenWraps()
    ensures
      var r := OnDisconnectAsWritten(EmptyServer(), 7);
      && r.sessions == map[]
      && r.playersOnline == TWO_TO_THE_32 - 1
      && !Counted(r)
  {
  }

  /** `Disconnect`: a joined session's peer leaves and the remaining peers
      are told, with the count before the decrement. */
  method Disconnect(s: Server, sid: SessionId) returns (r: Server, out: seq<Send>)
    ensures r == OnDisconnect(s, sid)
    ensures sid !in s.sessions || s.sessions[sid] !in s.peers ==> out == []
    ensures sid in s.sessions && s.sessions[sid] in s.peers ==>
      forall u :: Deliveries(out, u)
        == (if u in r.peers then [RemotePlayerLeft(s.peers[s.sessions[sid]].displayName, s.playersOnline)] else [])
  {
    r := OnDisconnect(s, sid);
    out := [];
    if sid in s.sessions {
      var uuid := s.sessions[sid];
      if uuid in s.peers {
        out := Broadcast(r.peers, RemotePlayerLeft(s.peers[uuid].displayName, s.playersOnline), Some(uuid));
      }
    }
  }

  /** A bet is taken only from a known session, during betting, from a
      player who has not bet in this round. */
  predicate BetAccepted(s: Server, sid: SessionId, view: GameData) {
    && sid in s.sessions
    && view.gameState == CrashGame.BettingInProgress
    && s.sessions[sid] !in s.bets
  }

  /** Bookkeeping of `BetRequest`. */
  function OnBetRequest(s: Server, sid: SessionId, amount: uint64, view: GameData): (r: Server)
    ensures BetAccepted(s, sid, view) ==> r == s.(bets := s.bets[s.sessions[sid] := amount])
    ensures !BetAccepted(s, sid, view) ==> r == s
    ensures forall u :: u in s.bets ==> u in r.bets && r.bets[u] == s.bets[u]
    ensures Counted(s) ==> Counted(r)
  {
    if BetAccepted(s, sid, view) then s.(bets := s.bets[s.sessions[sid] := amount]) else s
  }

  /** `BetRequest`: an accepted bet is announced to every peer but the
      bettor; a rejected one is dropped silently. */
  method BetRequest(s: Server, sid: SessionId, amount: uint64, view: GameData)
    returns (r: Server, out: seq<Send>)
    ensures r == OnBetRequest(s, sid, amount, view)
    ensures !BetAccepted(s, sid, view) || s.sessions[sid] !in s.peers ==> out == []
    ensures BetAccepted(s, sid, view) && s.sessions[sid] in s.peers ==>
      forall u :: Deliveries(out, u)
        == (if u in s.peers && u != s.sessions[sid]
            then [RemotePlayerBetsPlaced(s.peers[s.sessions[sid]].displayName, amount)] else [])
  {
    r := OnBetRequest(s, sid, amount, view);
    out := [];
    if BetAccepted(s, sid, view) {
      var uuid := s.sessions[sid];
      if uuid in s.peers {
        out := Broadcast(s.peers, RemotePlayerBetsPlaced(s.peers[uuid].displayName, amount), Some(uuid));
      }
    }
  }

  /** Once a player's bet is in, later bets in the same round, from any of
      the player's sessions, leave it as it is. */
  lemma FirstBetWins(s: Server, sid1: SessionId, a: uint64, sid2: SessionId, b: uint64, view: GameData)
    requires BetAccepted(s, sid1, view)
    requires sid2 in s.sessions && s.sessions[sid2] == s.sessions[sid1]
    ensures
      var r := OnBetRequest(OnBetRequest(s, sid1, a, view), sid2, b, view);
      r.bets[s.sessions[sid1]] == a
  {
  }

  /** Cash-out is taken only from a known session, during the game round,
      from a player holding a bet. */
  predicate CrashOutAccepted(s: Server, sid: SessionId, view: GameData) {
    && sid in s.sessions
    && view.gameState == CrashGame.GameInProgress
    && s.sessions[sid] in s.bets
  }

  /** `bet_amount * multiplier` in `u64`; it wraps on overflow (see README). */
  function WinAmount(bet: uint64, multiplier: uint32): (w: uint64)
    ensures bet * multiplier < TWO_TO_THE_64 ==> w == bet * multiplier
  {
    WrappingMul64(bet, multiplier)
  }

  /** Bookkeeping of `CrashOutRequest`: an accepted cash-out removes the bet. */
  function OnCrashOut(s: Server, sid: SessionId, view: GameData): (r: Server)
    ensures CrashOutAccepted(s, sid, view) ==> r == s.(bets := s.bets - {s.sessions[sid]})
    ensures !CrashOutAccepted(s, sid, view) ==> r == s
    ensures Counted(s) ==> Counted(r)
  {
    if CrashOutAccepted(s, sid, view) then s.(bets := s.bets - {s.sessions[sid]}) else s
  }

  /** `CrashOutRequest`: the bettor gets the win (balance 0) and every other
      peer hears of it; a rejected request is dropped silently. */
  method CrashOutRequest(s: Server, sid: SessionId, view: GameData) returns (r: Server, out: seq<Send>)
    ensures r == OnCrashOut(s, sid, view)
    ensures !CrashOutAccepted(s, sid, view) || s.sessions[sid] !in s.peers ==> out == []
    ensures CrashOutAccepted(s, sid, view) && s.sessions[sid] in s.peers ==>
      var uuid := s.sessions[sid];
      var win := WinAmount(s.bets[uuid], view.multiplier);
      && Deliveries(out, uuid) == [CrashOutResponse(win, view.multiplier, 0)]
      && forall u :: u != uuid ==>
           Deliveries(out, u) == (if u in s.peers then [RemotePlayerCrashOut(s.peers[uuid].displayName, win)] else [])
  {
    r := OnCrashOut(s, sid, view);
    out := [];
    if CrashOutAccepted(s, sid, view) {
      var uuid := s.sessions[sid];
      var win := WinAmount(s.bets[uuid], view.multiplier);
      if uuid in s.peers {
        var response := Send(uuid, CrashOutResponse(win, view.multiplier, 0));
        var others := Broadcast(s.peers, RemotePlayerCrashOut(s.peers[uuid].displayName, win), Some(uuid));
        out := [response] + others;
        forall u ensures Deliveries(out, u) == (if response.to == u then [response.event] else []) + Deliveries(others, u) {
          DeliveriesCons(response, others, u);
        }
      }
    }
  }

  /** A second cash-out in the same round changes nothing and is not
      accepted, because the first one removed the bet. */
  lemma SecondCrashOutIsNoOp(s: Server, sid: SessionId, view: GameData)
    ensures
      var r := OnCrashOut(s, sid, view);
      && !CrashOutAccepted(r, sid, view)
      && OnCrashOut(r, sid, view) == r
  {
  }

  /** Bookkeeping of `GameFinished` and `GameError`: the bet map is emptied
      and nothing else changes; no new betting phase is started. */
  function OnRoundEnd(s: Server): (r: Server)
    ensures r.bets == map[]
    ensures r.peers == s.peers && r.sessions == s.sessions && r.playersOnline == s.playersOnline
  {
    s.(bets := map[])
  }

  /** `GameFinished`: every peer is told, and the bets are cleared. */
  method GameFinishedHandler(s: Server) returns (r: Server, out: seq<Send>)
    ensures r == OnRoundEnd(s)
    ensures forall u :: Deliveries(out, u) == (if u in s.peers then [GameFinished] else [])
  {
    out := Broadcast(s.peers, GameFinished, None);
    r := OnRoundEnd(s);
  }

  /** `GameError`: every peer is told, and the bets are cleared. */
  method GameErrorHandler(s: Server) returns (r: Server, out: seq<Send>)
    ensures r == OnRoundEnd(s)
    ensures forall u :: Deliveries(out, u) == (if u in s.peers then [GameError] else [])
  {
    out := Broadcast(s.peers, GameError, None);
    r := OnRoundEnd(s);
  }

  /** Events the engine posts that the coordinator only forwards. */
  predicate IsRelayed(e: GameEvent) {
    e.BettingTimerStarted? || e.BettingTimerUpdate? || e.GameRoundUpdate? || e.GameStarted?
  }

  /** The `BettingTimerStarted`, `BettingTimerUpdate`, `GameRoundUpdate`
      and `GameStarted` handlers: the event goes to every peer unchanged. */
  method Relay(s: Server, e: GameEvent) returns (r: Server, out: seq<Send>)
    requires IsRelayed(e)
    ensures r == s
    ensures forall u :: Deliveries(out, u) == (if u in s.peers then [e] else [])
  {
    out := Broadcast(s.peers, e, None);
    r := s;
  }

  /** The messages the coordinator handles. */
  datatype Message =
    | JoinMsg(sid: SessionId, uuid: Uuid, displayName: string, view: GameData)
    | DisconnectMsg(sid: SessionId)
    | BetMsg(sid: SessionId, amount: uint64, view: GameData)
    | CrashOutMsg(sid: SessionId, view: GameData)
    | RoundEndMsg

  function Handle(s: Server, m: Message): Server {
    match m
    case JoinMsg(sid, uuid, name, _) => OnPlayerJoined(s, sid, uuid, name)
    case DisconnectMsg(sid) => OnDisconnect(s, sid)
    case BetMsg(sid, amount, view) => OnBetRequest(s, sid, amount, view)
    case CrashOutMsg(sid, view) => OnCrashOut(s, sid, view)
    case RoundEndMsg => OnRoundEnd(s)
  }

  function HandleAll(s: Server, ms: seq<Message>): Server
    decreases |ms|
  {
    if |ms| == 0 then s else HandleAll(Handle(s, ms[0]), ms[1..])
  }

  /** Whatever messages the actor processes from a fresh server,
      `players_online` equals the number of joined sessions (modulo 2^32). */
  lemma {:induction false} PlayersOnlineCountsSessions(s: Server, ms: seq<Message>)
    requires Counted(s)
    ensures Counted(HandleAll(s, ms))
    decreases |ms|
  {
    if |ms| > 0 {
      PlayersOnlineCountsSessions(Handle(s, ms[0]), ms[1..]);
    }
  }
}
