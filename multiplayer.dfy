/**
  One peer of the multiplayer session (gemini-quiz-master/hooks/useMultiplayer.ts).

  The hook's state cells (`roomId`, `myId`, `players`, `roomAction`,
  `gameStartData`) are fields of `Peer`; the transport's send primitive is
  the `outbox`, to which every broadcast is appended in the order it is sent.
  Inbound messages and peer-leave notifications are delivered one at a time
  by calling the handler methods, as the single-threaded event loop does.
 */
module Multiplayer {
  import opened QuizTypes
  import opened Roster

  /** The payload of START_GAME, kept as `gameStartData` by every receiver. */
  datatype GameStart = GameStart(questions: seq<Question>, config: QuizConfig)

  /** The four tagged messages of the wire protocol. */
  datatype Action =
    | Hello(name: string, isHost: bool)
    | SyncPlayers(players: seq<Player>)
    | StartGame(questions: seq<Question>, config: QuizConfig)
    | UpdateProgress(id: string, score: int, index: int, finished: bool)

  /** The broadcast a peer makes after handling a HELLO: only a host that has
      just added a new entry sends the updated roster. */
  function HelloReply(before: seq<Player>, peerId: string, name: string, isRemoteHost: bool, isLocalHost: bool): (out: seq<Action>)
    ensures out != [] ==> isLocalHost && !HasId(before, peerId)
    ensures out != [] ==> out == [SyncPlayers(AddIfAbsent(before, Joined(peerId, name, isRemoteHost)))]
    ensures isLocalHost && !HasId(before, peerId) ==> |out| == 1
  {
    if !HasId(before, peerId) && isLocalHost
    then [SyncPlayers(before + [Joined(peerId, name, isRemoteHost)])]
    else []
  }

  class Peer {
    var roomId: Option<string>
    var myId: string
    var players: seq<Player>
    /** `roomAction` is set: the peer has a send primitive. */
    var hasSender: bool
    /** The `isHost` argument of `connect`, which its message handler closes over. */
    var localIsHost: bool
    var gameStartData: Option<GameStart>
    /** Every message broadcast so far, oldest first. */
    var outbox: seq<Action>

    /** The roster invariant, plus: a connected host always finds its own entry,
        flagged as host, in its roster (so the lobby shows it the start button). */
    ghost predicate Consistent()
      reads this
    {
      UniqueIds(players) && (hasSender && localIsHost ==> HostFlagOf(players, myId))
    }

    /** The hook's initial state: not in a room. */
    constructor ()
      ensures roomId == None && myId == "" && players == [] && !hasSender && !localIsHost
      ensures gameStartData == None && outbox == []
      ensures Consistent()
    {
      roomId := None;
      myId := "";
      players := [];
      hasSender := false;
      localIsHost := false;
      gameStartData := None;
      outbox := [];
    }

    /** `connect`: join the room under the transport-assigned `selfId`, make
        the roster `[self]` and broadcast HELLO. */
    method Connect(roomIdInput: string, selfId: string, name: string, isHost: bool)
      modifies this
      ensures hasSender && roomId == Some(roomIdInput) && myId == selfId && localIsHost == isHost
      ensures players == [Player(selfId, name, isHost, 0, 0, false)]
      ensures outbox == old(outbox) + [Hello(name, isHost)]
      ensures gameStartData == old(gameStartData)
      ensures Consistent()
    {
      hasSender := true;
      roomId := Some(roomIdInput);
      myId := selfId;
      localIsHost := isHost;
      players := [Joined(selfId, name, isHost)];
      outbox := outbox + [Hello(name, isHost)];
    }

    /** `handlePlayerJoin`: a HELLO from `peerId`. The host's resync, sent by a
        100 ms timer in the source, is appended at once with the roster it captured. */
    method OnHello(peerId: string, name: string, isRemoteHost: bool)
      modifies this`players, this`outbox
      ensures players == AddIfAbsent(old(players), Joined(peerId, name, isRemoteHost))
      ensures outbox == old(outbox) + HelloReply(old(players), peerId, name, isRemoteHost, localIsHost)
      ensures old(Consistent()) ==> Consistent() && CountId(players, peerId) == 1
    {
      var before := players;
      if UniqueIds(before) {
        UniqueCountAtMostOne(before, peerId);
        AddIfAbsentCount(before, Joined(peerId, name, isRemoteHost));
      }
      if !HasId(before, peerId) {
        var updated := before + [Joined(peerId, name, isRemoteHost)];
        players := updated;
        if localIsHost {
          outbox := outbox + [SyncPlayers(updated)];
        }
      }
      if UniqueIds(before) {
        AddIfAbsentUnique(before, Joined(peerId, name, isRemoteHost));
      }
      if hasSender && localIsHost && HostFlagOf(before, myId) {
        HostFlagAfterHello(before, myId, Joined(peerId, name, isRemoteHost));
      }
    }

    /** SYNC_PLAYERS: a guest adopts the host's roster wholesale; a host ignores it. */
    method OnSyncPlayers(roster: seq<Player>)
      modifies this`players
      ensures players == if localIsHost then old(players) else roster
      ensures old(Consistent()) && (localIsHost || UniqueIds(roster)) ==> Consistent()
    {
      if !localIsHost {
        players := roster;
      }
    }

    /** START_GAME: record the payload exactly, host or guest alike. */
    method OnStartGame(questions: seq<Question>, config: QuizConfig)
      modifies this`gameStartData
      ensures gameStartData == Some(GameStart(questions, config))
    {
      gameStartData := Some(GameStart(questions, config));
    }

    /** UPDATE_PROGRESS: overwrite the progress of the entry with `id`. */
    method OnUpdateProgress(id: string, score: int, index: int, finished: bool)
      modifies this`players
      ensures players == ApplyProgress(old(players), id, score, index, finished)
      ensures old(Consistent()) ==> Consistent()
    {
      var before := players;
      players := ApplyProgress(players, id, score, index, finished);
      if UniqueIds(before) {
        ApplyProgressUnique(before, id, score, index, finished);
      }
      if hasSender && localIsHost && HostFlagOf(before, myId) {
        HostFlagAfterProgress(before, myId, id, score, index, finished);
      }
    }

    /** The message switch of `connect`: route an inbound action to its handler. */
    method Receive(peerId: string, a: Action)
      modifies this`players, this`outbox, this`gameStartData
      ensures a.Hello? ==>
        && players == AddIfAbsent(old(players), Joined(peerId, a.name, a.isHost))
        && outbox == old(outbox) + HelloReply(old(players), peerId, a.name, a.isHost, localIsHost)
        && gameStartData == old(gameStartData)
      ensures a.SyncPlayers? ==>
        && players == (if localIsHost then old(players) else a.players)
        && outbox == old(outbox) && gameStartData == old(gameStartData)
      ensures a.StartGame? ==>
        && gameStartData == Some(GameStart(a.questions, a.config))
        && players == old(players) && outbox == old(outbox)
      ensures a.UpdateProgress? ==>
        && players == ApplyProgress(old(players), a.id, a.score, a.index, a.finished)
        && outbox == old(outbox) && gameStartData == old(gameStartData)
      ensures old(Consistent()) && (a.SyncPlayers? ==> localIsHost || UniqueIds(a.players)) ==> Consistent()
    {
      match a
      case Hello(name, isRemoteHost) => OnHello(peerId, name, isRemoteHost);
      case SyncPlayers(roster) => OnSyncPlayers(roster);
      case StartGame(questions, config) => OnStartGame(questions, config);
      case UpdateProgress(id, score, index, finished) => OnUpdateProgress(id, score, index, finished);
    }

    /** `onPeerLeave`: drop the departed peer's entry; nothing is broadcast. */
    method OnPeerLeave(peerId: string)
      modifies this`players
      ensures players == RemoveId(old(players), peerId)
      ensures old(Consistent()) && peerId != myId ==> Consistent()
    {
      var before := players;
      players := RemoveId(players, peerId);
      if UniqueIds(before) {
        RemoveIdUnique(before, peerId);
      }
      if hasSender && localIsHost && HostFlagOf(before, myId) && peerId != myId {
        HostFlagAfterLeave(before, myId, peerId);
      }
    }

    /** `startGame`: broadcast START_GAME when a sender exists; the local state is untouched. */
    method StartGame(questions: seq<Question>, config: QuizConfig)
      modifies this`outbox
      ensures outbox == old(outbox) + (if hasSender then [Action.StartGame(questions, config)] else [])
    {
      if hasSender {
        outbox := outbox + [Action.StartGame(questions, config)];
      }
    }

    /** `updateProgress`: when connected, update the own entry optimistically
        (score and finished only, see `ApplyLocalProgress`) and broadcast the
        progress under `myId`. */
    method UpdateProgress(score: int, index: int, finished: bool)
      modifies this`players, this`outbox
      ensures hasSender && myId != "" ==>
        && players == ApplyLocalProgress(old(players), myId, score, finished)
        && outbox == old(outbox) + [Action.UpdateProgress(myId, score, index, finished)]
      ensures !(hasSender && myId != "") ==> players == old(players) && outbox == old(outbox)
      ensures old(Consistent()) ==> Consistent()
    {
      if hasSender && myId != "" {
        LocalProgressKeepsInvariant(players, myId, score, finished);
        players := ApplyLocalProgress(players, myId, score, finished);
        outbox := outbox + [Action.UpdateProgress(myId, score, index, finished)];
      }
    }
  }
}
