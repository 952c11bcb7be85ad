/**
  The quiz driver (gemini-quiz-master/App.tsx): room creation and joining,
  the guests' reaction to a game start, the host's multiplayer start, answer
  scoring with finish detection, the capped quiz history, and the room id
  taken from the page's `#room=` link.

  `App` holds the component's state cells and the multiplayer peer returned
  by `useMultiplayer`. Content generation is an input: its outcome is passed
  to `StartMultiplayerQuiz`. The two 1000 ms timers of `handleAnswer` are
  queued in `pending` and run, oldest first, by `FireTimer`.
 */
module QuizApp {
  import opened QuizTypes
  import opened Text
  import opened Multiplayer
  import Roster
  import Lobby

  /** At most this many finished quizzes are kept in the history. */
  const HISTORY_LIMIT: nat := 20

  /** The message shown when quiz generation fails. */
  const GENERATION_ERROR: string := "クイズの生成に失敗しました。APIキーを確認してください。"

  /** The hash prefix of a shared room link. */
  const ROOM_HASH_PREFIX: string := "#room="

  /** `[newItem, ...history].slice(0, 20)`. */
  function SaveHistoryList(item: QuizHistoryItem, history: seq<QuizHistoryItem>): (h: seq<QuizHistoryItem>)
    ensures |h| == if |history| < HISTORY_LIMIT then |history| + 1 else HISTORY_LIMIT
    ensures h[0] == item
    ensures h[1..] <= history
  {
    var all := [item] + history;
    if |all| <= HISTORY_LIMIT then all else all[..HISTORY_LIMIT]
  }

  /** Saving into a full history drops exactly the oldest entry. */
  lemma SaveHistoryFull(item: QuizHistoryItem, history: seq<QuizHistoryItem>)
    requires |history| == HISTORY_LIMIT
    ensures SaveHistoryList(item, history) == [item] + history[..HISTORY_LIMIT - 1]
  {
    var h := SaveHistoryList(item, history);
    assert h[1..] == history[..HISTORY_LIMIT - 1];
    assert h == [h[0]] + h[1..];
  }

  /** The history after saving `items` in order, the last one most recently. */
  function SaveRun(items: seq<QuizHistoryItem>, history: seq<QuizHistoryItem>): seq<QuizHistoryItem>
    decreases |items|
  {
    if items == [] then history
    else SaveHistoryList(items[|items| - 1], SaveRun(items[..|items| - 1], history))
  }

  function Reverse<T>(s: seq<T>): (r: seq<T>)
    ensures |r| == |s|
  {
    if s == [] then [] else [s[|s| - 1]] + Reverse(s[..|s| - 1])
  }

  /** The first `HISTORY_LIMIT` entries of `s`. */
  function Newest(s: seq<QuizHistoryItem>): seq<QuizHistoryItem>
  {
    if |s| <= HISTORY_LIMIT then s else s[..HISTORY_LIMIT]
  }

  /** However many quizzes are saved, the history holds the most recent ones,
      newest first, followed by the older history, cut to the limit. */
  lemma {:induction false} SaveRunKeepsNewest(items: seq<QuizHistoryItem>, history: seq<QuizHistoryItem>)
    requires |history| <= HISTORY_LIMIT
    ensures SaveRun(items, history) == Newest(Reverse(items) + history)
    decreases |items|
  {
    if items != [] {
      var init := items[..|items| - 1];
      var last := items[|items| - 1];
      SaveRunKeepsNewest(init, history);
      NewestCons(last, Reverse(init) + history);
      assert [last] + (Reverse(init) + history) == Reverse(items) + history;
    }
  }

  /** Saving `x` in front of a cut list is cutting the longer list. */
  lemma NewestCons(x: QuizHistoryItem, s: seq<QuizHistoryItem>)
    ensures SaveHistoryList(x, Newest(s)) == Newest([x] + s)
  {
    if |s| > HISTORY_LIMIT {
      assert ([x] + s[..HISTORY_LIMIT])[..HISTORY_LIMIT] == ([x] + s)[..HISTORY_LIMIT];
    }
  }

  /** The room id carried by a page hash of the form `#room=<id>`; none when
      the prefix is missing or nothing follows it. The source replaces the
      first occurrence of the prefix, which is the prefix itself. */
  function RoomIdFromHash(hash: string): (id: Option<string>)
    ensures id.Some? <==> StartsWith(hash, ROOM_HASH_PREFIX) && |hash| > |ROOM_HASH_PREFIX|
    ensures id.Some? ==> ROOM_HASH_PREFIX + id.value == hash && id.value != ""
  {
    if StartsWith(hash, ROOM_HASH_PREFIX) then
      var rest := hash[|ROOM_HASH_PREFIX|..];
      assert ROOM_HASH_PREFIX + rest == hash;
      if rest != "" then Some(rest) else None
    else None
  }

  /** The link the lobby shares for room `roomId` leads back to that room id. */
  lemma ShareLinkRoundTrip(roomId: string)
    requires roomId != ""
    ensures RoomIdFromHash(ROOM_HASH_PREFIX + roomId) == Some(roomId)
  {
    assert (ROOM_HASH_PREFIX + roomId)[|ROOM_HASH_PREFIX|..] == roomId;
  }

  /** A step waiting on one of `handleAnswer`'s timers. */
  datatype Timer =
    | AdvanceQuestion
    | ShowResult(newScore: int)

  class App {
    var appState: AppState
    var gameMode: GameMode
    var config: QuizConfig
    var questions: seq<Question>
    var currentQIndex: int
    var score: int
    var loadingError: string
    var history: seq<QuizHistoryItem>
    var userName: string
    var inputRoomId: string
    /** Timers started by `handleAnswer` that have not fired yet, oldest first. */
    var pending: seq<Timer>
    /** The state of `useMultiplayer()`. */
    const mp: Peer

    /** The first render: menu screen, default configuration, not in a room. */
    constructor ()
      ensures fresh(mp)
      ensures appState == Menu && gameMode == Single && config == DEFAULT_CONFIG
      ensures questions == [] && currentQIndex == 0 && score == 0 && loadingError == ""
      ensures history == [] && userName == "" && inputRoomId == "" && pending == []
      ensures mp.roomId == None && mp.myId == "" && !mp.localIsHost
      ensures mp.players == [] && !mp.hasSender && mp.gameStartData == None && mp.outbox == []
    {
      appState := Menu;
      gameMode := Single;
      config := DEFAULT_CONFIG;
      questions := [];
      currentQIndex := 0;
      score := 0;
      loadingError := "";
      history := [];
      userName := "";
      inputRoomId := "";
      pending := [];
      mp := new Peer();
    }

    /** The mount effect's look at the URL hash for a shared room id. */
    method ReadRoomHash(hash: string)
      modifies this`inputRoomId
      ensures inputRoomId == match RoomIdFromHash(hash)
        case Some(id) => id
        case None => old(inputRoomId)
    {
      if StartsWith(hash, ROOM_HASH_PREFIX) {
        var idFromUrl := hash[|ROOM_HASH_PREFIX|..];
        if idFromUrl != "" {
          inputRoomId := idFromUrl;
        }
      }
    }

    /** The `isHost` flag the lobby is rendered with. */
    function LobbyIsHost(): (isHost: bool)
      reads this, mp
      ensures isHost ==> Roster.HasId(mp.players, mp.myId)
      ensures mp.Consistent() && mp.hasSender && mp.localIsHost ==> isHost
    {
      Roster.HostFlagOf(mp.players, mp.myId)
    }

    /** The lobby's count field, wired to `setConfig`. */
    method ChangeCount(input: string)
      modifies this`config
      ensures config == Lobby.CountInput(old(config), input)
    {
      config := Lobby.CountInput(config, input);
    }

    /** `handleCreateRoom`: with a non-blank name, connect as host to the new
        room (its random id is an input) and show the lobby. */
    method HandleCreateRoom(newRoomId: string, selfId: string)
      modifies this`gameMode, this`appState, mp
      ensures Blank(userName) ==>
        unchanged(mp) && gameMode == old(gameMode) && appState == old(appState)
      ensures !Blank(userName) ==>
        && gameMode == Multi && appState == Lobby
        && mp.hasSender && mp.roomId == Some(newRoomId) && mp.myId == selfId && mp.localIsHost
        && mp.players == [Player(selfId, userName, true, 0, 0, false)]
        && mp.outbox == old(mp.outbox) + [Hello(userName, true)]
        && mp.gameStartData == old(mp.gameStartData)
        && LobbyIsHost() && (Lobby.StartEnabled(config, mp.players) <==> config.topic != "")
    {
      if Blank(userName) {
        return;
      }
      mp.Connect(newRoomId, selfId, userName, true);
      gameMode := Multi;
      appState := Lobby;
    }

    /** `handleJoinRoom`: with a non-blank name and room id, connect as guest to
        the upper-cased room id and show the lobby. */
    method HandleJoinRoom(selfId: string)
      modifies this`gameMode, this`appState, mp
      ensures Blank(userName) || Blank(inputRoomId) ==>
        unchanged(mp) && gameMode == old(gameMode) && appState == old(appState)
      ensures !Blank(userName) && !Blank(inputRoomId) ==>
        && gameMode == Multi && appState == Lobby
        && mp.hasSender && mp.roomId == Some(AsciiUpper(inputRoomId)) && mp.myId == selfId && !mp.localIsHost
        && mp.players == [Player(selfId, userName, false, 0, 0, false)]
        && mp.outbox == old(mp.outbox) + [Hello(userName, false)]
        && mp.gameStartData == old(mp.gameStartData)
    {
      if Blank(userName) || Blank(inputRoomId) {
        return;
      }
      mp.Connect(AsciiUpper(inputRoomId), selfId, userName, false);
      gameMode := Multi;
      appState := Lobby;
    }

    /** The guest's game-start effect: once START_GAME has been received while
        the lobby is shown, load its questions and settings and start the quiz. */
    method ApplyGameStart()
      modifies this`questions, this`config, this`currentQIndex, this`score, this`appState
      ensures mp.gameStartData.Some? && old(appState) == Lobby ==>
        && questions == mp.gameStartData.value.questions && config == mp.gameStartData.value.config
        && currentQIndex == 0 && score == 0 && appState == Quiz
      ensures !(mp.gameStartData.Some? && old(appState) == Lobby) ==>
        && questions == old(questions) && config == old(config)
        && currentQIndex == old(currentQIndex) && score == old(score) && appState == old(appState)
    {
      if mp.gameStartData.Some? && appState == Lobby {
        questions := mp.gameStartData.value.questions;
        config := mp.gameStartData.value.config;
        currentQIndex := 0;
        score := 0;
        appState := Quiz;
      }
    }

    /** `startMultiplayerQuiz`, with the generator's outcome as `generated`
        (None when it throws). A blank topic does nothing; a failure returns to
        the lobby with an error and broadcasts nothing; a success installs the
        questions, broadcasts START_GAME with them and this configuration, and
        starts the quiz. */
    method StartMultiplayerQuiz(generated: Option<seq<Question>>)
      modifies this`appState, this`loadingError, this`questions, this`currentQIndex, this`score, mp`outbox
      ensures Blank(config.topic) ==>
        && appState == old(appState) && loadingError == old(loadingError)
        && questions == old(questions) && currentQIndex == old(currentQIndex) && score == old(score)
        && mp.outbox == old(mp.outbox)
      ensures !Blank(config.topic) && generated.None? ==>
        && appState == Lobby && loadingError == GENERATION_ERROR
        && questions == old(questions) && currentQIndex == old(currentQIndex) && score == old(score)
        && mp.outbox == old(mp.outbox)
      ensures !Blank(config.topic) && generated.Some? ==>
        && appState == Quiz && loadingError == ""
        && questions == generated.value && currentQIndex == 0 && score == 0
        && mp.outbox == old(mp.outbox) + (if mp.hasSender then [Action.StartGame(generated.value, config)] else [])
    {
      if Blank(config.topic) {
        return;
      }
      appState := Loading;
      loadingError := "";
      match generated
      case Some(generatedQuestions) =>
        questions := generatedQuestions;
        currentQIndex := 0;
        score := 0;
        mp.StartGame(generatedQuestions, config);
        appState := Quiz;
      case None =>
        loadingError := GENERATION_ERROR;
        appState := Lobby;
    }

    /** `handleAnswer`: score the answer, decide whether it was the last
        question, report progress in a multiplayer game, and start the timer
        that moves on to the next question or to the result screen. */
    method HandleAnswer(isCorrect: bool)
      modifies this`score, this`pending, mp`players, mp`outbox
      ensures score == if isCorrect then old(score) + 1 else old(score)
      ensures var finished := currentQIndex >= |questions| - 1;
        pending == old(pending) + [if finished then ShowResult(score) else AdvanceQuestion]
      ensures gameMode == Multi && mp.hasSender && mp.myId != "" ==>
        && mp.outbox == old(mp.outbox) + [Action.UpdateProgress(mp.myId, score, currentQIndex + 1, currentQIndex >= |questions| - 1)]
        && mp.players == Roster.ApplyLocalProgress(old(mp.players), mp.myId, score, currentQIndex >= |questions| - 1)
      ensures !(gameMode == Multi && mp.hasSender && mp.myId != "") ==>
        mp.outbox == old(mp.outbox) && mp.players == old(mp.players)
    {
      var newScore := if isCorrect then score + 1 else score;
      score := newScore;
      var isFinished := currentQIndex >= |questions| - 1;
      if gameMode == Multi {
        mp.UpdateProgress(newScore, currentQIndex + 1, isFinished);
      }
      if !isFinished {
        pending := pending + [AdvanceQuestion];
      } else {
        pending := pending + [ShowResult(newScore)];
      }
    }

    /** The oldest pending timer fires at time `now`: either the next question
        is shown, or the quiz is saved to the history and the result is shown. */
    method FireTimer(now: int)
      requires pending != []
      modifies this`currentQIndex, this`history, this`appState, this`pending
      ensures pending == old(pending[1..])
      ensures old(pending[0]).AdvanceQuestion? ==>
        currentQIndex == old(currentQIndex) + 1 && history == old(history) && appState == old(appState)
      ensures old(pending[0]).ShowResult? ==>
        && currentQIndex == old(currentQIndex) && appState == ResultScreen
        && history == SaveHistoryList(
             QuizHistoryItem(now, config.topic, config.difficulty, old(pending[0]).newScore, |questions|),
             old(history))
    {
      var t := pending[0];
      pending := pending[1..];
      match t
      case AdvanceQuestion =>
        currentQIndex := currentQIndex + 1;
      case ShowResult(newScore) =>
        SaveHistory(now, newScore);
        appState := ResultScreen;
    }

    /** `saveHistory`: put the finished quiz first, keeping at most the limit. */
    method SaveHistory(now: int, newScore: int)
      modifies this`history
      ensures history == SaveHistoryList(QuizHistoryItem(now, config.topic, config.difficulty, newScore, |questions|), old(history))
      ensures |old(history)| <= HISTORY_LIMIT ==> |history| <= HISTORY_LIMIT
    {
      var newItem := QuizHistoryItem(now, config.topic, config.difficulty, newScore, |questions|);
      history := SaveHistoryList(newItem, history);
    }
  }
}
