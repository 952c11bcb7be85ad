# Gemini Quiz Master and its portal, modelled in Dafny

This project models the logic of the mangazon app portal and its quiz game,
gemini-quiz-master. Contracts and lemmas state what each part promises.

- **Multiplayer session** (`multiplayer.dfy`, `roster.dfy`).
  - Each browser runs a peer that keeps a roster of players, its own id, the
    last game-start payload and a send primitive.
  - A peer reacts to four messages: HELLO, SYNC_PLAYERS, START_GAME and
    UPDATE_PROGRESS. It also reacts to a peer leaving the room.
  - `Peer` is a class whose fields are the hook's state cells.
  - Every broadcast is appended to the field `outbox`.
  - Each handler is a method. Its roster change is a pure function in
    `Roster`, and the replication guarantees are lemmas about those functions:
    - deduplication of HELLO;
    - host authority over SYNC_PLAYERS;
    - an update sent twice acts once, and the last one wins;
    - updates for different players commute;
    - a leave removes the entry and keeps the others in order;
    - player ids stay unique;
    - the host keeps its host flag.
- **Quiz driver** (`quiz_app.dfy`).
  - Room creation and joining.
  - A guest starts its quiz when START_GAME arrives in the lobby.
  - The host runs the generator, broadcasts the questions and starts.
  - Each answer is scored, the last question is detected, and progress is
    reported to the room.
  - Finished quizzes go into a history capped at 20 entries.
  - The room id is read from a `#room=` link.
- **Answer card** (`quiz_card.dfy`). The select, submit and next cycle of one
  question, with the answer reported exactly once.
- **Lobby** (`lobby.dfy`).
  - The question-count field. JavaScript's `parseInt` is modelled after the
    ECMAScript algorithm, so unparseable input is ignored. A parsed count is
    clamped to 1..30.
  - The condition that enables the host's start button.
- **Live leaderboard** (`leaderboard.dfy`).
  - The ranking sorts by score, highest first, then by question index,
    highest first.
  - `Array.prototype.sort` is stable, so the ranking is modelled as a stable
    insertion sort. It is proved sorted, a permutation, and stable.
- **Portal filter** (`portal.dfy`).
  - The catalogue of nine apps.
  - `filteredApps` keeps an app when its category matches and the lower-cased
    query occurs in its lower-cased title or description.
- **Shared helpers**:
  - `text.dfy` models `trim()`-emptiness, `startsWith`, `includes` and ASCII
    case mapping;
  - `sequtil.dfy` defines order-preserving subsequences;
  - `types.dfy` holds the records and constants.

### How the model reads the source

- **Timers.** The host's SYNC_PLAYERS after a HELLO uses a 100 ms timer in the
  source. The model appends it to the outbox at once, with the roster the
  handler captured. The two 1000 ms timers of `handleAnswer` are queued in
  `App.pending`, and `App.FireTimer` runs the oldest one.
- **Local progress updates and `index`.** In `updateProgress`, the sender's
  own roster entry is updated with a property named `index`. `Player` has no
  such property. The sender's own `currentQuestionIndex` therefore keeps its
  value, while receivers store the index they are sent.
  - `Roster.ApplyLocalProgress` reproduces this behaviour.
  - `Roster.LocalAndRemoteViewsDiffer` states the discrepancy between the two
    views.
- **Case mapping.**
  - The room id typed to join is upper-cased with the ASCII letters only.
  - The portal's `toLowerCase` is a parameter of the filter, so its
    properties hold for any case mapping. The empty-query results need only
    that the empty string maps to itself.
- **Start flag in the lobby.** The start button tests `config.topic` for
  emptiness. The start handler tests `trim()`-emptiness. A topic of spaces
  enables the button (`Lobby.StartEnabledForBlankTopic`), and the handler then
  does nothing (the blank-topic clause of `QuizApp.App.StartMultiplayerQuiz`).

## Model

| member | source | states |
|---|---|---|
| Text.IncludesAt | App.tsx:25 | `includes` holds exactly when the needle occurs at some offset of the text |
| Text.IncludesEmpty | App.tsx:25 | the empty query is included in every text |
| Text.BlankIsEmptyTrim | gemini-quiz-master/App.tsx:131 | the guard `!s.trim()` holds exactly when every character is ECMAScript white space, i.e. when trimming leaves nothing |
| Text.LeadingWhitespace | gemini-quiz-master/components/Lobby.tsx:110 | the number of leading white-space characters: all of them are white space and the next one is not |
| Text.AsciiUpper | gemini-quiz-master/App.tsx:142 | small ASCII letters become capitals, other characters are kept, and no small letter remains |
| Text.AsciiLower | App.tsx:21-23 | capitals become small ASCII letters, other characters are kept, and no capital remains |
| Text.AsciiUpperIdempotent | gemini-quiz-master/App.tsx:142 | upper-casing an upper-cased room id changes nothing |
| Text.AsciiLowerOfUpper | App.tsx:21-23 | lower-casing loses the case the query was typed in |
| Text.AsciiUpperBlank | gemini-quiz-master/App.tsx:141-142 | upper-casing never changes whether a room id is blank |
| Roster.AddIfAbsent | gemini-quiz-master/hooks/useMultiplayer.ts:112-115 | after a HELLO the sender has an entry; the old roster is an unchanged prefix, grown by at most one entry |
| Roster.ApplyProgress | gemini-quiz-master/hooks/useMultiplayer.ts:67-72 | length is kept; ids, names and host flags are kept; entries with other ids are unchanged; entries with the id get the new score, question index and finished flag |
| Roster.ApplyLocalProgress | gemini-quiz-master/hooks/useMultiplayer.ts:136-140 | length, identities and every question index are kept; only the own entry's score and finished change |
| Roster.RemoveId | gemini-quiz-master/hooks/useMultiplayer.ts:83-85 | no entry with the leaver's id remains; the other entries remain, in their relative order, and exactly the leaver's entries are gone from the length |
| Roster.HelloFromKnownPeer | gemini-quiz-master/hooks/useMultiplayer.ts:112-114 | a HELLO from a present participant leaves the roster unchanged |
| Roster.HelloFromNewPeer | gemini-quiz-master/hooks/useMultiplayer.ts:103-115 | a HELLO from a new participant appends exactly its entry, with zero progress, at the end |
| Roster.AddIfAbsentCount | gemini-quiz-master/hooks/useMultiplayer.ts:112-115 | after a HELLO the sender has exactly one entry |
| Roster.HelloRunDedup | gemini-quiz-master/hooks/useMultiplayer.ts:112-115 | any number of HELLOs from one peer leave exactly one entry for it |
| Roster.AddIfAbsentUnique | gemini-quiz-master/hooks/useMultiplayer.ts:112-115 | HELLO preserves "no two entries share an id" |
| Roster.ApplyProgressUnique | gemini-quiz-master/hooks/useMultiplayer.ts:67-72 | UPDATE_PROGRESS preserves unique ids |
| Roster.ApplyLocalProgressUnique | gemini-quiz-master/hooks/useMultiplayer.ts:136-140 | the local progress update preserves unique ids |
| Roster.RemoveIdUnique | gemini-quiz-master/hooks/useMultiplayer.ts:83-85 | a leave preserves unique ids |
| Roster.LocalAndRemoteViewsDiffer | gemini-quiz-master/hooks/useMultiplayer.ts:133-142 | when the index changes, the sender keeps its old question index and receivers store the new one, so the two copies differ |
| Roster.ProgressLastWriterWins | gemini-quiz-master/hooks/useMultiplayer.ts:67-72 | of two updates for the same player, the later one decides the result |
| Roster.ProgressIdempotent | gemini-quiz-master/hooks/useMultiplayer.ts:67-72 | applying the same UPDATE_PROGRESS twice equals applying it once |
| Roster.ProgressCommutes | gemini-quiz-master/hooks/useMultiplayer.ts:67-72 | updates for two different players commute |
| Roster.RemoveIdExact | gemini-quiz-master/hooks/useMultiplayer.ts:84 | with unique ids, a leave deletes exactly the leaver's position |
| Roster.RemoveIdAbsent | gemini-quiz-master/hooks/useMultiplayer.ts:84 | the leave of a peer without an entry changes nothing |
| Roster.HostFlagOf | gemini-quiz-master/App.tsx:350 | a player shown as host has an entry in the roster |
| Roster.HostFlagAfterHello | gemini-quiz-master/hooks/useMultiplayer.ts:112-115 | a host keeps its host flag through a HELLO |
| Roster.HostFlagAfterProgress | gemini-quiz-master/hooks/useMultiplayer.ts:67-72 | a host keeps its host flag through an UPDATE_PROGRESS |
| Roster.HostFlagAfterLocalProgress | gemini-quiz-master/hooks/useMultiplayer.ts:136-140 | a host keeps its host flag through its own progress update |
| Roster.LocalProgressKeepsInvariant | gemini-quiz-master/hooks/useMultiplayer.ts:136-140 | the own progress update keeps ids unique and keeps the host's flag |
| Roster.HostFlagAfterLeave | gemini-quiz-master/hooks/useMultiplayer.ts:83-85 | a host keeps its host flag when another peer leaves |
| Multiplayer.HelloReply | gemini-quiz-master/hooks/useMultiplayer.ts:117-122 | only a local host that added a new entry replies; its one SYNC_PLAYERS carries exactly the updated roster |
| Multiplayer.Peer.constructor | gemini-quiz-master/hooks/useMultiplayer.ts:14-18 | a peer starts outside any room, with an empty roster, no game data and nothing sent |
| Multiplayer.Peer.Connect | gemini-quiz-master/hooks/useMultiplayer.ts:28-50 | the roster becomes exactly the own entry with zero progress; exactly one HELLO with the name and host flag is sent; the roster invariant holds |
| Multiplayer.Peer.OnHello | gemini-quiz-master/hooks/useMultiplayer.ts:95-125 | the roster gains the sender if absent; the outbox gains the host's reply; the roster invariant is preserved, and under it the sender then has exactly one entry |
| Multiplayer.Peer.OnSyncPlayers | gemini-quiz-master/hooks/useMultiplayer.ts:58-63 | a guest adopts the received roster wholesale; a host keeps its own |
| Multiplayer.Peer.OnStartGame | gemini-quiz-master/hooks/useMultiplayer.ts:64-66 | the game data becomes the payload exactly, host or guest |
| Multiplayer.Peer.OnUpdateProgress | gemini-quiz-master/hooks/useMultiplayer.ts:67-72 | the roster becomes `ApplyProgress` of the old one; the invariant is preserved |
| Multiplayer.Peer.Receive | gemini-quiz-master/hooks/useMultiplayer.ts:53-75 | each message changes only the state its handler changes |
| Multiplayer.Peer.OnPeerLeave | gemini-quiz-master/hooks/useMultiplayer.ts:83-85 | the roster becomes `RemoveId` of the old one; nothing is sent; the invariant holds when another peer leaves |
| Multiplayer.Peer.StartGame | gemini-quiz-master/hooks/useMultiplayer.ts:127-131 | START_GAME with the given questions and config is sent exactly when a sender exists |
| Multiplayer.Peer.UpdateProgress | gemini-quiz-master/hooks/useMultiplayer.ts:133-144 | when connected, the own entry's score and finished change and UPDATE_PROGRESS with `myId` is sent; otherwise nothing changes |
| Lobby.DigitValue | gemini-quiz-master/components/Lobby.tsx:110 | the value is below 36 exactly for ASCII letters and digits and below 10 exactly for decimal digits; digits count from 0 and letters of either case from 10; 36 means "no digit" |
| Lobby.ParseInt | gemini-quiz-master/components/Lobby.tsx:110 | a blank field, or one whose first non-white-space character is neither a sign nor a decimal digit, is NaN; a negative result needs a leading minus |
| Lobby.ParseSigned | gemini-quiz-master/components/Lobby.tsx:110 | after the white space: empty text or a first character that is neither a sign nor a digit is NaN; a negative result needs a minus; after a sign the result is a number exactly when the magnitude is |
| Lobby.ParseMagnitude | gemini-quiz-master/components/Lobby.tsx:110 | no leading decimal digit is NaN; a leading digit not starting `0x` gives a number; after `0x`/`0X` the result is a number exactly when a hexadecimal digit follows |
| Lobby.DigitPrefixLength | gemini-quiz-master/components/Lobby.tsx:110 | the length of the longest prefix of digits of the radix |
| Lobby.NatDigits | gemini-quiz-master/components/Lobby.tsx:110 | the numeral of a count is a non-empty string of decimal digits |
| Lobby.NatDigitsValue | gemini-quiz-master/components/Lobby.tsx:110 | the digits of a numeral denote its number |
| Lobby.DigitPrefixOfNumeral | gemini-quiz-master/components/Lobby.tsx:110 | digit scanning stops exactly at the first non-digit |
| Lobby.MagnitudeOfNumeral | gemini-quiz-master/components/Lobby.tsx:110 | the magnitude of a numeral followed by a non-digit is read back |
| Lobby.NumeralIsNotHex | gemini-quiz-master/components/Lobby.tsx:110 | a decimal numeral followed by anything but `x` is not read as hexadecimal |
| Lobby.DecimalDigitIsPlain | gemini-quiz-master/components/Lobby.tsx:110 | a decimal digit is neither white space nor a sign |
| Lobby.ParseNonNegativeNumeral | gemini-quiz-master/components/Lobby.tsx:110 | `parseInt` reads back a non-negative numeral |
| Lobby.ParseNegativeNumeral | gemini-quiz-master/components/Lobby.tsx:110 | `parseInt` reads back a negative numeral |
| Lobby.NegativeSign | gemini-quiz-master/components/Lobby.tsx:110 | after a minus sign the numeral's magnitude is read and negated |
| Lobby.ParseDecimal | gemini-quiz-master/components/Lobby.tsx:110 | `parseInt` reads back the decimal numeral of any integer, also when a non-digit follows it |
| Lobby.ParseIgnoresLeadingWhitespace | gemini-quiz-master/components/Lobby.tsx:110 | leading white space never changes the parsed value |
| Lobby.LeadingWhitespaceBlankPrefix | gemini-quiz-master/components/Lobby.tsx:110 | a blank prefix adds its whole length to the white space skipped |
| Lobby.SkipWhitespaceBlankPrefix | gemini-quiz-master/components/Lobby.tsx:110 | skipping white space removes a whole blank prefix |
| Lobby.EmptyIsNaN | gemini-quiz-master/components/Lobby.tsx:110-111 | an empty field parses to NaN |
| Lobby.ClampCount | gemini-quiz-master/components/Lobby.tsx:111 | the count lies in 1..30; in-range values are kept, lower ones become 1 and higher ones become 30 |
| Lobby.CountInput | gemini-quiz-master/components/Lobby.tsx:109-112 | NaN leaves the config unchanged; topic and difficulty are always kept; a parsed count lands in 1..30 and is exact when already in range |
| Lobby.CountInputNumeral | gemini-quiz-master/components/Lobby.tsx:109-111 | typing an in-range count stores exactly that count |
| Lobby.CountInputClamps | gemini-quiz-master/components/Lobby.tsx:111 | typing any integer stores it clamped to 1..30 |
| Lobby.HostCanStartWithTopic | gemini-quiz-master/components/Lobby.tsx:163-167 | whenever the button is shown, that is for a player whose own entry carries the host flag, it is enabled exactly when the topic is non-empty |
| Lobby.StartEnabledForBlankTopic | gemini-quiz-master/components/Lobby.tsx:166 | any non-empty topic made only of white space enables the button, although `startMultiplayerQuiz` ignores it |
| Leaderboard.Compare | gemini-quiz-master/components/LiveLeaderboard.tsx:13 | negative exactly when `a` has the higher score, or the same score and the higher question index; zero exactly when both keys are equal |
| Leaderboard.CompareMeaning | gemini-quiz-master/components/LiveLeaderboard.tsx:13 | `a` may precede `b` exactly when it has a higher score, or an equal score and no lower index; the comparator is antisymmetric |
| Leaderboard.CompareTransitive | gemini-quiz-master/components/LiveLeaderboard.tsx:13 | the comparator's order is transitive |
| Leaderboard.SortedTail | gemini-quiz-master/components/LiveLeaderboard.tsx:13 | the tail of a ranking is a ranking |
| Leaderboard.SortedCons | gemini-quiz-master/components/LiveLeaderboard.tsx:13 | a player that may precede a whole ranking can be put in front of it |
| Leaderboard.Insert | gemini-quiz-master/components/LiveLeaderboard.tsx:13 | insertion adds exactly the inserted player |
| Leaderboard.InsertSorted | gemini-quiz-master/components/LiveLeaderboard.tsx:13 | insertion into a ranking yields a ranking |
| Leaderboard.SortedPlayers | gemini-quiz-master/components/LiveLeaderboard.tsx:13 | the ranking is a permutation of the roster and is in comparator order |
| Leaderboard.RankingOrder | gemini-quiz-master/components/LiveLeaderboard.tsx:13 | scores never increase along the ranking, and among equal scores question indexes never increase |
| Leaderboard.RankingIsPermutation | gemini-quiz-master/components/LiveLeaderboard.tsx:13 | the ranking lists exactly the roster's players and has the roster's length |
| Leaderboard.FirstRankHasTopScore | gemini-quiz-master/components/LiveLeaderboard.tsx:22-25 | the player shown at rank 1 has the highest score in the room |
| Leaderboard.InsertWithOwnKey | gemini-quiz-master/components/LiveLeaderboard.tsx:13 | an inserted player comes before the players with an equal key |
| Leaderboard.InsertWithOtherKey | gemini-quiz-master/components/LiveLeaderboard.tsx:13 | insertion does not reorder players with other keys |
| Leaderboard.RankingIsStable | gemini-quiz-master/components/LiveLeaderboard.tsx:13 | players with equal score and index stay in roster order |
| Leaderboard.SortedRosterUnchanged | gemini-quiz-master/components/LiveLeaderboard.tsx:13 | a roster already in ranking order is listed as it is |
| QuizCard.Card.constructor | gemini-quiz-master/components/QuizCard.tsx:20-21 | a card starts with nothing selected and nothing submitted |
| QuizCard.Card.Select | gemini-quiz-master/components/QuizCard.tsx:23-26 | the selection changes only before submission; a submitted answer keeps its selection |
| QuizCard.Card.Submit | gemini-quiz-master/components/QuizCard.tsx:28-31 | without a selection nothing changes; with one the card is submitted and the selection is kept |
| QuizCard.Card.Next | gemini-quiz-master/components/QuizCard.tsx:33-40 | with a selection the answer "selection equals correct index" is reported once and the card resets; without one nothing is reported or changed |
| QuizApp.SaveHistoryList | gemini-quiz-master/App.tsx:90 | the new item comes first, the earlier items follow in order, and the list length is one more than before, at most 20 |
| QuizApp.SaveHistoryFull | gemini-quiz-master/App.tsx:90 | saving into a full history drops exactly the oldest entry |
| QuizApp.SaveRunKeepsNewest | gemini-quiz-master/App.tsx:90 | after any run of saved quizzes the history is the newest ones, most recent first, then the older history, cut to 20 entries |
| QuizApp.NewestCons | gemini-quiz-master/App.tsx:90 | saving in front of a cut history is cutting the longer list |
| QuizApp.RoomIdFromHash | gemini-quiz-master/App.tsx:45-51 | a room id is found exactly when the hash starts with `#room=` and something follows it; the id is that remainder |
| QuizApp.ShareLinkRoundTrip | gemini-quiz-master/components/Lobby.tsx:31 | the lobby's share link leads back to its room id |
| QuizApp.App.constructor | gemini-quiz-master/App.tsx:14-28 | the quiz starts at the menu in single mode with the default config and empty state; the peer is in no room, has no id, no roster, no sender, no game data and has sent nothing |
| QuizApp.App.ReadRoomHash | gemini-quiz-master/App.tsx:45-51 | the room-id field takes the hash's room id when there is one, and is unchanged otherwise |
| QuizApp.App.ChangeCount | gemini-quiz-master/App.tsx:352 | the lobby's count field updates the config through `CountInput` |
| QuizApp.App.LobbyIsHost | gemini-quiz-master/App.tsx:350 | the lobby treats as host only a player with an own roster entry, and a connected host in a consistent session always is one |
| QuizApp.App.HandleCreateRoom | gemini-quiz-master/App.tsx:130-138 | with a blank name neither the peer nor the screen changes; otherwise it connects as host to the new room, keeps any game data, and opens the lobby, where the player is shown as host and the start button depends on the topic alone |
| QuizApp.App.HandleJoinRoom | gemini-quiz-master/App.tsx:140-145 | with a blank name or room id neither the peer nor the screen changes; otherwise it connects as guest to the upper-cased room id, keeps any game data, and opens the lobby |
| QuizApp.App.ApplyGameStart | gemini-quiz-master/App.tsx:71-79 | in the lobby with game data, the questions and config of the payload are loaded, with index 0 and score 0, and the quiz starts; in any other case nothing changes |
| QuizApp.App.StartMultiplayerQuiz | gemini-quiz-master/App.tsx:112-128 | a blank topic changes and sends nothing; a failure returns to the lobby with the error and sends nothing; a success broadcasts the questions and config and starts the quiz at 0 |
| QuizApp.App.HandleAnswer | gemini-quiz-master/App.tsx:147-167 | the score grows by one exactly for a correct answer; finished means the last question; in multi mode the progress (score, index + 1, finished) is sent; the advance or result timer is queued |
| QuizApp.App.FireTimer | gemini-quiz-master/App.tsx:159-166 | the advance timer moves to the next question; the result timer saves the quiz with its score and shows the result |
| QuizApp.App.SaveHistory | gemini-quiz-master/App.tsx:81-92 | the history gets the quiz's topic, difficulty, score and question count first, and stays within 20 entries |
| Portal.FilterApps | App.tsx:17-29 | the result is a subsequence of the apps, in order, and holds an app exactly when its category and search match |
| Portal.FilteredApps | App.tsx:17-29 | the portal's list is an ordered subsequence of the catalogue, with exactly the matching apps |
| Portal.MatchesSearch | App.tsx:21-25 | a query that lower-cases to the empty string matches every app |
| Portal.FilterKeepsCategory | App.tsx:19 | with a category other than All, every listed app has that category |
| Portal.AllCategoryKeepsEveryApp | App.tsx:19 | with All, the category test keeps every app |
| Portal.EmptyQueryIsCategoryFilter | App.tsx:23-25 | an empty query lists exactly the apps of the category, in order |
| Portal.SearchIgnoresCase | App.tsx:21-25 | with ASCII lower-casing, a query typed in capitals lists the same apps |
| Portal.InitialListIsCatalogue | App.tsx:17-29 | with no query and All, the whole catalogue is listed |

## Left out

- The trystero transport (`joinRoom`, `makeAction`, `room.selfId`, `room.leave`, `onPeerJoin`) is modelled only as a caller-supplied own id and the `outbox`. Delivery, loss and reordering belong to the environment.
- Real time: the 100 ms resync delay and the 1000 ms answer delays are not modelled. The answer delays are a queue of pending steps.
- Concurrency between browsers, and React's batching of state updates, are not modelled. Handlers run one at a time.
- Quiz generation (`gemini-quiz-master/services/geminiService.ts`) and the chat assistant are not part of this model. Generation is an input: its questions, or None for a failure.
- Browser services are left out: `localStorage`, the clipboard, the online status, `window.location.reload` and the clearing of the URL hash. Room ids from `Math.random` are inputs, and `Date.now()` is a parameter of `FireTimer`.
- Floating point: the leaderboard's progress bar percentage is left out.
- Rendering and markup are left out: the header, app cards, category filter buttons, history sidebar and the quiz screens.
- `startSingleQuiz`, `handleNameChange`, `resetApp` and the difficulty and topic fields are not part of this model. Only the multiplayer start, count input and start button are.
- The in-place sort of the roster on the result screen is not modelled. Neither are a second `connect` and the handlers of an earlier room.
- The extra `index` property that `updateProgress` adds to the sender's own entry is not represented; nothing reads it.
- App icons, colours and the new/popular flags in the catalogue are left out.
- The `loading` screen is modelled only as an intermediate value of `StartMultiplayerQuiz`, because generation is an instantaneous input.
- Text.AsciiUpper: `toUpperCase` is modelled for ASCII letters only. Other letters keep their case.
- Lobby.ParseInt: unbounded integers, so precision loss above 2^53 is not modelled. Any such value is clamped to 30 anyway.
- QuizApp.App.SaveHistory: the history, config and questions are the current ones. The source reads them through the closure of the render that started the timer. They are the same unless state changes during the one-second wait.
