/** The quiz's records (gemini-quiz-master/types.ts) and constants (gemini-quiz-master/constants.ts). */
module QuizTypes {

  datatype Option<T> = None | Some(value: T)

  /** The five difficulty levels, 1 (very easy) to 5 (very hard). */
  datatype Difficulty = VeryEasy | Easy | Normal | Hard | VeryHard

  datatype QuizConfig = QuizConfig(topic: string, count: int, difficulty: Difficulty)

  datatype Question = Question(
    id: string,
    text: string,
    options: seq<string>,
    correctIndex: int,
    explanation: string)

  datatype QuizHistoryItem = QuizHistoryItem(
    timestamp: int,
    topic: string,
    difficulty: Difficulty,
    score: int,
    total: int)

  /** One participant; the progress fields are owned by the player they describe. */
  datatype Player = Player(
    id: string,
    name: string,
    isHost: bool,
    score: int,
    currentQuestionIndex: int,
    finished: bool)

  datatype AppState = Menu | Setup | Loading | Lobby | Quiz | ResultScreen

  datatype GameMode = Single | Multi

  const MAX_QUESTIONS: int := 30
  const MIN_QUESTIONS: int := 1

  /** `DEFAULT_CONFIG` with the empty topic the quiz starts from. */
  const DEFAULT_CONFIG: QuizConfig := QuizConfig("", 5, Normal)
}
