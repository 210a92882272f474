# Trivia quiz session, modelled in Dafny

This project models the quiz session of the React `App` component in
`src/App.jsx`. A player picks quiz options and submits them. The component
fetches trivia questions from the provider and builds a question bank. It then
shows one question at a time and takes answers. A debounced timer recomputes
the score and moves to the next question, or ends the game after the last one.
The component also computes the progress percentage. Transient error messages
clear themselves after a delay.

The modules are:

- `Wrappers`: the `Option` type and a bounds-checked `Lookup`. `Lookup` plays
  the part of JavaScript's `array[i]`, which is `undefined` out of range.
- `Percentage`: `calculatePercentage`, with JavaScript's `Math.floor` of a
  quotient written out as `FloorDiv`.
- `Scoring`: the answer records. `TallyScore` is the scoring loop of
  `setNewScoreAndQuestionNum`, and `ScoreOf` is the function that specifies it.
- `QuestionBank`: building the bank from the provider's raw records.
  - The ids are `` `${index}-${Date.now()}` ``.
  - The answer options are shuffled by a random comparator.
  - The browser services it uses are the parameters of a `Host` value. These
    are `decodeString`, `Date.now` and `Math.random`.
- `Session`: the component state as values. A `Game` holds the ten fields
  that `resetGame` sets, plus the scoring-timer flag `scoringPending`. Each
  handler, effect and timer event is a transition function. `Inv` is the
  invariant every event keeps:
  - `Mounted`, `Restart`, `BeginSubmit`, `RecordAnswer`, `ClearError` and
    `ReceiveCategories`;
  - the armed scoring timer firing;
  - `ReceiveQuestions` while a request is outstanding.

  The bank effect `Populate` keeps `Inv` only as part of the events that run
  it. On its own it can break it, for example on an ended game.
- `SessionMachine`: the class `QuizSession` holds the state as fields. It has
  one method per handler, effect or timer event. Each method is proved to
  change the fields as its transition function says.
  - The event methods also keep `Inv`: the constructor, `ReturnToLeaderboard`,
    `HandleSubmit`, `ReceiveQuestions`, `HandleAnswers`, `FireScoring`,
    `FireErrorClear` and `ReceiveCategories`.
  - `ResetGame`, `PopulateFromBank`, `InstallBank` and
    `SetNewScoreAndQuestionNum` are steps inside one React update. Nobody
    observes their intermediate state, so they promise only their effect on
    the fields.

React's behaviour is modelled as follows:

- State setters called in one handler take effect together.
- The effect on `questionsBank` runs after every render that replaced the bank.
  This includes the fresh `[]` that `resetGame` stores. Every handler that
  replaces the bank is therefore followed by `Populate`.
- The mount runs that effect once as well. So the question number is at least
  1 in every reachable state, and it is 1 when no quiz is loaded: the idle
  state has question number 1 and total 0.
- `handleSubmit` is split at its `await` into `HandleSubmit` (the synchronous
  part) and `ReceiveQuestions` (the request settling). Other events may
  happen in between.
- The provider's answer is an input value, either `Failure` or
  `Results(records)`.
- The two timers are explicit events:
  - The 1500 ms scoring timer is the flag `scoringPending`.
    - `handleAnswers` arms it.
    - Emptying `answers` cancels it: this is the effect cleanup.
    - `FireScoring` consumes it.
  - The 5000 ms error timer is `FireErrorClear`. The `false` of "no error" is
    `None`.
- The score's `'?'` placeholder is `Pending`.

## Model

| member | source | states |
|---|---|---|
| Wrappers.Lookup | src/App.jsx:131 | `array[i]`: a value exactly when `i` is within bounds, and then it is the element at `i`. |
| Percentage.CalculatePercentage | src/App.jsx:16-19 | 0 when the fraction or the total is 0. Otherwise `r` is the floor of `fraction*100/total`: `r*total <= fraction*100 < r*total + total` for a positive total, mirrored for a negative one. `0 <= r <= 100` whenever `0 <= fraction <= total`. |
| Percentage.FloorDiv | src/App.jsx:18 | `Math.floor(a / b)`: the integer `q` with `q*b <= a < q*b + b` for `b > 0`, mirrored for `b < 0`. |
| Percentage.FullOnlyAtCompletion | src/App.jsx:16-19 | For `0 < f <= t`, the percentage is 100 exactly when `f == t`. |
| Percentage.Examples | src/App.jsx:16-19 | Concrete values: `(0,7)` and `(3,0)` give 0, `(50,200)` gives 25, `(99,100)` gives 99, `(1,3)` gives 33. |
| Scoring.Counts | src/App.jsx:125 | An answer earns points exactly when it is a non-null record whose flag is `true`. |
| Scoring.CorrectCount | src/App.jsx:124-126 | The number of answers that earn points is at most the number of answers. |
| Scoring.ScoreOf | src/App.jsx:122-126 | The score is a multiple of 100 and at most 100 per answer. |
| Scoring.TallyScore | src/App.jsx:122-126 | The loop starts from 0 and returns 100 per non-null answer flagged correct, i.e. `ScoreOf(answers)`. |
| Scoring.CorrectCountIsMultiplicity | src/App.jsx:124-126 | The count equals the multiplicity of the correct record in the multiset of answers. |
| Scoring.ScoreOrderIndependent | src/App.jsx:122-126 | Two answer lists with the same multiset get the same score. |
| Scoring.ScoreAppend | src/App.jsx:115 | Appending an answer adds 100 points exactly when that answer is correct. |
| Scoring.ScorePositiveIff | src/App.jsx:124-126 | The score is positive exactly when some answer is correct. |
| QuestionBank.DecimalString | src/App.jsx:96 | The decimal text of a number is non-empty, has at least two digits from 10 upwards, and holds only digits. |
| QuestionBank.DecimalInjective | src/App.jsx:96 | Equal decimal texts come from equal numbers. |
| QuestionBank.IdString | src/App.jsx:96 | The id is the position's decimal text, a dash, then the clock's decimal text, with the length of the three together. |
| QuestionBank.IdsDistinct | src/App.jsx:96 | Ids of records at different positions differ, whatever the clock read for each. |
| QuestionBank.Permute | src/App.jsx:99 | The shuffled options keep the length and the multiset of the list. |
| QuestionBank.RemoveAt | src/App.jsx:99 | Dropping one element shortens the list by one and removes exactly that element from its multiset. |
| QuestionBank.PermuteReachesEvery | src/App.jsx:99 | Every reordering of the options is the result of some sequence of random picks. |
| QuestionBank.DecodeAll | src/App.jsx:92 | Decodes each incorrect answer, keeping the length and the order. |
| QuestionBank.BuildQuestion | src/App.jsx:89-100 | The id is index-dash-clock. The question and the answer are decoded. The options are the decoded incorrect answers plus the answer, as a multiset, one longer than the incorrect answers, and they contain the answer. |
| QuestionBank.BuildBank | src/App.jsx:88-101 | One question per record, in the same order and of the same length. Each entry is built from the record at its position, with id `IdString(i, clock(i))`. Ids are pairwise distinct and every question offers its answer. |
| Session.Populate | src/App.jsx:167-170 | Question number 1. The current question is `bank[0]`, or none on an empty bank. Nothing else changes. |
| Session.Mounted | src/App.jsx:22-37 | The initial values after the mount's effects: categories loading, no quiz, no question, question number 1, total 0. The invariant holds. |
| Session.Restart | src/App.jsx:39-50 | `resetGame` and the bank effect that follows it. Timer 0, empty bank, 'General Knowledge', no question, number 1, total 0, no answers, score 0, no quiz, not ended, scoring timer cancelled. The fields outside the game are unchanged, and the invariant holds. |
| Session.RestartIdempotent | src/App.jsx:39-50 | Restarting twice equals restarting once. |
| Session.RestartMatchesMount | src/App.jsx:22-50 | The game after a restart equals the game of a freshly mounted session, which is the bank effect run on the initial game. This holds by definition: lines 27-37 and 40-49 set the same values, and the model writes them once, as the constant `NewGame`. |
| Session.FindCategory | src/App.jsx:66-68 | `find`: none exactly when no category has the id. Otherwise the first category with that id. |
| Session.CategoryLabel | src/App.jsx:64-70 | With a chosen id, the name of the first loaded category with that id. Without one, the default label. |
| Session.BeginSubmit | src/App.jsx:59-72 | Up to the `await`: game reset and relabelled, loading flag raised, question number 1, no question. Error, categories, options and timer toggle are unchanged, and the invariant holds. |
| Session.ReceiveQuestions | src/App.jsx:73-111 | The loading flag is lowered on every path. A failure sets the load-error message and an empty result sets the no-questions message; nothing else changes. A non-empty result sets the bank built from the records, total = their count, quiz in progress, and shows question 1 = `bank[0]`, with the error untouched. |
| Session.ReceiveQuestionsKeepsInv | src/App.jsx:73-111 | While a request is outstanding, its settling keeps the invariant. |
| Session.SubmitOutcomes | src/App.jsx:59-112 | A whole submission has three outcomes. Each ends with the loading flag down, answers empty, score 0 and the category label set. Success: bank and total from the records, quiz in progress, `bank[0]` shown. Empty result or failure: the matching message, an empty bank, no quiz. |
| Session.RecordAnswer | src/App.jsx:114-117 | Exactly one answer is appended, at the end, and the earlier ones are unchanged. The score becomes `Pending`, the scoring timer is armed, and nothing else changes. |
| Session.RecordAnswerKeepsInv | src/App.jsx:172-176 | Answering keeps the invariant: a timer is armed only with answers present, and the score is `Pending` exactly while it is armed. |
| Session.ScoreAndAdvance | src/App.jsx:121-136 | The score is `ScoreOf(answers)`. Answers, bank, total, quiz flag, timer, label and the scoring flag are unchanged. |
| Session.AdvanceOrEnd | src/App.jsx:130-135 | When the armed scoring timer fires on any reachable game: below the total, it shows `bank[questionNum]`, adds 1 to the number and does not end the game. At the total, it ends the game and keeps the question. Both tests read the old number, and the number never passes the total. |
| Session.ScoringKeepsInv | src/App.jsx:172-176 | The armed timer firing keeps the invariant. |
| Session.ScoringIdempotent | src/App.jsx:121-128 | Scoring again over unchanged answers gives the same score. |
| Session.DebouncedAnswers | src/App.jsx:172-176 | Two answers before the timer fires: one scoring pass counts both, and the question number advances at most once. |
| Session.LastAnswerEndsGame | src/App.jsx:130-135 | Answering the last question ends the game, and the final score includes that answer. |
| Session.OneCorrectAnswerScenario | src/App.jsx:121-136 | A one-question quiz answered correctly ends with score 100. |
| Session.ClearError | src/App.jsx:178-181 | The error is cleared and nothing else changes. |
| Session.ClearErrorKeepsInv | src/App.jsx:178-181 | Clearing the error keeps the invariant. |
| Session.ReceiveCategories | src/App.jsx:148-162 | Loaded: the categories are a permutation of the fetched list (same length and multiset), loading ends and the error is untouched. Cancelled: no change. Failed: loading ends and the category error is set. Nothing else changes. |
| Session.ReceiveCategoriesKeepsInv | src/App.jsx:148-162 | The category request settling keeps the invariant. |
| Session.ProgressDuringQuiz | src/App.jsx:209 | During a quiz the progress percentage is within 0..100, and it is 100 exactly on the last question. |
| SessionMachine.QuizSession.constructor | src/App.jsx:22-37 | The fields hold the mounted state, and the invariant holds. |
| SessionMachine.QuizSession.ResetGame | src/App.jsx:39-50 | Every game field goes back to its initial value, and the frame leaves the other fields as they were. |
| SessionMachine.QuizSession.PopulateFromBank | src/App.jsx:167-170 | The game becomes `Populate` of the old game. |
| SessionMachine.QuizSession.ReturnToLeaderboard | src/App.jsx:39-50 | The new state is `Restart` of the old one, and the invariant holds. |
| SessionMachine.QuizSession.HandleSubmit | src/App.jsx:59-72 | The new state is `BeginSubmit` of the old one, and the invariant holds. |
| SessionMachine.QuizSession.ReceiveQuestions | src/App.jsx:73-111 | The new state is `Session.ReceiveQuestions` of the old one and the outcome, and the invariant is kept. |
| SessionMachine.QuizSession.InstallBank | src/App.jsx:102-105 | The bank, its size and the in-progress flag are set together, then the bank effect runs. |
| SessionMachine.QuizSession.HandleAnswers | src/App.jsx:114-117 | The game becomes `RecordAnswer` of the old game, and the invariant is kept. |
| SessionMachine.QuizSession.SetNewScoreAndQuestionNum | src/App.jsx:121-136 | The loop's score and the advance-or-end step leave the game equal to `ScoreAndAdvance` of the old game. |
| SessionMachine.QuizSession.FireScoring | src/App.jsx:172-176 | The armed timer is consumed, then the scoring step runs, and the invariant is kept. |
| SessionMachine.QuizSession.FireErrorClear | src/App.jsx:178-181 | The new state is `ClearError` of the old one, and the invariant is kept. |
| SessionMachine.QuizSession.ReceiveCategories | src/App.jsx:148-162 | The new state is `ReceiveCategories` of the old one, and the invariant is kept. |

## Behaviour worth noting

The model follows the code in each of these places.

- An idle session does not have a question index within 0..total. The mount
  effect and every reset's bank effect set the question number to 1, so an
  idle session has number 1 and total 0. `Inv` states
  `questionNum <= totalQuestions || questionNum == 1`.
- Nothing ensures that a question's options contain its answer exactly once.
  A decoded incorrect answer can equal the decoded correct answer.
  `BuildQuestion` states what the code guarantees instead: a multiset equation
  and membership of the answer.
- Nothing ensures that the category list is sorted by name. The comparator
  `a.name > b.name` returns a boolean, which the engine's `sort` does not
  interpret as an order. The model promises only a permutation.

## Left out

- `decodeString`: DOM entity unescaping. It is the parameter `Host.decode`.
- `Date.now`: the clock. It is the parameter `Host.clock`, read once per
  record position.
- `Math.random`: the randomness. It is the parameter `Host.shuffle`, the picks
  behind `Permute`. Any permutation is possible. The engine's biased
  distribution is not modelled.
- axios requests, the category request's cancel token and `console.log`: I/O.
  Each request's outcome is an input value (`ProviderOutcome`,
  `CategoriesOutcome`).
- Timer durations and wall-clock time: the timers are explicit fire events.
  The error timer re-armed by `setError(false)` is not tracked, because firing
  it again on no error changes nothing.
- `handleChange`, the timer toggle `setWithTimer`, the per-question
  `setTimer`, and all JSX rendering. They are form plumbing and display.
- `parseInt` of the chosen category: the category id is already a number,
  `ApiOptions.category: Option<int>`.
- The `SaveScore` form's empty-name check and its Firebase `push`. Only the
  `resetGame` it calls is modelled, as `ReturnToLeaderboard`.
- SessionMachine.QuizSession.HandleSubmit: requires `CategoryResolvable`. With
  a chosen id absent from the loaded categories, the code throws on `.name`.
  That crash is not modelled.
- SessionMachine.QuizSession.ReceiveQuestions: requires a request to be
  outstanding (`loadingQuestions`). When overlapping submissions each get a
  late answer, the second answer arrives after the loading flag is down. That
  case is not modelled.
- SessionMachine.QuizSession: the game fields are one record field of the
  class, `game: Game`. A handler's setters on several of them are
  written as updates of that record. This does not capture separate
  in-place updates of the ten `useState` fields it holds. The fields outside the game are
  separate class fields.
- JavaScript Numbers: `calculatePercentage` divides floating-point numbers, and the model uses exact integers. The two agree whenever `|fraction * 100|` is below 2^53, which every count the app produces is.
- Number of answers at most the number of questions: the code does not
  enforce this, and the model does not assume it.
