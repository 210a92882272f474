/** The quiz session of the `App` component (src/App.jsx) as values: its
    state record, one function per transition, and the invariant `Inv` that
    every event keeps: the mount, a restart, the start of a submission, an
    outstanding request settling, an answer, the armed scoring timer firing,
    the error clearing and the category request settling. The bank effect
    `Populate` keeps it only as part of the events that run it. The class in
    SessionMachine updates its fields in place and is specified by these
    functions. */
module Session {
  import opened Wrappers
  import opened Percentage
  import opened Scoring
  import opened QuestionBank

  /** The score shown to the player; `Pending` is the `'?'` shown while a
      recomputation is scheduled. */
  datatype Score = Pending | Value(points: int)

  datatype Category = Category(id: int, name: string)

  /** The quiz options sent to the provider. `category` is the chosen
      category id, `None` when the form leaves it empty. */
  datatype ApiOptions = ApiOptions(amount: string, category: Option<int>)

  /** What the question request ends with. */
  datatype ProviderOutcome = Failure | Results(records: seq<RawRecord>)

  /** What the category request ends with: the fetched list and the random
      choices fixing the order the engine's sort leaves it in, a
      cancellation, or an error. */
  datatype CategoriesOutcome = Loaded(fetched: seq<Category>, order: seq<nat>) | Cancelled | LoadFailed

  const DefaultCategory := "General Knowledge"
  const NoQuestionsMessage := "\U{1F641} No questions found with the selected options. please try again!"
  const QuestionsErrorMessage := "\U{1F641} Error loading questions from the API. Please try again later."
  const CategoriesErrorMessage := "\U{1F641} Error loading categories from the API. Please try again later."

  /** The ten `useState` fields that `resetGame` sets, plus `scoringPending`:
      whether the 1500 ms scoring timer is armed. */
  datatype Game = Game(
    timer: int,
    questionsBank: seq<Question>,
    currentCategory: string,
    currentQuestion: Option<Question>,
    questionNum: int,
    totalQuestions: int,
    answers: seq<Answer>,
    score: Score,
    quizInProgress: bool,
    gameEnded: bool,
    scoringPending: bool)

  /** The rest of the component's `useState` fields, and its game. */
  datatype SessionState = SessionState(
    error: Option<string>,
    loadingCategories: bool,
    loadingQuestions: bool,
    apiOptions: ApiOptions,
    withTimer: bool,
    categories: seq<Category>,
    game: Game)

  /** The game fields' `useState` initial values, which are also the values
      `resetGame` restores. */
  const NewGame := Game(0, [], DefaultCategory, None, 0, 0, [], Value(0), false, false, false)

  /** The `useState` initial values. */
  const Initial := SessionState(None, false, false, ApiOptions("5", None), false, [], NewGame)

  /** The effect that runs whenever `questionsBank` is replaced: show the
      first question, numbered 1. */
  function Populate(g: Game): (r: Game)
    ensures r.questionNum == 1
    ensures g.questionsBank != [] ==> r.currentQuestion == Some(g.questionsBank[0])
    ensures g.questionsBank == [] ==> r.currentQuestion == None
    ensures r.(currentQuestion := g.currentQuestion, questionNum := g.questionNum) == g
  {
    g.(currentQuestion := Lookup(g.questionsBank, 0), questionNum := 1)
  }

  /** The state once the component has mounted: the category request is in
      flight and the bank effect has run once on the initial empty bank. */
  function Mounted(): (s: SessionState)
    ensures Inv(s)
    ensures s.loadingCategories && !s.loadingQuestions && s.error == None
    ensures !s.game.quizInProgress && s.game.currentQuestion == None
    ensures s.game.questionNum == 1 && s.game.totalQuestions == 0
  {
    Initial.(loadingCategories := true, game := Populate(NewGame))
  }

  /** `resetGame` and the bank effect its fresh empty bank triggers: every
      game field back to its default (the question number to 1), the rest of
      the session untouched. Emptying `answers` re-runs the answers effect,
      whose cleanup cancels an armed scoring timer. */
  function Restart(s: SessionState): (r: SessionState)
    ensures Inv(r)
    ensures r.game.timer == 0 && r.game.questionsBank == [] && r.game.totalQuestions == 0
    ensures r.game.currentCategory == DefaultCategory
    ensures r.game.currentQuestion == None && r.game.questionNum == 1
    ensures r.game.answers == [] && r.game.score == Value(0)
    ensures !r.game.quizInProgress && !r.game.gameEnded && !r.game.scoringPending
    ensures r.(game := s.game) == s
  {
    s.(game := Populate(NewGame))
  }

  /** `categories.find(category => category.id === id)`: the first match. */
  function FindCategory(categories: seq<Category>, id: int): (r: Option<Category>)
    ensures r.None? <==> forall k :: 0 <= k < |categories| ==> categories[k].id != id
    ensures r.Some? ==> exists k :: 0 <= k < |categories| && categories[k] == r.value && r.value.id == id
                                    && forall j :: 0 <= j < k ==> categories[j].id != id
  {
    if categories == [] then None
    else if categories[0].id == id then Some(categories[0])
    else
      var r := FindCategory(categories[1..], id);
      assert forall k :: 1 <= k < |categories| ==> categories[k] == categories[1..][k - 1];
      r
  }

  /** The caller's obligation: a chosen category is one of the loaded ones
      (the lookup dereferences the match without checking it). */
  predicate CategoryResolvable(s: SessionState) {
    s.apiOptions.category.Some? ==> FindCategory(s.categories, s.apiOptions.category.value).Some?
  }

  /** The label `handleSubmit` shows for the quiz: the name of the first
      loaded category with the chosen id, or the reset's default when no
      category is chosen. */
  function CategoryLabel(s: SessionState): (name: string)
    requires CategoryResolvable(s)
    ensures s.apiOptions.category.None? ==> name == DefaultCategory
    ensures s.apiOptions.category.Some? ==>
      exists k :: 0 <= k < |s.categories| && s.categories[k].id == s.apiOptions.category.value
                  && s.categories[k].name == name
                  && forall j :: 0 <= j < k ==> s.categories[j].id != s.apiOptions.category.value
  {
    if s.apiOptions.category.Some?
    then FindCategory(s.categories, s.apiOptions.category.value).value.name
    else DefaultCategory
  }

  /** The synchronous part of `handleSubmit`, up to its `await`: reset, the
      category label, the loading flag raised, and then the bank effect that
      the reset's fresh empty bank triggers. */
  function BeginSubmit(s: SessionState): (r: SessionState)
    requires CategoryResolvable(s)
    ensures Inv(r)
    ensures r.loadingQuestions
    ensures r.game.questionsBank == [] && r.game.totalQuestions == 0 && !r.game.quizInProgress
    ensures r.game.answers == [] && r.game.score == Value(0)
    ensures !r.game.scoringPending && !r.game.gameEnded
    ensures r.game.currentQuestion == None && r.game.questionNum == 1 && r.game.timer == 0
    ensures r.game.currentCategory == CategoryLabel(s)
    ensures r.(loadingQuestions := s.loadingQuestions, game := s.game) == s
  {
    s.(game := Populate(NewGame.(currentCategory := CategoryLabel(s))), loadingQuestions := true)
  }

  /** The rest of `handleSubmit`, once the request settles: one of three
      outcomes, and the loading flag lowered in each. Only a non-empty result
      replaces the bank, so only then does the bank effect run again. */
  function ReceiveQuestions(s: SessionState, outcome: ProviderOutcome, host: Host): (r: SessionState)
    ensures !r.loadingQuestions
    ensures outcome.Results? && outcome.records != [] ==>
      && r.game.questionsBank == BuildBank(outcome.records, host)
      && r.game.totalQuestions == |outcome.records| && r.game.quizInProgress
      && r.game.questionNum == 1 && r.game.currentQuestion == Some(r.game.questionsBank[0])
      && r.game.(questionsBank := s.game.questionsBank, totalQuestions := s.game.totalQuestions,
                 quizInProgress := s.game.quizInProgress, currentQuestion := s.game.currentQuestion,
                 questionNum := s.game.questionNum) == s.game
      && r.error == s.error
    ensures outcome.Results? && outcome.records == [] ==>
      r == s.(error := Some(NoQuestionsMessage), loadingQuestions := false)
    ensures outcome.Failure? ==>
      r == s.(error := Some(QuestionsErrorMessage), loadingQuestions := false)
    ensures r.(error := s.error, loadingQuestions := s.loadingQuestions, game := s.game) == s
  {
    match outcome
    case Failure =>
      s.(error := Some(QuestionsErrorMessage), loadingQuestions := false)
    case Results(records) =>
      if |records| == 0 then
        s.(error := Some(NoQuestionsMessage), loadingQuestions := false)
      else
        var loaded := s.game.(questionsBank := BuildBank(records, host), totalQuestions := |records|,
                              quizInProgress := true);
        s.(game := Populate(loaded), loadingQuestions := false)
  }

  /** `handleAnswers`: buffer the answer, mark the score stale and (re)arm
      the scoring timer. */
  function RecordAnswer(g: Game, data: Answer): (r: Game)
    ensures |r.answers| == |g.answers| + 1
    ensures r.answers[..|g.answers|] == g.answers && r.answers[|g.answers|] == data
    ensures r.score == Pending && r.scoringPending
    ensures r.(answers := g.answers, score := g.score, scoringPending := g.scoringPending) == g
  {
    g.(answers := g.answers + [data], score := Pending, scoringPending := true)
  }

  /** `setNewScoreAndQuestionNum` on the game as it is when it runs: the score
      recomputed from all answers, then advance or end, both tests reading
      the question number from before the step. */
  function ScoreAndAdvance(g: Game): (r: Game)
    ensures r.score == Value(ScoreOf(g.answers))
    ensures r.answers == g.answers && r.questionsBank == g.questionsBank
    ensures r.totalQuestions == g.totalQuestions && r.quizInProgress == g.quizInProgress
    ensures r.scoringPending == g.scoringPending && r.timer == g.timer
    ensures r.currentCategory == g.currentCategory
  {
    var n := g.questionNum;
    var scored := g.(score := Value(ScoreOf(g.answers)));
    var advanced :=
      if n < g.totalQuestions
      then scored.(currentQuestion := Lookup(g.questionsBank, n), questionNum := n + 1)
      else scored;
    if n == g.totalQuestions then advanced.(gameEnded := true) else advanced
  }

  /** The 5000 ms error timer firing: `setError(false)`. */
  function ClearError(s: SessionState): (r: SessionState)
    ensures r.error == None
    ensures r.(error := s.error) == s
  {
    s.(error := None)
  }

  /** The category request settling. A cancellation changes nothing. */
  function ReceiveCategories(s: SessionState, outcome: CategoriesOutcome): (r: SessionState)
    ensures outcome.Loaded? ==>
      && |r.categories| == |outcome.fetched|
      && multiset(r.categories) == multiset(outcome.fetched)
      && !r.loadingCategories && r.error == s.error
    ensures outcome.Cancelled? ==> r == s
    ensures outcome.LoadFailed? ==>
      && !r.loadingCategories && r.error == Some(CategoriesErrorMessage) && r.categories == s.categories
    ensures r.(categories := s.categories, loadingCategories := s.loadingCategories, error := s.error) == s
  {
    match outcome
    case Loaded(fetched, order) =>
      s.(categories := Permute(fetched, order), loadingCategories := false)
    case Cancelled => s
    case LoadFailed => s.(loadingCategories := false, error := Some(CategoriesErrorMessage))
  }

  /** What holds of every game the session reaches. */
  predicate GameInv(g: Game) {
    && g.totalQuestions == |g.questionsBank|
    && WellFormedBank(g.questionsBank)
    && (g.quizInProgress <==> g.totalQuestions > 0)
    // The bank effect has run at mount, so the question number is at least 1;
    // on an empty bank it is 1 while the total is 0.
    && 1 <= g.questionNum
    && (g.questionNum <= g.totalQuestions || g.questionNum == 1)
    // The question shown is the one the 1-based question number points at.
    && g.currentQuestion == Lookup(g.questionsBank, g.questionNum - 1)
    && (g.gameEnded ==> g.questionNum == g.totalQuestions)
    // A scoring timer is armed only after an answer, and the score is stale
    // exactly while it is armed.
    && (g.scoringPending ==> |g.answers| > 0)
    && g.score == (if g.scoringPending then Pending else Value(ScoreOf(g.answers)))
  }

  /** What holds of every state the session reaches. */
  predicate Inv(s: SessionState) {
    && GameInv(s.game)
    // A question request is outstanding only after a reset emptied the bank.
    && (s.loadingQuestions ==> s.game.totalQuestions == 0)
  }

  lemma ReceiveQuestionsKeepsInv(s: SessionState, outcome: ProviderOutcome, host: Host)
    requires Inv(s) && s.loadingQuestions
    ensures Inv(ReceiveQuestions(s, outcome, host))
  {
  }

  lemma RecordAnswerKeepsInv(g: Game, data: Answer)
    requires GameInv(g)
    ensures GameInv(RecordAnswer(g, data))
  {
  }

  /** The scoring timer fires only while armed; it is consumed first. */
  lemma ScoringKeepsInv(g: Game)
    requires GameInv(g) && g.scoringPending
    ensures GameInv(ScoreAndAdvance(g.(scoringPending := false)))
  {
  }

  lemma ClearErrorKeepsInv(s: SessionState)
    requires Inv(s)
    ensures Inv(ClearError(s))
  {
  }

  lemma ReceiveCategoriesKeepsInv(s: SessionState, outcome: CategoriesOutcome)
    requires Inv(s)
    ensures Inv(ReceiveCategories(s, outcome))
  {
  }

  /** Restarting twice is restarting once. */
  lemma RestartIdempotent(s: SessionState)
    ensures Restart(Restart(s)) == Restart(s)
  {
  }

  /** `resetGame` restores the game fields to the values they start with, so
      after a restart the game is the one a freshly mounted session shows.
      This holds by definition: both are built from the one constant
      `NewGame`, which writes down the values that the `useState` calls and
      `resetGame` share. */
  lemma RestartMatchesMount(s: SessionState)
    ensures Restart(s).game == Mounted().game
    ensures Mounted().game == Populate(Initial.game)
  {
  }

  /** A whole submission, both halves: the three outcomes of `handleSubmit`. */
  lemma SubmitOutcomes(s: SessionState, outcome: ProviderOutcome, host: Host)
    requires CategoryResolvable(s)
    ensures var r := ReceiveQuestions(BeginSubmit(s), outcome, host);
      && Inv(r) && !r.loadingQuestions
      && r.game.answers == [] && r.game.score == Value(0) && !r.game.gameEnded
      && r.game.currentCategory == CategoryLabel(s) && r.game.questionNum == 1
      && (outcome.Results? && outcome.records != [] ==>
            && r.game.questionsBank == BuildBank(outcome.records, host)
            && r.game.totalQuestions == |outcome.records| && r.game.quizInProgress
            && r.game.currentQuestion == Some(r.game.questionsBank[0]) && r.error == s.error)
      && (outcome.Results? && outcome.records == [] ==>
            && r.error == Some(NoQuestionsMessage)
            && r.game.questionsBank == [] && !r.game.quizInProgress && r.game.currentQuestion == None)
      && (outcome.Failure? ==>
            && r.error == Some(QuestionsErrorMessage)
            && r.game.questionsBank == [] && !r.game.quizInProgress && r.game.currentQuestion == None)
  {
    ReceiveQuestionsKeepsInv(BeginSubmit(s), outcome, host);
  }

  /** When the armed scoring timer fires, the step advances to the next
      question or ends the game, never both, and never takes the question
      number past the total. */
  lemma AdvanceOrEnd(g: Game)
    requires GameInv(g) && g.scoringPending
    ensures var r := ScoreAndAdvance(g.(scoringPending := false));
      && (g.questionNum < g.totalQuestions ==>
            && r.currentQuestion == Some(g.questionsBank[g.questionNum])
            && r.questionNum == g.questionNum + 1 && !r.gameEnded)
      && (g.questionNum == g.totalQuestions ==>
            && r.gameEnded && r.currentQuestion == g.currentQuestion && r.questionNum == g.questionNum)
      && (g.questionNum > g.totalQuestions ==>
            && r.gameEnded == g.gameEnded && r.currentQuestion == g.currentQuestion
            && r.questionNum == g.questionNum)
      && (g.totalQuestions > 0 ==> r.questionNum <= r.totalQuestions)
  {
  }

  /** Scoring again over the same answers gives the same score. */
  lemma ScoringIdempotent(g: Game)
    ensures ScoreAndAdvance(ScoreAndAdvance(g)).score == ScoreAndAdvance(g).score
  {
  }

  /** Two answers given before the scoring timer fires are scored together by
      one step, which advances the question number once. */
  lemma DebouncedAnswers(g: Game, a: Answer, b: Answer)
    requires GameInv(g)
    ensures var r := ScoreAndAdvance(RecordAnswer(RecordAnswer(g, a), b).(scoringPending := false));
      && r.answers == g.answers + [a, b]
      && r.score == Value(ScoreOf(g.answers) + (if Counts(a) then 100 else 0) + (if Counts(b) then 100 else 0))
      && r.questionNum <= g.questionNum + 1
  {
    var g2 := RecordAnswer(RecordAnswer(g, a), b);
    assert g2.answers == g.answers + [a] + [b];
    ScoreAppend(g.answers, a);
    ScoreAppend(g.answers + [a], b);
  }

  /** The answer to the last question ends the game once the scoring timer
      fires, and the final score counts that answer. */
  lemma LastAnswerEndsGame(g: Game, a: Answer)
    requires GameInv(g) && g.quizInProgress && g.questionNum == g.totalQuestions
    ensures var r := ScoreAndAdvance(RecordAnswer(g, a).(scoringPending := false));
      && r.gameEnded && r.questionNum == g.totalQuestions && GameInv(r)
      && r.score == Value(ScoreOf(g.answers) + (if Counts(a) then 100 else 0))
  {
    ScoreAppend(g.answers, a);
  }

  /** A one-question quiz answered correctly ends with 100 points. */
  lemma OneCorrectAnswerScenario(g: Game)
    requires GameInv(g) && g.totalQuestions == 1 && g.answers == []
    ensures var r := ScoreAndAdvance(RecordAnswer(g, Correct).(scoringPending := false));
      r.gameEnded && r.score == Value(100)
  {
    LastAnswerEndsGame(g, Correct);
  }

  /** During a quiz the progress bar stays within 0..100 and shows 100%
      exactly on the last question. (It can show 0% on the first question of
      a quiz of more than 100 questions: the value is floored.) */
  lemma ProgressDuringQuiz(g: Game)
    requires GameInv(g) && g.quizInProgress
    ensures 0 <= CalculatePercentage(g.questionNum, g.totalQuestions) <= 100
    ensures CalculatePercentage(g.questionNum, g.totalQuestions) == 100 <==> g.questionNum == g.totalQuestions
  {
    FullOnlyAtCompletion(g.questionNum, g.totalQuestions);
  }
}
