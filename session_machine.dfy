/** The `App` component's session as an object whose fields are updated in
    place, one method per handler, effect or timer event. Each method is
    specified by the transition function of module Session. */
module SessionMachine {
  import opened Wrappers
  import opened Scoring
  import opened QuestionBank
  import opened Session

  class QuizSession {
    var error: Option<string>
    var loadingCategories: bool
    var loadingQuestions: bool
    var apiOptions: ApiOptions
    var withTimer: bool
    var categories: seq<Category>
    /** The fields `resetGame` resets, and whether the scoring timer is armed. */
    var game: Game

    ghost function State(): SessionState
      reads this
    {
      SessionState(error, loadingCategories, loadingQuestions, apiOptions, withTimer, categories, game)
    }

    ghost predicate Valid()
      reads this
    {
      Inv(State())
    }

    /** Mounting: initial values, the category request started, and the
        bank effect run on the initial empty bank. */
    constructor ()
      ensures Valid() && State() == Mounted()
    {
      error, loadingCategories, loadingQuestions := None, false, false;
      apiOptions, withTimer, categories := ApiOptions("5", None), false, [];
      game := NewGame;
      loadingCategories := true;
      new;
      PopulateFromBank();
    }

    /** `resetGame`: every game field back to its initial value; the frame
        says the rest of the session is left as it was. On its own it leaves
        the bank effect due; the callers below run that effect after it. */
    method ResetGame()
      modifies this`game
      ensures game == NewGame
    {
      game := NewGame;
    }

    /** The effect on `questionsBank`: show the first question, number 1. */
    method PopulateFromBank()
      modifies this`game
      ensures game == Populate(old(game))
    {
      game := game.(currentQuestion := Lookup(game.questionsBank, 0));
      game := game.(questionNum := 1);
    }

    /** The end-of-game form's "Back to Leaderboard" and its save: reset,
        then the bank effect for the new empty bank. */
    method ReturnToLeaderboard()
      requires Valid()
      modifies this`game
      ensures Valid() && State() == Restart(old(State()))
    {
      ResetGame();
      PopulateFromBank();
    }

    /** `handleSubmit` up to its `await`, followed by the bank effect that the
        reset's empty bank triggers. */
    method HandleSubmit()
      requires CategoryResolvable(State())
      modifies this`game, this`loadingQuestions
      ensures Valid() && State() == BeginSubmit(old(State()))
    {
      ResetGame();
      if apiOptions.category.Some? {
        var found := FindCategory(categories, apiOptions.category.value);
        game := game.(currentCategory := found.value.name);
      }
      loadingQuestions := true;
      PopulateFromBank();
    }

    /** The rest of `handleSubmit`, once the request it sent settles; on a
        non-empty result, the bank effect follows. */
    method ReceiveQuestions(outcome: ProviderOutcome, host: Host)
      requires Valid() && loadingQuestions
      modifies this`error, this`game, this`loadingQuestions
      ensures Valid() && State() == Session.ReceiveQuestions(old(State()), outcome, host)
    {
      match outcome {
        case Failure =>
          error := Some(QuestionsErrorMessage);
        case Results(records) =>
          if |records| == 0 {
            error := Some(NoQuestionsMessage);
          } else {
            InstallBank(BuildBank(records, host));
          }
      }
      loadingQuestions := false;
      ReceiveQuestionsKeepsInv(old(State()), outcome, host);
    }

    /** The successful end of `handleSubmit`: the bank, its size and the
        in-progress flag set together, then the bank effect. */
    method InstallBank(bank: seq<Question>)
      modifies this`game
      ensures game == Populate(old(game).(questionsBank := bank, totalQuestions := |bank|, quizInProgress := true))
    {
      game := game.(questionsBank := bank, totalQuestions := |bank|, quizInProgress := true);
      PopulateFromBank();
    }

    /** `handleAnswers`, with the answers effect re-arming the scoring timer. */
    method HandleAnswers(data: Answer)
      requires Valid()
      modifies this`game
      ensures Valid() && game == RecordAnswer(old(game), data)
    {
      game := game.(answers := game.answers + [data]);
      game := game.(score := Pending);
      game := game.(scoringPending := true);
      RecordAnswerKeepsInv(old(game), data);
    }

    /** `setNewScoreAndQuestionNum`: recompute the score, then advance or
        end, both tests reading the question number from before the step. */
    method SetNewScoreAndQuestionNum()
      modifies this`game
      ensures game == ScoreAndAdvance(old(game))
    {
      var newScore := TallyScore(game.answers);
      game := game.(score := Value(newScore));
      var n := game.questionNum;
      if n < game.totalQuestions {
        game := game.(currentQuestion := Lookup(game.questionsBank, n));
        game := game.(questionNum := n + 1);
      }
      if n == game.totalQuestions {
        game := game.(gameEnded := true);
      }
    }

    /** The scoring timer firing: it is consumed, and the step runs on the
        game as it is then. */
    method FireScoring()
      requires Valid() && game.scoringPending
      modifies this`game
      ensures Valid() && game == ScoreAndAdvance(old(game).(scoringPending := false))
    {
      game := game.(scoringPending := false);
      SetNewScoreAndQuestionNum();
      ScoringKeepsInv(old(game));
    }

    /** The error timer firing. */
    method FireErrorClear()
      requires Valid()
      modifies this`error
      ensures Valid() && State() == ClearError(old(State()))
    {
      error := None;
    }

    /** The category request settling (a cancellation only happens on
        unmount and changes nothing). */
    method ReceiveCategories(outcome: CategoriesOutcome)
      requires Valid()
      modifies this`categories, this`loadingCategories, this`error
      ensures Valid() && State() == Session.ReceiveCategories(old(State()), outcome)
    {
      match outcome {
        case Loaded(fetched, order) =>
          categories := Permute(fetched, order);
          loadingCategories := false;
        case Cancelled =>
        case LoadFailed =>
          loadingCategories := false;
          error := Some(CategoriesErrorMessage);
      }
    }
  }
}
