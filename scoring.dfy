/** Answer intake and the from-scratch score recomputation of
    `setNewScoreAndQuestionNum` (src/App.jsx). */
module Scoring {
  import opened Wrappers

  /** What the question widget reports for one question. */
  datatype AnswerRecord = AnswerRecord(isCorrectAnswer: bool)

  /** `None` is the `null` placeholder for a skipped or timed-out question. */
  type Answer = Option<AnswerRecord>

  /** `answer !== null && answer.isCorrectAnswer` */
  predicate Counts(a: Answer): (earns: bool)
    ensures earns <==> a == Some(AnswerRecord(true))
  {
    a.Some? && a.value.isCorrectAnswer
  }

  /** Number of answers that earn points. */
  function CorrectCount(answers: seq<Answer>): (n: nat)
    ensures n <= |answers|
  {
    if answers == [] then 0
    else
      var last := answers[|answers| - 1];
      CorrectCount(answers[..|answers| - 1]) + (if Counts(last) then 1 else 0)
  }

  /** The score the loop arrives at: 100 points per correct answer. */
  function ScoreOf(answers: seq<Answer>): (points: nat)
    ensures points % 100 == 0
    ensures points <= 100 * |answers|
  {
    100 * CorrectCount(answers)
  }

  /** The scoring loop: starts from zero on every call, so it is a
      recomputation, not an accumulation across calls. */
  method TallyScore(answers: seq<Answer>) returns (newScore: int)
    ensures newScore == ScoreOf(answers)
  {
    newScore := 0;
    var i := 0;
    while i < |answers|
      invariant 0 <= i <= |answers|
      invariant newScore == 100 * CorrectCount(answers[..i])
    {
      var answer := answers[i];
      assert answers[..i + 1][..i] == answers[..i];
      if answer.Some? && answer.value.isCorrectAnswer {
        newScore := newScore + 100;
      }
      i := i + 1;
    }
    assert answers[..i] == answers;
  }

  /** The one answer value that earns points. */
  const Correct: Answer := Some(AnswerRecord(true))

  /** The count is the multiplicity of the correct record: it does not
      depend on where in the sequence the correct answers sit. */
  lemma {:induction false} CorrectCountIsMultiplicity(answers: seq<Answer>)
    ensures CorrectCount(answers) == multiset(answers)[Correct]
  {
    if answers != [] {
      var init := answers[..|answers| - 1];
      var last := answers[|answers| - 1];
      assert answers == init + [last];
      CorrectCountIsMultiplicity(init);
      assert Counts(last) <==> last == Correct;
    }
  }

  /** Reordering the answers does not change the score. */
  lemma ScoreOrderIndependent(a: seq<Answer>, b: seq<Answer>)
    requires multiset(a) == multiset(b)
    ensures ScoreOf(a) == ScoreOf(b)
  {
    CorrectCountIsMultiplicity(a);
    CorrectCountIsMultiplicity(b);
  }

  /** Appending one answer adds 100 points exactly when it is correct. */
  lemma ScoreAppend(answers: seq<Answer>, a: Answer)
    ensures ScoreOf(answers + [a]) == ScoreOf(answers) + (if Counts(a) then 100 else 0)
  {
    assert (answers + [a])[..|answers|] == answers;
  }

  /** A score is earned exactly when some answer is correct. */
  lemma {:induction false} ScorePositiveIff(answers: seq<Answer>)
    ensures ScoreOf(answers) > 0 <==> exists i :: 0 <= i < |answers| && Counts(answers[i])
  {
    if answers != [] {
      var init := answers[..|answers| - 1];
      ScorePositiveIff(init);
      if ScoreOf(init) > 0 {
        var i :| 0 <= i < |init| && Counts(init[i]);
        assert answers[i] == init[i];
      } else if Counts(answers[|answers| - 1]) {
      } else {
        forall i | 0 <= i < |answers| ensures !Counts(answers[i]) {
          if i < |init| { assert answers[i] == init[i]; }
        }
      }
    }
  }
}
