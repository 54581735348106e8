/**
 * Quiz questions and grading (app.py, lines 180 and 193-195). A question's
 * `correctAnswer` is the index of its correct option; the user's answers map
 * question indices to the index of the option they chose.
 */
module Grading {

  /** One decoded quiz entry: `question`, `options`, `correct_answer`, `explanation`. */
  datatype Question = Question(question: string, options: seq<string>, correctAnswer: int, explanation: string)

  /** Every answered index names a question, so `mcqs[i]` is defined for it. */
  predicate AnswerKeysValid(mcqs: seq<Question>, answers: map<int, int>) {
    forall i :: i in answers ==> 0 <= i < |mcqs|
  }

  /** After submission, line 183 indexes a question's `options` by its
      `correct_answer` whenever the question is not answered correctly; the run
      gets past every verdict only if each such index is one Python accepts,
      `-len(options)` up to `len(options) - 1`. */
  predicate VerdictsRender(mcqs: seq<Question>, answers: map<int, int>) {
    forall i :: 0 <= i < |mcqs| ==>
      || (i in answers && answers[i] == mcqs[i].correctAnswer)
      || -|mcqs[i].options| <= mcqs[i].correctAnswer < |mcqs[i].options|
  }

  /** The answered indices whose answer is that question's correct option. */
  function CorrectKeys(mcqs: seq<Question>, answers: map<int, int>): set<int>
    requires AnswerKeysValid(mcqs, answers)
  {
    set i | i in answers && answers[i] == mcqs[i].correctAnswer
  }

  /** The score shown after submission: the number of answered items that match
      their question's correct answer. It agrees with the per-question verdicts
      and never exceeds the number of questions. */
  function Score(mcqs: seq<Question>, answers: map<int, int>): (score: nat)
    requires AnswerKeysValid(mcqs, answers)
    ensures score == CountTrue(Marks(mcqs, answers))
    ensures score <= |mcqs|
  {
    ScorePrefix(mcqs, answers, |mcqs|);
    assert Marks(mcqs, answers)[..|mcqs|] == Marks(mcqs, answers);
    assert CorrectBelow(mcqs, answers, |mcqs|) == CorrectKeys(mcqs, answers);
    |CorrectKeys(mcqs, answers)|
  }

  /** The per-question verdict shown under each question once submitted:
      true is "Correct!", false shows the correct option. */
  function Marks(mcqs: seq<Question>, answers: map<int, int>): (marks: seq<bool>)
    ensures |marks| == |mcqs|
    ensures forall i :: 0 <= i < |mcqs| ==> (marks[i] <==> i in answers && answers[i] == mcqs[i].correctAnswer)
  {
    seq(|mcqs|, i requires 0 <= i < |mcqs| => i in answers && answers[i] == mcqs[i].correctAnswer)
  }

  /** How many entries of `bs` are true. */
  function CountTrue(bs: seq<bool>): (n: nat)
    ensures n <= |bs|
  {
    if bs == [] then 0
    else CountTrue(bs[..|bs| - 1]) + (if bs[|bs| - 1] then 1 else 0)
  }

  /** All entries are true exactly when the count reaches the length. */
  lemma {:induction false} CountTrueAll(bs: seq<bool>)
    ensures CountTrue(bs) == |bs| <==> forall i :: 0 <= i < |bs| ==> bs[i]
  {
    if bs != [] {
      var init := bs[..|bs| - 1];
      CountTrueAll(init);
      assert forall i :: 0 <= i < |init| ==> init[i] == bs[i];
    }
  }

  /** The correctly answered indices below `k`. */
  function CorrectBelow(mcqs: seq<Question>, answers: map<int, int>, k: nat): set<int>
    requires AnswerKeysValid(mcqs, answers)
  {
    set i | i in answers && i < k && answers[i] == mcqs[i].correctAnswer
  }

  /** Counting the first `k` entries adds the `k`-th to the first `k - 1`. */
  lemma CountTrueStep(bs: seq<bool>, k: nat)
    requires 0 < k <= |bs|
    ensures CountTrue(bs[..k]) == CountTrue(bs[..k - 1]) + (if bs[k - 1] then 1 else 0)
  {
    assert bs[..k][..k - 1] == bs[..k - 1];
  }

  /** Raising the bound by one adds question `k - 1` when it is answered correctly. */
  lemma CorrectBelowStep(mcqs: seq<Question>, answers: map<int, int>, k: nat)
    requires AnswerKeysValid(mcqs, answers)
    requires 0 < k <= |mcqs|
    ensures |CorrectBelow(mcqs, answers, k)| == |CorrectBelow(mcqs, answers, k - 1)|
              + (if k - 1 in answers && answers[k - 1] == mcqs[k - 1].correctAnswer then 1 else 0)
  {
    var below := CorrectBelow(mcqs, answers, k - 1);
    if k - 1 in answers && answers[k - 1] == mcqs[k - 1].correctAnswer {
      assert CorrectBelow(mcqs, answers, k) == below + {k - 1};
    } else {
      assert CorrectBelow(mcqs, answers, k) == below;
    }
  }

  /** The correct answers among the first `k` questions number as many as
      the first `k` verdicts that are true. */
  lemma {:induction false} ScorePrefix(mcqs: seq<Question>, answers: map<int, int>, k: nat)
    requires AnswerKeysValid(mcqs, answers)
    requires k <= |mcqs|
    ensures CountTrue(Marks(mcqs, answers)[..k]) == |CorrectBelow(mcqs, answers, k)|
  {
    if k == 0 {
      assert CorrectBelow(mcqs, answers, 0) == {};
    } else {
      ScorePrefix(mcqs, answers, k - 1);
      CountTrueStep(Marks(mcqs, answers), k);
      CorrectBelowStep(mcqs, answers, k);
    }
  }

  /** Full marks exactly when every question is answered with its correct option. */
  lemma FullScore(mcqs: seq<Question>, answers: map<int, int>)
    requires AnswerKeysValid(mcqs, answers)
    ensures Score(mcqs, answers) == |mcqs| <==>
            forall i :: 0 <= i < |mcqs| ==> i in answers && answers[i] == mcqs[i].correctAnswer
  {
    CountTrueAll(Marks(mcqs, answers));
  }

  /** Two questions with correct options 2 and 0, answered 2 and 1: the first
      is marked correct, the second not, and the score is 1 of 2. */
  lemma GradingExample(q0: Question, q1: Question)
    requires q0.correctAnswer == 2 && q1.correctAnswer == 0
    ensures Marks([q0, q1], map[0 := 2, 1 := 1]) == [true, false]
    ensures Score([q0, q1], map[0 := 2, 1 := 1]) == 1
  {
    var mcqs, answers := [q0, q1], map[0 := 2, 1 := 1];
    assert Marks(mcqs, answers)[0] && !Marks(mcqs, answers)[1];
    assert CountTrue([true, false]) == 1 by {
      assert [true, false][..1] == [true];
      assert [true][..0] == [];
    }
  }
}
