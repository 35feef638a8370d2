/** The quiz presenter: the question counter, the current question and the
    checking of a yes/no answer against it. */
module Presentation {
  import opened Models
  import opened Decimal

  /** The two ways the presenter moves its question index. */
  datatype IndexOp = Reset | Switch

  /** The index after one move: a reset goes back to the first question, a
      switch goes one question forward and has no bound of its own. */
  function ApplyOp(index: nat, op: IndexOp): nat {
    match op
    case Reset => 0
    case Switch => index + 1
  }

  /** The index after a sequence of moves, applied left to right. */
  function Replay(index: nat, ops: seq<IndexOp>): nat
    decreases |ops|
  {
    if ops == [] then index else Replay(ApplyOp(index, ops[0]), ops[1..])
  }

  /** Every switch in `ops` happens while the index is not that of the last
      of `amount` questions, the way the game only advances when
      `isLastQuestion()` is false. */
  predicate SwitchesGuarded(index: nat, ops: seq<IndexOp>, amount: nat)
    decreases |ops|
  {
    ops == [] ||
    ((ops[0] == Switch ==> index != amount - 1) &&
     SwitchesGuarded(ApplyOp(index, ops[0]), ops[1..], amount))
  }

  /** Starting anywhere among the `amount` questions and switching only when
      not on the last one, the index never leaves `0..amount-1`. */
  lemma {:induction false} GuardedIndexStaysInRange(index: nat, ops: seq<IndexOp>, amount: nat)
    requires index < amount
    requires SwitchesGuarded(index, ops, amount)
    ensures Replay(index, ops) < amount
    decreases |ops|
  {
    if ops != [] {
      GuardedIndexStaysInRange(ApplyOp(index, ops[0]), ops[1..], amount);
    }
  }

  /** Whether the answer `given` is the right one for `question`: "yes" is
      right exactly when the question's answer is true, "no" exactly when it
      is false. */
  function IsCorrect(question: QuizQuestion, given: bool): (correct: bool)
    ensures given ==> (correct <==> question.correctAnswer)
    ensures !given ==> (correct <==> !question.correctAnswer)
  {
    question.correctAnswer == given
  }

  /** The counter label: the 1-based position, a slash and the question count. */
  function Counter(position: nat, amount: nat): (text: string)
    ensures |text| == |NatToString(position)| + 1 + |NatToString(amount)|
    ensures forall i :: 0 <= i < |text| ==> (text[i] == '/' <==> i == |NatToString(position)|)
  {
    NatToString(position) + "/" + NatToString(amount)
  }

  /** An inverse of `Counter`: the two numerals on either side of the first
      slash, each written without leading zeros. */
  function ParseCounter(text: string): Option<(nat, nat)> {
    if exists k :: 0 <= k < |text| && text[k] == '/' then
      var k := SlashIndex(text);
      var left, right := text[..k], text[k + 1..];
      if IsNumeral(left) && IsNumeral(right)
      then Some((ParseNat(left), ParseNat(right)))
      else None
    else None
  }

  function SlashIndex(text: string): (k: nat)
    requires exists k :: 0 <= k < |text| && text[k] == '/'
    ensures k < |text| && text[k] == '/'
    ensures forall i :: 0 <= i < k ==> text[i] != '/'
  {
    if text[0] == '/' then 0
    else
      assert exists k :: 0 <= k < |text[1..]| && text[1..][k] == '/' by {
        var j :| 0 <= j < |text| && text[j] == '/';
        assert text[1..][j - 1] == '/';
      }
      1 + SlashIndex(text[1..])
  }

  /** The counter label can be read back: it holds exactly the position and the amount. */
  lemma CounterRoundTrip(position: nat, amount: nat)
    ensures ParseCounter(Counter(position, amount)) == Some((position, amount))
  {
    var p, a := NatToString(position), NatToString(amount);
    var text := p + "/" + a;
    assert text[|p|] == '/';
    assert forall i :: 0 <= i < |p| ==> text[i] == p[i] && text[i] != '/';
    var k := SlashIndex(text);
    assert k == |p|;
    assert text[..k] == p;
    assert text[k + 1..] == a;
    ParseNatToString(position);
    ParseNatToString(amount);
  }

  /** Only the counter of a position and an amount reads back as them: no
      other text, zero-padded or otherwise, does. */
  lemma CounterUnique(text: string, position: nat, amount: nat)
    requires ParseCounter(text) == Some((position, amount))
    ensures text == Counter(position, amount)
  {
    var k := SlashIndex(text);
    var left, right := text[..k], text[k + 1..];
    NatToStringParseNat(left);
    NatToStringParseNat(right);
    assert text == left + "/" + right;
  }

  class MovieQuizPresenter {
    const questionsAmount: nat := 10
    var currentQuestion: Option<QuizQuestion>
    var currentQuestionIndex: nat

    /** A new presenter is on the first question and has no question yet. */
    constructor ()
      ensures questionsAmount == 10
      ensures currentQuestionIndex == 0 && currentQuestion == None
    {
      currentQuestion := None;
      currentQuestionIndex := 0;
    }

    /** The answer result the "yes" button reports to the view controller:
        none without a current question, otherwise whether "yes" is right. */
    method YesButtonClicked() returns (shown: Option<bool>)
      ensures currentQuestion == None ==> shown == None
      ensures currentQuestion != None ==> shown == Some(currentQuestion.value.correctAnswer)
    {
      if currentQuestion == None {
        return None;
      }
      var givenAnswer := true;
      var isCorrect := IsCorrect(currentQuestion.value, givenAnswer);
      shown := Some(isCorrect);
    }

    /** The answer result the "no" button reports to the view controller:
        none without a current question, otherwise whether "no" is right. */
    method NoButtonClicked() returns (shown: Option<bool>)
      ensures currentQuestion == None ==> shown == None
      ensures currentQuestion != None ==> shown == Some(!currentQuestion.value.correctAnswer)
    {
      if currentQuestion == None {
        return None;
      }
      var givenAnswer := false;
      var isCorrect := IsCorrect(currentQuestion.value, givenAnswer);
      shown := Some(isCorrect);
    }

    /** True exactly on the tenth (last) question. */
    function IsLastQuestion(): (last: bool)
      reads this
      ensures last <==> currentQuestionIndex == 9
    {
      currentQuestionIndex == questionsAmount - 1
    }

    method ResetQuestionIndex()
      modifies this`currentQuestionIndex
      ensures currentQuestionIndex == ApplyOp(old(currentQuestionIndex), Reset) == 0
      ensures currentQuestion == old(currentQuestion)
      ensures !IsLastQuestion()
    {
      currentQuestionIndex := 0;
    }

    method SwitchToNextQuestion()
      modifies this`currentQuestionIndex
      ensures currentQuestionIndex == ApplyOp(old(currentQuestionIndex), Switch)
      ensures currentQuestion == old(currentQuestion)
      ensures old(currentQuestionIndex < questionsAmount && !IsLastQuestion()) ==>
                currentQuestionIndex < questionsAmount
    {
      currentQuestionIndex := currentQuestionIndex + 1;
    }

    /** The text of the step shown for `model`: its prompt unchanged and the
        counter "<index+1>/10"; on the first question that is "1/10". */
    function Convert(model: QuizQuestion): (step: QuizStep)
      reads this
      ensures step.question == model.text
      ensures step.questionNumber == Counter(currentQuestionIndex + 1, questionsAmount)
      ensures ParseCounter(step.questionNumber) == Some(((currentQuestionIndex + 1) as nat, 10))
      ensures currentQuestionIndex == 0 ==> step.questionNumber == "1/10"
    {
      CounterRoundTrip(currentQuestionIndex + 1, questionsAmount);
      QuizStep(model.text, Counter(currentQuestionIndex + 1, questionsAmount))
    }
  }
}
