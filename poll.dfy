/** The two quizzes of `src/components/SimplePoll.tsx`: opening a quiz,
    choosing an answer, and scoring it when the answer's delay ends. Each
    quiz has three questions in both languages; the result is the key of
    the result text. */
module Poll {
  import opened Common

  datatype Quiz = Business | Developer

  /** `questions.length` of either quiz. */
  const QUESTIONS: nat := 3

  /** The business quiz: C scores 3, B scores 2, anything else 1. */
  function BusinessPoints(value: string): (r: nat)
    ensures 1 <= r <= 3
    ensures r == 3 <==> value == "C"
    ensures r == 2 <==> value == "B"
  {
    if value == "C" then 3 else if value == "B" then 2 else 1
  }

  /** `getCorrectAnswer(q)`: the developer quiz's answer key; the business
      quiz has none. */
  function CorrectAnswer(quiz: Option<Quiz>, q: int): (r: Option<string>)
    ensures quiz != Some(Developer) ==> r.None?
    ensures r.Some? <==> quiz == Some(Developer) && 0 <= q < QUESTIONS
  {
    if quiz == Some(Developer) then
      if q == 0 then Some("B") else if q == 1 then Some("B") else if q == 2 then Some("C") else None
    else None
  }

  /** The developer quiz: one point for B on question 0, B on question 1
      or C on question 2, none otherwise. */
  function DeveloperPoints(q: int, value: string): (r: nat)
    ensures r <= 1
  {
    if (q == 0 && value == "B") || (q == 1 && value == "B") || (q == 2 && value == "C") then 1 else 0
  }

  /** A developer answer scores exactly when it is the one the answer key
      shows as correct. */
  lemma DeveloperPointsMatchKey(q: int, value: string)
    ensures DeveloperPoints(q, value) == 1 <==> CorrectAnswer(Some(Developer), q) == Some(value)
  {
  }

  /** The result key once the last answer is scored. */
  function ResultKey(quiz: Quiz, score: nat): (r: string)
    ensures quiz == Business ==> (r == "enterprise" <==> score > 7) && (r == "startup" <==> score <= 7)
    ensures quiz == Developer ==> (r == "success" <==> score >= 2) && (r == "fail" <==> score < 2)
  {
    match quiz
    case Business => if score > 7 then "enterprise" else "startup"
    case Developer => if score >= 2 then "success" else "fail"
  }

  class SimplePoll {
    var isModalOpen: bool
    var activeQuiz: Option<Quiz>
    var currentQuestion: nat
    var score: nat
    var isCompleted: bool
    var result: string
    var selectedAnswer: Option<string>
    /** The 800 ms timer of a chosen answer is still running. */
    var timerRunning: bool

    /** The score of a quiz can only be what the answers so far allow:
        between 1 and 3 per answered business question and at most 1 per
        answered developer question; a completed quiz has answered all
        three and shows the result its score earns. */
    predicate Valid()
      reads this
    {
      currentQuestion < QUESTIONS &&
      (timerRunning ==> Truthy(selectedAnswer) && !isCompleted) &&
      (isCompleted ==> Truthy(selectedAnswer)) &&
      (activeQuiz == Some(Business) ==>
        if isCompleted then currentQuestion == QUESTIONS - 1 && 3 <= score <= 9 && result == ResultKey(Business, score)
        else currentQuestion <= score <= 3 * currentQuestion) &&
      (activeQuiz == Some(Developer) ==>
        if isCompleted then currentQuestion == QUESTIONS - 1 && score <= 3 && result == ResultKey(Developer, score)
        else score <= currentQuestion)
    }

    constructor ()
      ensures Valid()
      ensures !isModalOpen && activeQuiz.None? && currentQuestion == 0 && score == 0
      ensures !isCompleted && result == "" && selectedAnswer.None? && !timerRunning
    {
      isModalOpen := false;
      activeQuiz := None;
      currentQuestion := 0;
      score := 0;
      isCompleted := false;
      result := "";
      selectedAnswer := None;
      timerRunning := false;
    }

    /** `openQuiz`: a fresh start of `quiz`. A timer still running from an
        earlier answer is not modelled (see `Settle`). */
    method OpenQuiz(quiz: Quiz)
      requires !timerRunning
      modifies this
      ensures Valid()
      ensures activeQuiz == Some(quiz) && currentQuestion == 0 && score == 0 && !isCompleted
      ensures result == "" && selectedAnswer.None? && isModalOpen && !timerRunning
    {
      activeQuiz := Some(quiz);
      currentQuestion := 0;
      score := 0;
      isCompleted := false;
      result := "";
      selectedAnswer := None;
      isModalOpen := true;
    }

    /** `closeModal` */
    method CloseModal()
      requires Valid()
      modifies this
      ensures Valid()
      ensures !isModalOpen && activeQuiz.None?
      ensures currentQuestion == old(currentQuestion) && score == old(score) && isCompleted == old(isCompleted)
      ensures result == old(result) && selectedAnswer == old(selectedAnswer) && timerRunning == old(timerRunning)
    {
      isModalOpen := false;
      activeQuiz := None;
    }

    /** The click half of `handleAnswer`: an answer is taken only when none
        is pending; it then waits for its timer. A completed quiz keeps its
        last answer selected, so it takes no more. Option values are the
        non-empty letters A to C. */
    method Choose(value: string) returns (taken: bool)
      requires Valid() && value != ""
      modifies this
      ensures Valid()
      ensures taken <==> !Truthy(old(selectedAnswer))
      ensures taken ==> selectedAnswer == Some(value) && timerRunning
      ensures !taken ==> selectedAnswer == old(selectedAnswer) && timerRunning == old(timerRunning)
      ensures activeQuiz == old(activeQuiz) && currentQuestion == old(currentQuestion) && score == old(score)
      ensures isCompleted == old(isCompleted) && result == old(result) && isModalOpen == old(isModalOpen)
    {
      if Truthy(selectedAnswer) {
        return false;
      }
      selectedAnswer := Some(value);
      timerRunning := true;
      taken := true;
    }

    /** The timer half of `handleAnswer`: the chosen answer is scored; the
        quiz moves to the next question and clears the choice, or, on the
        last question, completes with the result its score earns. */
    method Settle()
      requires Valid() && timerRunning
      modifies this
      ensures Valid() && !timerRunning
      ensures activeQuiz == old(activeQuiz) && isModalOpen == old(isModalOpen)
      ensures activeQuiz.None? ==>
        score == old(score) && currentQuestion == old(currentQuestion) && !isCompleted &&
        selectedAnswer == old(selectedAnswer) && result == old(result)
      ensures activeQuiz.Some? ==>
        score == old(score) + Points(activeQuiz.value, old(currentQuestion), old(selectedAnswer).value)
      ensures activeQuiz.Some? && old(currentQuestion) + 1 < QUESTIONS ==>
        currentQuestion == old(currentQuestion) + 1 && selectedAnswer.None? && !isCompleted && result == old(result)
      ensures activeQuiz.Some? && old(currentQuestion) + 1 >= QUESTIONS ==>
        currentQuestion == old(currentQuestion) && isCompleted && result == ResultKey(activeQuiz.value, score) &&
        selectedAnswer == old(selectedAnswer)
    {
      timerRunning := false;
      if activeQuiz.None? {
        return;
      }
      var value := selectedAnswer.value;
      score := score + Points(activeQuiz.value, currentQuestion, value);
      if currentQuestion + 1 < QUESTIONS {
        currentQuestion := currentQuestion + 1;
        selectedAnswer := None;
      } else {
        isCompleted := true;
        result := ResultKey(activeQuiz.value, score);
      }
    }
  }

  /** The points an answer to question `q` of `quiz` earns. */
  function Points(quiz: Quiz, q: int, value: string): (r: nat)
    ensures quiz == Business ==> 1 <= r <= 3
    ensures quiz == Developer ==> r <= 1
  {
    match quiz
    case Business => BusinessPoints(value)
    case Developer => DeveloperPoints(q, value)
  }

  /** Three answers to the business quiz complete it with a score from 3
      to 9, and the result is 'enterprise' exactly above 7. */
  method PlayBusiness(a: string, b: string, c: string) returns (score: nat, result: string)
    requires a != "" && b != "" && c != ""
    ensures 3 <= score <= 9
    ensures score == BusinessPoints(a) + BusinessPoints(b) + BusinessPoints(c)
    ensures result == "enterprise" <==> score > 7
  {
    var poll := new SimplePoll();
    poll.OpenQuiz(Business);
    var taken := poll.Choose(a);
    poll.Settle();
    taken := poll.Choose(b);
    poll.Settle();
    taken := poll.Choose(c);
    poll.Settle();
    score, result := poll.score, poll.result;
  }

  /** Three answers to the developer quiz give a score from 0 to 3, one
      per answer matching the key, and 'success' from 2 up. */
  method PlayDeveloper(a: string, b: string, c: string) returns (score: nat, result: string)
    requires a != "" && b != "" && c != ""
    ensures score <= 3
    ensures score == DeveloperPoints(0, a) + DeveloperPoints(1, b) + DeveloperPoints(2, c)
    ensures result == "success" <==> score >= 2
  {
    var poll := new SimplePoll();
    poll.OpenQuiz(Developer);
    var taken := poll.Choose(a);
    poll.Settle();
    taken := poll.Choose(b);
    poll.Settle();
    taken := poll.Choose(c);
    poll.Settle();
    score, result := poll.score, poll.result;
  }
}
