/**
 * The quiz player page (`QuizPlayer`): one question at a time, an answer recorded either by the user's
 * choice or by the timer running out, and the total time kept as the sum of the recorded answer times.
 * Clock readings (`Date.now()`) are passed in as milliseconds.
 */
module Player {
  import opened Wrappers
  import opened QuizTypes
  import opened Timer

  /** The time of the recorded answers, added up. */
  function SumTime(answers: seq<UserAnswer>): int
    decreases |answers|
  {
    if |answers| == 0 then 0 else SumTime(answers[..|answers| - 1]) + answers[|answers| - 1].timeTaken
  }

  /** Recording one more answer adds its time. */
  lemma SumTimeSnoc(answers: seq<UserAnswer>, a: UserAnswer)
    ensures SumTime(answers + [a]) == SumTime(answers) + a.timeTaken
  {
    assert (answers + [a])[..|answers|] == answers;
  }

  /** `Math.round((now - start) / 1000)`: the whole seconds nearest to the elapsed milliseconds, halves up. */
  function ElapsedSeconds(start: int, now: int): (s: int)
    ensures 1000 * s - 500 <= now - start < 1000 * s + 500
  {
    (now - start + 500) / 1000
  }

  /** What the player hands over when the last question is done: the answers and the total time. */
  datatype Completion = Completion(answers: seq<UserAnswer>, totalTime: int)

  class QuizPlayer {
    const category: QuizCategory
    const timer: CountdownTimer
    var isPaused: bool
    var currentQuestionIndex: int
    var selectedAnswer: Option<string>
    var isAnswered: bool
    var userAnswers: seq<UserAnswer>
    var questionStartTime: int
    var totalTimeTaken: int

    /**
     * The current question exists, the total time is the sum of the recorded times, no more answers are
     * recorded than questions reached, and the timer counts the category's time per question.
     */
    ghost predicate Valid()
      reads this, timer
    {
      0 <= currentQuestionIndex < |category.questions| &&
      totalTimeTaken == SumTime(userAnswers) &&
      |userAnswers| <= currentQuestionIndex + (if isAnswered then 1 else 0) &&
      timer.initialTime == category.timePerQuestion
    }

    constructor (category: QuizCategory, now: int)
      requires |category.questions| > 0
      ensures Valid() && fresh(timer)
      ensures this.category == category && currentQuestionIndex == 0 && !isPaused && !isAnswered
      ensures selectedAnswer.None? && userAnswers == [] && totalTimeTaken == 0 && questionStartTime == now
      ensures timer.timeRemaining == category.timePerQuestion
    {
      this.category := category;
      timer := new CountdownTimer(category.timePerQuestion);
      isPaused := false;
      currentQuestionIndex := 0;
      selectedAnswer := None;
      isAnswered := false;
      userAnswers := [];
      questionStartTime := now;
      totalTimeTaken := 0;
    }

    function CurrentQuestion(): QuizQuestion
      reads this
      requires 0 <= currentQuestionIndex < |category.questions|
    {
      category.questions[currentQuestionIndex]
    }

    predicate IsLastQuestion()
      reads this
    {
      currentQuestionIndex == |category.questions| - 1
    }

    /** The countdown runs only while the question is open and the quiz is not paused. */
    predicate TimerActive()
      reads this
    {
      !isAnswered && !isPaused
    }

    /** `handleTimeUp`: an open question is closed with no answer, charged the full time per question. */
    method HandleTimeUp()
      requires Valid()
      modifies this
      ensures Valid()
      ensures old(isAnswered) ==> userAnswers == old(userAnswers) && totalTimeTaken == old(totalTimeTaken)
      ensures !old(isAnswered) ==>
        userAnswers == old(userAnswers) + [UserAnswer(CurrentQuestion().id, None, false, category.timePerQuestion)] &&
        totalTimeTaken == old(totalTimeTaken) + category.timePerQuestion
      ensures isAnswered
      ensures currentQuestionIndex == old(currentQuestionIndex) && selectedAnswer == old(selectedAnswer)
      ensures isPaused == old(isPaused) && questionStartTime == old(questionStartTime)
    {
      if !isAnswered {
        var timeTaken := category.timePerQuestion;
        var answer := UserAnswer(CurrentQuestion().id, None, false, timeTaken);
        SumTimeSnoc(userAnswers, answer);
        userAnswers := userAnswers + [answer];
        totalTimeTaken := totalTimeTaken + timeTaken;
        isAnswered := true;
      }
    }

    /** `handlePause`: pausing is possible only while the question is open. */
    method HandlePause()
      requires Valid()
      modifies this`isPaused
      ensures Valid()
      ensures isPaused == (old(isPaused) || !isAnswered)
    {
      if !isAnswered {
        isPaused := true;
      }
    }

    /** `handleResume`. */
    method HandleResume()
      requires Valid()
      modifies this`isPaused
      ensures Valid() && !isPaused
    {
      isPaused := false;
    }

    /**
     * `handleSelectAnswer(optionId)` at clock time `now`: once per question, record the choice, whether it
     * is the correct answer, and the whole seconds since the question was shown.
     */
    method HandleSelectAnswer(optionId: string, now: int)
      requires Valid()
      modifies this
      ensures Valid()
      ensures old(isAnswered) ==>
        userAnswers == old(userAnswers) && totalTimeTaken == old(totalTimeTaken) && selectedAnswer == old(selectedAnswer)
      ensures !old(isAnswered) ==>
        var timeTaken := ElapsedSeconds(questionStartTime, now);
        var answer := UserAnswer(CurrentQuestion().id, Some(optionId), optionId == CurrentQuestion().correctAnswer, timeTaken);
        userAnswers == old(userAnswers) + [answer] && totalTimeTaken == old(totalTimeTaken) + timeTaken &&
        selectedAnswer == Some(optionId)
      ensures isAnswered
      ensures currentQuestionIndex == old(currentQuestionIndex) && isPaused == old(isPaused)
      ensures questionStartTime == old(questionStartTime)
    {
      if isAnswered {
        return;
      }
      var timeTaken := ElapsedSeconds(questionStartTime, now);
      var isCorrect := optionId == CurrentQuestion().correctAnswer;
      var answer := UserAnswer(CurrentQuestion().id, Some(optionId), isCorrect, timeTaken);
      selectedAnswer := Some(optionId);
      SumTimeSnoc(userAnswers, answer);
      userAnswers := userAnswers + [answer];
      totalTimeTaken := totalTimeTaken + timeTaken;
      isAnswered := true;
    }

    /**
     * `handleNext` at clock time `now`: on the last question, hand over the answers and the total time;
     * otherwise open the next question with the timer reset to the time per question.
     */
    method HandleNext(now: int) returns (completed: Option<Completion>)
      requires Valid()
      modifies this, timer
      ensures Valid()
      ensures old(IsLastQuestion()) ==>
        completed == Some(Completion(userAnswers, totalTimeTaken)) &&
        currentQuestionIndex == old(currentQuestionIndex) && isAnswered == old(isAnswered) &&
        selectedAnswer == old(selectedAnswer) && questionStartTime == old(questionStartTime) &&
        timer.timeRemaining == old(timer.timeRemaining)
      ensures !old(IsLastQuestion()) ==>
        completed.None? && currentQuestionIndex == old(currentQuestionIndex) + 1 &&
        selectedAnswer.None? && !isAnswered && questionStartTime == now &&
        timer.timeRemaining == category.timePerQuestion
      ensures userAnswers == old(userAnswers) && totalTimeTaken == old(totalTimeTaken) && isPaused == old(isPaused)
      ensures completed.Some? ==> completed.value.totalTime == SumTime(completed.value.answers)
    {
      if IsLastQuestion() {
        completed := Some(Completion(userAnswers, totalTimeTaken));
      } else {
        completed := None;
        currentQuestionIndex := currentQuestionIndex + 1;
        selectedAnswer := None;
        isAnswered := false;
        questionStartTime := now;
        timer.ResetTimer(Some(category.timePerQuestion));
      }
    }

    /** One second of the countdown, with `handleTimeUp` as the time-up callback. */
    method TickSecond()
      requires Valid()
      modifies this, timer
      ensures Valid()
      ensures !Ticking(old(TimerActive()), old(timer.timeRemaining)) ==> timer.timeRemaining == old(timer.timeRemaining)
      ensures !(old(TimerActive()) && old(timer.timeRemaining) == 1) ==>
        isAnswered == old(isAnswered) && userAnswers == old(userAnswers) && totalTimeTaken == old(totalTimeTaken)
      ensures old(TimerActive()) && old(timer.timeRemaining) == 1 ==>
        timer.timeRemaining == 0 && isAnswered &&
        userAnswers == old(userAnswers) + [UserAnswer(old(CurrentQuestion()).id, None, false, category.timePerQuestion)]
      ensures old(TimerActive()) && old(timer.timeRemaining) > 1 ==>
        timer.timeRemaining == old(timer.timeRemaining) - 1 && userAnswers == old(userAnswers)
      ensures currentQuestionIndex == old(currentQuestionIndex) && isPaused == old(isPaused)
      ensures selectedAnswer == old(selectedAnswer) && questionStartTime == old(questionStartTime)
    {
      var timeUp := timer.Tick(TimerActive());
      if timeUp {
        HandleTimeUp();
      }
    }
  }
}
