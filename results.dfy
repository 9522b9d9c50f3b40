/**
 * The results page (`QuizResults`): the rounded score percentage, its letter grade, which celebration is
 * shown and how strong it is, and the set of questions whose review is expanded.
 */
module Results {
  import opened QuizTypes
  import opened Progress

  /** `incorrectAnswers`. */
  function IncorrectAnswers(attempt: QuizAttempt): (n: int)
    ensures n + attempt.score == attempt.totalQuestions
    ensures 0 <= attempt.score <= attempt.totalQuestions ==> 0 <= n <= attempt.totalQuestions
  {
    attempt.totalQuestions - attempt.score
  }

  /** The six grades of `getGrade`, best first. */
  datatype Grade = APlus | A | B | C | D | F

  /** The position of a grade in the order F < D < C < B < A < A+. */
  function Rank(g: Grade): nat {
    match g
    case F => 0
    case D => 1
    case C => 2
    case B => 3
    case A => 4
    case APlus => 5
  }

  /** `getGrade`: the first threshold, from the top, that the percentage reaches. */
  function GradeOf(pct: int): Grade {
    if pct >= 90 then APlus
    else if pct >= 80 then A
    else if pct >= 70 then B
    else if pct >= 60 then C
    else if pct >= 50 then D
    else F
  }

  /** The lowest percentage that earns each grade, an independent table of the thresholds. */
  function Threshold(g: Grade): int {
    match g
    case APlus => 90
    case A => 80
    case B => 70
    case C => 60
    case D => 50
    case F => 0
  }

  /** A grade is earned exactly from its threshold up to the threshold of the next better grade. */
  lemma GradeBands(pct: int, g: Grade)
    requires pct >= 0
    ensures GradeOf(pct) == g <==>
      Threshold(g) <= pct && forall h: Grade :: Rank(h) > Rank(g) ==> pct < Threshold(h)
  {
    if GradeOf(pct) != g && Threshold(g) <= pct {
      var h := GradeOf(pct);
      assert Rank(h) > Rank(g);
    }
  }

  /** A higher percentage never gets a lower grade. */
  lemma GradeMonotone(p: int, q: int)
    requires p <= q
    ensures Rank(GradeOf(p)) <= Rank(GradeOf(q))
  {
  }

  /** `showStarConfetti`. */
  predicate ShowStarConfetti(pct: int) {
    pct >= 90
  }

  /** `showConfetti`. */
  predicate ShowConfetti(pct: int) {
    pct >= 80 && pct < 90
  }

  /** The two celebrations never show together, and one shows exactly for an A or an A+. */
  lemma OneCelebration(pct: int)
    ensures !(ShowConfetti(pct) && ShowStarConfetti(pct))
    ensures ShowConfetti(pct) || ShowStarConfetti(pct) <==> GradeOf(pct) == A || GradeOf(pct) == APlus
    ensures ShowConfetti(pct) <==> GradeOf(pct) == A
  {
  }

  datatype Intensity = High | Medium | Low

  /** `confettiIntensity`. */
  function ConfettiIntensity(pct: int): Intensity {
    if pct >= 95 then High else if pct >= 85 then Medium else Low
  }

  /** The plain confetti, the only one that uses the intensity, is never shown at high intensity. */
  lemma ConfettiNeverHigh(pct: int)
    ensures ShowConfetti(pct) ==> ConfettiIntensity(pct) != High
    ensures ShowConfetti(pct) ==> (ConfettiIntensity(pct) == Medium <==> pct >= 85)
  {
  }

  /** The grade of a finished attempt, through the rounded percentage. */
  function AttemptGrade(attempt: QuizAttempt): Grade
    requires attempt.totalQuestions > 0
  {
    GradeOf(ScorePercent(attempt.score, attempt.totalQuestions))
  }

  /** All answers right earns an A+, none right an F. */
  lemma AttemptGradeExtremes(attempt: QuizAttempt)
    requires attempt.totalQuestions > 0
    ensures attempt.score == attempt.totalQuestions ==> AttemptGrade(attempt) == APlus
    ensures attempt.score == 0 ==> AttemptGrade(attempt) == F
  {
    if attempt.score == attempt.totalQuestions || attempt.score == 0 {
      ScorePercentBounds(attempt.score, attempt.totalQuestions);
    }
  }

  /** The set after `toggleQuestion(id)`: `id` removed if present, added otherwise. */
  function Toggle(expanded: set<int>, id: int): (r: set<int>)
    ensures id in r <==> id !in expanded
    ensures forall x :: x != id ==> (x in r <==> x in expanded)
  {
    if id in expanded then expanded - {id} else expanded + {id}
  }

  /** Toggling the same question twice restores the set. */
  lemma ToggleTwice(expanded: set<int>, id: int)
    ensures Toggle(Toggle(expanded, id), id) == expanded
  {
  }

  /** Toggles of different questions can be done in either order. */
  lemma ToggleCommutes(expanded: set<int>, a: int, b: int)
    ensures Toggle(Toggle(expanded, a), b) == Toggle(Toggle(expanded, b), a)
  {
  }

  /** The page's own state: which questions' reviews are open. */
  class ResultsPage {
    var expandedQuestions: set<int>

    constructor ()
      ensures expandedQuestions == {}
    {
      expandedQuestions := {};
    }

    /** `toggleQuestion`. */
    method ToggleQuestion(id: int)
      modifies this
      ensures expandedQuestions == Toggle(old(expandedQuestions), id)
    {
      if id in expandedQuestions {
        expandedQuestions := expandedQuestions - {id};
      } else {
        expandedQuestions := expandedQuestions + {id};
      }
    }
  }
}
