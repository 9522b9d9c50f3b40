/**
 * The stored quiz progress (`useQuizProgress`): saving an attempt updates the best score of its category,
 * the daily streak, the most-recent-first list of at most 50 attempts, the count of completed quizzes and
 * the date of the last quiz. Calendar days are integer day numbers passed in by the caller.
 */
module Progress {
  import opened Wrappers
  import opened QuizTypes

  /** How many attempts the record keeps. */
  const MaxAttempts: nat := 50

  /** `initialProgress`. */
  function InitialProgress(): (p: QuizProgress)
    ensures p.attempts == [] && p.bestScores == map[]
    ensures p.totalQuizzesCompleted == 0 && p.currentStreak == 0 && p.lastQuizDate.None?
  {
    QuizProgress([], map[], 0, 0, None)
  }

  /**
   * `Math.round(score / totalQuestions * 100)`: the integer nearest to the percentage, halves rounded up.
   */
  function ScorePercent(score: int, total: int): (pct: int)
    requires total > 0
    ensures 2 * total * pct - total <= 200 * score < 2 * total * pct + total
  {
    (200 * score + total) / (2 * total)
  }

  lemma MulLeft(a: int, b: int, c: int)
    requires a > 0 && b <= c
    ensures a * b <= a * c
  {
  }

  /** A score between 0 and the question count gives a percentage between 0 and 100; all right gives 100. */
  lemma ScorePercentBounds(score: int, total: int)
    requires total > 0 && 0 <= score <= total
    ensures 0 <= ScorePercent(score, total) <= 100
    ensures score == total ==> ScorePercent(score, total) == 100
    ensures score == 0 ==> ScorePercent(score, total) == 0
  {
    var pct := ScorePercent(score, total);
    if pct > 100 {
      MulLeft(2 * total, 101, pct);
    }
    if pct < 0 {
      MulLeft(2 * total, pct, -1);
    }
    if score == total && pct < 100 {
      MulLeft(2 * total, pct, 99);
    }
    if score == 0 && pct > 0 {
      MulLeft(2 * total, 1, pct);
    }
  }

  /** A higher score never gives a lower percentage. */
  lemma ScorePercentMonotone(a: int, b: int, total: int)
    requires total > 0 && a <= b
    ensures ScorePercent(a, total) <= ScorePercent(b, total)
  {
    var pa, pb := ScorePercent(a, total), ScorePercent(b, total);
    if pa > pb {
      MulLeft(2 * total, pb + 1, pa);
    }
  }

  /** `bestScores[id] || 0`: the stored best score, or 0 for a category never attempted. */
  function BestOf(scores: map<string, int>, id: string): (best: int)
    ensures id in scores ==> best == scores[id]
    ensures id !in scores ==> best == 0
  {
    if id in scores then scores[id] else 0
  }

  /** The streak after a quiz on day `today`, given the previous streak and the day of the previous quiz. */
  function NextStreak(streak: int, lastDay: Option<int>, today: int): (s: int)
    ensures lastDay.None? ==> s == 1
    ensures lastDay == Some(today) ==> s == streak
    ensures lastDay == Some(today - 1) ==> s == streak + 1
    ensures lastDay.Some? && lastDay.value != today && lastDay.value != today - 1 ==> s == 1
  {
    match lastDay
    case None => 1
    case Some(d) => if d == today then streak else if d == today - 1 then streak + 1 else 1
  }

  /** `[attempt, ...attempts].slice(0, 50)`. */
  function Prepend(attempt: QuizAttempt, attempts: seq<QuizAttempt>): (r: seq<QuizAttempt>)
    ensures |r| == if |attempts| < MaxAttempts then |attempts| + 1 else MaxAttempts
    ensures r[0] == attempt
    ensures forall k :: 0 < k < |r| ==> r[k] == attempts[k - 1]
  {
    var all := [attempt] + attempts;
    if |all| <= MaxAttempts then all else all[..MaxAttempts]
  }

  /** The stored attempts that stay when one more is put in front: all below the cap, all but the oldest at it. */
  function Survivors(attempts: seq<QuizAttempt>): (r: seq<QuizAttempt>)
    ensures |r| == if |attempts| < MaxAttempts then |attempts| else MaxAttempts - 1
    ensures r == attempts[..|r|]
  {
    if |attempts| < MaxAttempts then attempts else attempts[..MaxAttempts - 1]
  }

  /** The capped list is the new attempt followed by the survivors. */
  lemma PrependSurvivors(attempt: QuizAttempt, attempts: seq<QuizAttempt>)
    ensures Prepend(attempt, attempts) == [attempt] + Survivors(attempts)
  {
    var r, s := Prepend(attempt, attempts), [attempt] + Survivors(attempts);
    assert |r| == |s|;
    forall k | 0 <= k < |r| ensures r[k] == s[k] {
      if k > 0 {
        assert s[k] == Survivors(attempts)[k - 1];
      }
    }
  }

  /** The `saveAttempt` updater, on a quiz finished on day `today`. */
  function SaveAttempt(prev: QuizProgress, attempt: QuizAttempt, today: int): (next: QuizProgress)
    requires attempt.totalQuestions > 0
  {
    var pct := ScorePercent(attempt.score, attempt.totalQuestions);
    var currentBest := BestOf(prev.bestScores, attempt.categoryId);
    var best := if currentBest >= pct then currentBest else pct;
    QuizProgress(
      Prepend(attempt, prev.attempts),
      prev.bestScores[attempt.categoryId := best],
      prev.totalQuizzesCompleted + 1,
      NextStreak(prev.currentStreak, prev.lastQuizDate, today),
      Some(today))
  }

  /** `getBestScore`. */
  function GetBestScore(p: QuizProgress, id: string): int {
    BestOf(p.bestScores, id)
  }

  /** `getAttemptsForCategory`: the stored attempts of one category, in stored order. */
  function GetAttemptsForCategory(p: QuizProgress, id: string): seq<QuizAttempt> {
    AttemptsOf(p.attempts, id)
  }

  /** `attempts.filter(a => a.categoryId === id)`. */
  function AttemptsOf(attempts: seq<QuizAttempt>, id: string): (r: seq<QuizAttempt>)
    ensures |r| <= |attempts|
    ensures forall a :: a in r <==> a in attempts && a.categoryId == id
    decreases |attempts|
  {
    if |attempts| == 0 then []
    else (if attempts[0].categoryId == id then [attempts[0]] else []) + AttemptsOf(attempts[1..], id)
  }

  /** Filtering a concatenation filters each part: the kept attempts stay in their stored order. */
  lemma {:induction false} AttemptsOfAppend(a: seq<QuizAttempt>, b: seq<QuizAttempt>, id: string)
    ensures AttemptsOf(a + b, id) == AttemptsOf(a, id) + AttemptsOf(b, id)
    decreases |a|
  {
    if |a| == 0 {
      assert a + b == b;
    } else {
      assert (a + b)[0] == a[0] && (a + b)[1..] == a[1..] + b;
      AttemptsOfAppend(a[1..], b, id);
    }
  }

  /** `resetProgress`. */
  function ResetProgress(p: QuizProgress): (r: QuizProgress)
    ensures r == InitialProgress()
  {
    InitialProgress()
  }

  /** The record after a reset has no attempts and no best scores in any category. */
  lemma ResetForgets(p: QuizProgress, id: string)
    ensures GetBestScore(ResetProgress(p), id) == 0
    ensures GetAttemptsForCategory(ResetProgress(p), id) == []
  {
  }

  // ----- what saving an attempt promises -----

  /** The category's best score becomes the larger of the old one (0 if none) and the new percentage. */
  lemma SaveBestScore(prev: QuizProgress, attempt: QuizAttempt, today: int)
    requires attempt.totalQuestions > 0
    ensures var pct := ScorePercent(attempt.score, attempt.totalQuestions);
      var was := GetBestScore(prev, attempt.categoryId);
      var now := GetBestScore(SaveAttempt(prev, attempt, today), attempt.categoryId);
      now >= was && now >= pct && (now == was || now == pct)
  {
  }

  /** No best score ever decreases, and those of the other categories do not change. */
  lemma SaveKeepsOtherScores(prev: QuizProgress, attempt: QuizAttempt, today: int, id: string)
    requires attempt.totalQuestions > 0
    ensures GetBestScore(SaveAttempt(prev, attempt, today), id) >= GetBestScore(prev, id)
    ensures id != attempt.categoryId ==>
      GetBestScore(SaveAttempt(prev, attempt, today), id) == GetBestScore(prev, id)
    ensures id in SaveAttempt(prev, attempt, today).bestScores <==> id in prev.bestScores || id == attempt.categoryId
  {
  }

  /** The attempt list: the new attempt first, then the previous ones, at most 50 in all. */
  lemma SaveAttemptList(prev: QuizProgress, attempt: QuizAttempt, today: int)
    requires attempt.totalQuestions > 0
    ensures var next := SaveAttempt(prev, attempt, today).attempts;
      |next| == (if |prev.attempts| < MaxAttempts then |prev.attempts| + 1 else MaxAttempts) &&
      next[0] == attempt && forall k :: 0 < k < |next| ==> next[k] == prev.attempts[k - 1]
  {
  }

  /**
   * At any length, the attempts of a category after a save are the new attempt, if it is of that
   * category, followed by that category's attempts among the survivors of the cap.
   */
  lemma SaveAttemptsForCategoryCapped(prev: QuizProgress, attempt: QuizAttempt, today: int, id: string)
    requires attempt.totalQuestions > 0
    ensures GetAttemptsForCategory(SaveAttempt(prev, attempt, today), id) ==
      (if attempt.categoryId == id then [attempt] else []) + AttemptsOf(Survivors(prev.attempts), id)
  {
    PrependSurvivors(attempt, prev.attempts);
    AttemptsOfAppend([attempt], Survivors(prev.attempts), id);
    assert [attempt][1..] == [];
  }

  /** Below the cap, the attempts of a category gain exactly the new attempt, at the front. */
  lemma SaveAttemptsForCategory(prev: QuizProgress, attempt: QuizAttempt, today: int, id: string)
    requires attempt.totalQuestions > 0 && |prev.attempts| < MaxAttempts
    ensures GetAttemptsForCategory(SaveAttempt(prev, attempt, today), id) ==
      (if attempt.categoryId == id then [attempt] else []) + GetAttemptsForCategory(prev, id)
  {
    AttemptsOfAppend([attempt], prev.attempts, id);
    assert [attempt][1..] == [];
  }

  /** The counter, the streak and the date. */
  lemma SaveCounters(prev: QuizProgress, attempt: QuizAttempt, today: int)
    requires attempt.totalQuestions > 0
    ensures var next := SaveAttempt(prev, attempt, today);
      next.totalQuizzesCompleted == prev.totalQuizzesCompleted + 1 &&
      next.lastQuizDate == Some(today) &&
      next.currentStreak == NextStreak(prev.currentStreak, prev.lastQuizDate, today)
  {
  }

  /** A record that keeps at most 50 attempts and a positive streak once a quiz is done keeps both. */
  ghost predicate Wellformed(p: QuizProgress) {
    |p.attempts| <= MaxAttempts && p.totalQuizzesCompleted >= 0 && p.currentStreak >= 0 &&
    (p.lastQuizDate.Some? ==> p.currentStreak >= 1)
  }

  lemma SavePreservesWellformed(prev: QuizProgress, attempt: QuizAttempt, today: int)
    requires Wellformed(prev) && attempt.totalQuestions > 0
    ensures Wellformed(SaveAttempt(prev, attempt, today))
    ensures SaveAttempt(prev, attempt, today).currentStreak >= 1
  {
  }

  /** Quizzes on `n` consecutive days, starting with a fresh record, give a streak of `n`. */
  function SaveOnDays(p: QuizProgress, attempt: QuizAttempt, first: int, n: nat): QuizProgress
    requires attempt.totalQuestions > 0
    decreases n
  {
    if n == 0 then p else SaveAttempt(SaveOnDays(p, attempt, first, n - 1), attempt, first + n - 1)
  }

  lemma {:induction false} ConsecutiveDaysStreak(attempt: QuizAttempt, first: int, n: nat)
    requires attempt.totalQuestions > 0 && n > 0
    ensures SaveOnDays(InitialProgress(), attempt, first, n).currentStreak == n
    ensures SaveOnDays(InitialProgress(), attempt, first, n).lastQuizDate == Some(first + n - 1)
    ensures SaveOnDays(InitialProgress(), attempt, first, n).totalQuizzesCompleted == n
  {
    if n > 1 {
      ConsecutiveDaysStreak(attempt, first, n - 1);
    }
  }

  /** A second quiz on the same day keeps the streak. */
  lemma SameDayKeepsStreak(prev: QuizProgress, a: QuizAttempt, b: QuizAttempt, today: int)
    requires a.totalQuestions > 0 && b.totalQuestions > 0
    ensures SaveAttempt(SaveAttempt(prev, a, today), b, today).currentStreak ==
      SaveAttempt(prev, a, today).currentStreak
  {
  }

  /** A gap of more than one day starts the streak again at 1. */
  lemma GapResetsStreak(prev: QuizProgress, attempt: QuizAttempt, today: int)
    requires attempt.totalQuestions > 0 && prev.lastQuizDate.Some?
    requires prev.lastQuizDate.value < today - 1 || prev.lastQuizDate.value > today
    ensures SaveAttempt(prev, attempt, today).currentStreak == 1
  {
  }
}
