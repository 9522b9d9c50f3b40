/**
 * The home page (`QuizHome`): which view is shown, the category list with its search and filter, the
 * totals, the hand-over from a finished quiz to the progress record, and the custom quizzes saved and
 * deleted by the user. The stored values are plain fields; today's day number and date are parameters.
 */
module Home {
  import opened Wrappers
  import opened JsText
  import opened QuizTypes
  import opened Progress

  datatype View = Landing | HomeView | Playing | ResultsView | Creator

  datatype FilterType = All | InProgress | Completed | New

  /** `allCategories`: the built-in quizzes, then the custom ones. */
  function AllCategories(builtIn: seq<QuizCategory>, custom: seq<QuizCategory>): (r: seq<QuizCategory>)
    ensures |r| == |builtIn| + |custom|
    ensures forall k :: 0 <= k < |builtIn| ==> r[k] == builtIn[k]
    ensures forall k :: 0 <= k < |custom| ==> r[|builtIn| + k] == custom[k]
  {
    builtIn + custom
  }

  /** The search: the lower-cased query inside the lower-cased name or description. */
  predicate MatchesSearch(cat: QuizCategory, query: string) {
    Includes(Lower(cat.name), Lower(query)) || Includes(Lower(cat.description), Lower(query))
  }

  /** An empty query finds every category. */
  lemma EmptyQueryMatches(cat: QuizCategory)
    ensures MatchesSearch(cat, "")
  {
    EmptyIncluded(Lower(cat.name));
  }

  /** The filter on the attempts and the best score of a category. */
  predicate PassesFilter(cat: QuizCategory, filter: FilterType, progress: QuizProgress) {
    var hasAttempts := |GetAttemptsForCategory(progress, cat.id)| > 0;
    var bestScore := GetBestScore(progress, cat.id);
    match filter
    case InProgress => hasAttempts && bestScore < 100
    case Completed => bestScore >= 80
    case New => !hasAttempts
    case All => true
  }

  /** The predicate passed to `allCategories.filter`. */
  predicate Shown(cat: QuizCategory, query: string, filter: FilterType, progress: QuizProgress) {
    MatchesSearch(cat, query) && PassesFilter(cat, filter, progress)
  }

  /** `filteredCategories`: the categories the predicate keeps, in list order. */
  function FilterCategories(cats: seq<QuizCategory>, query: string, filter: FilterType, progress: QuizProgress): (r: seq<QuizCategory>)
    ensures |r| <= |cats|
  {
    Select(cats, ShownFlags(cats, query, filter, progress))
  }

  /** The predicate's verdict on each category. */
  function ShownFlags(cats: seq<QuizCategory>, query: string, filter: FilterType, progress: QuizProgress): (r: seq<bool>)
    ensures |r| == |cats|
    ensures forall k :: 0 <= k < |cats| ==> r[k] == Shown(cats[k], query, filter, progress)
  {
    seq(|cats|, k requires 0 <= k < |cats| => Shown(cats[k], query, filter, progress))
  }

  /** `Array.prototype.filter` with the verdicts computed beforehand: the entries whose verdict is true. */
  function Select(cats: seq<QuizCategory>, keep: seq<bool>): (r: seq<QuizCategory>)
    requires |keep| == |cats|
    ensures |r| <= |cats|
    decreases |cats|
  {
    if |cats| == 0 then [] else (if keep[0] then [cats[0]] else []) + Select(cats[1..], keep[1..])
  }

  /** An entry is selected exactly when some position holding it has a true verdict. */
  lemma {:induction false} SelectMembers(cats: seq<QuizCategory>, keep: seq<bool>)
    requires |keep| == |cats|
    ensures forall c :: c in Select(cats, keep) <==> exists k :: 0 <= k < |cats| && cats[k] == c && keep[k]
    decreases |cats|
  {
    if |cats| > 0 {
      SelectMembers(cats[1..], keep[1..]);
      forall c | c in Select(cats, keep)
        ensures exists k :: 0 <= k < |cats| && cats[k] == c && keep[k]
      {
        if !(keep[0] && c == cats[0]) {
          var j :| 0 <= j < |cats| - 1 && cats[1..][j] == c && keep[1..][j];
          assert cats[j + 1] == c && keep[j + 1];
        }
      }
      forall c | exists k :: 0 <= k < |cats| && cats[k] == c && keep[k]
        ensures c in Select(cats, keep)
      {
        var k :| 0 <= k < |cats| && cats[k] == c && keep[k];
        if k > 0 {
          assert cats[1..][k - 1] == c && keep[1..][k - 1];
        }
      }
    }
  }

  /** Selecting from a concatenation selects from each part. */
  lemma {:induction false} SelectAppend(a: seq<QuizCategory>, ka: seq<bool>, b: seq<QuizCategory>, kb: seq<bool>)
    requires |ka| == |a| && |kb| == |b|
    ensures Select(a + b, ka + kb) == Select(a, ka) + Select(b, kb)
    decreases |a|
  {
    if |a| == 0 {
      assert a + b == b && ka + kb == kb;
    } else {
      assert (a + b)[0] == a[0] && (a + b)[1..] == a[1..] + b;
      assert (ka + kb)[0] == ka[0] && (ka + kb)[1..] == ka[1..] + kb;
      SelectAppend(a[1..], ka[1..], b, kb);
    }
  }

  /** With every verdict true, everything is selected. */
  lemma {:induction false} SelectAll(cats: seq<QuizCategory>, keep: seq<bool>)
    requires |keep| == |cats| && forall k :: 0 <= k < |keep| ==> keep[k]
    ensures Select(cats, keep) == cats
    decreases |cats|
  {
    if |cats| > 0 {
      SelectAll(cats[1..], keep[1..]);
      assert cats == [cats[0]] + cats[1..];
    }
  }

  /** A category is shown exactly when it is in the list and passes both the search and the filter. */
  lemma FilterCategoriesMembers(cats: seq<QuizCategory>, query: string, filter: FilterType, progress: QuizProgress)
    ensures forall c :: c in FilterCategories(cats, query, filter, progress) <==> c in cats && Shown(c, query, filter, progress)
  {
    var keep := ShownFlags(cats, query, filter, progress);
    SelectMembers(cats, keep);
    forall c | c in cats && Shown(c, query, filter, progress)
      ensures exists k :: 0 <= k < |cats| && cats[k] == c && keep[k]
    {
      var k :| 0 <= k < |cats| && cats[k] == c;
      assert keep[k];
    }
  }

  /** Filtering a concatenation filters each part: the shown categories keep the list's order. */
  lemma FilterCategoriesAppend(a: seq<QuizCategory>, b: seq<QuizCategory>, query: string, filter: FilterType, progress: QuizProgress)
    ensures FilterCategories(a + b, query, filter, progress) ==
      FilterCategories(a, query, filter, progress) + FilterCategories(b, query, filter, progress)
  {
    var ka, kb := ShownFlags(a, query, filter, progress), ShownFlags(b, query, filter, progress);
    assert ShownFlags(a + b, query, filter, progress) == ka + kb;
    SelectAppend(a, ka, b, kb);
  }

  /** With an empty query and the "all" filter, every category is shown, in order. */
  lemma FilterShowsAll(cats: seq<QuizCategory>, progress: QuizProgress)
    ensures FilterCategories(cats, "", All, progress) == cats
  {
    var keep := ShownFlags(cats, "", All, progress);
    forall k | 0 <= k < |cats| ensures keep[k] {
      EmptyQueryMatches(cats[k]);
    }
    SelectAll(cats, keep);
  }

  /** The "new" and "in-progress" filters never show the same category. */
  lemma NewNotInProgress(cat: QuizCategory, progress: QuizProgress)
    ensures !(PassesFilter(cat, New, progress) && PassesFilter(cat, InProgress, progress))
  {
  }

  /** `totalQuestions`: the question count over all categories. */
  function TotalQuestions(cats: seq<QuizCategory>): (n: nat)
    decreases |cats|
  {
    if |cats| == 0 then 0 else TotalQuestions(cats[..|cats| - 1]) + |cats[|cats| - 1].questions|
  }

  lemma TotalQuestionsSnoc(cats: seq<QuizCategory>, c: QuizCategory)
    ensures TotalQuestions(cats + [c]) == TotalQuestions(cats) + |c.questions|
  {
    assert (cats + [c])[..|cats|] == cats;
  }

  /** `totalAnswered`: the answer count over all stored attempts. */
  function TotalAnswered(attempts: seq<QuizAttempt>): (n: nat)
    decreases |attempts|
  {
    if |attempts| == 0 then 0 else TotalAnswered(attempts[..|attempts| - 1]) + |attempts[|attempts| - 1].answers|
  }

  /** An attempt put in front adds its answers to the count. */
  lemma {:induction false} TotalAnsweredPrepend(a: QuizAttempt, attempts: seq<QuizAttempt>)
    ensures TotalAnswered([a] + attempts) == |a.answers| + TotalAnswered(attempts)
    decreases |attempts|
  {
    if |attempts| > 0 {
      var n := |attempts|;
      assert ([a] + attempts)[..n] == [a] + attempts[..n - 1];
      TotalAnsweredPrepend(a, attempts[..n - 1]);
    } else {
      assert [a] + attempts == [a];
      assert [a][..0] == [];
    }
  }

  /**
   * Saving an attempt adds its answers to the answered total; at the cap, the answers of the oldest
   * stored attempt drop out of it.
   */
  lemma SaveCountsAnswers(prev: QuizProgress, attempt: QuizAttempt, today: int)
    requires attempt.totalQuestions > 0
    ensures TotalAnswered(SaveAttempt(prev, attempt, today).attempts) ==
      |attempt.answers| + TotalAnswered(Survivors(prev.attempts))
    ensures |prev.attempts| < MaxAttempts ==>
      TotalAnswered(SaveAttempt(prev, attempt, today).attempts) == TotalAnswered(prev.attempts) + |attempt.answers|
  {
    PrependSurvivors(attempt, prev.attempts);
    TotalAnsweredPrepend(attempt, Survivors(prev.attempts));
  }

  /** How many answers are correct: `answers.filter(a => a.isCorrect).length`. */
  function CorrectCount(answers: seq<UserAnswer>): (n: nat)
    ensures n <= |answers|
    ensures n == |answers| <==> forall k :: 0 <= k < |answers| ==> answers[k].isCorrect
    decreases |answers|
  {
    if |answers| == 0 then 0
    else CorrectCount(answers[..|answers| - 1]) + (if answers[|answers| - 1].isCorrect then 1 else 0)
  }

  /** `customQuizzes.filter(quiz => quiz.id !== categoryId)`. */
  function WithoutQuiz(quizzes: seq<QuizCategory>, id: string): (r: seq<QuizCategory>)
    ensures |r| <= |quizzes|
    ensures forall q :: q in r <==> q in quizzes && q.id != id
    decreases |quizzes|
  {
    if |quizzes| == 0 then []
    else (if quizzes[0].id != id then [quizzes[0]] else []) + WithoutQuiz(quizzes[1..], id)
  }

  /** Deleting keeps every quiz with another id, in order: with none of that id, nothing changes. */
  lemma {:induction false} WithoutAbsentQuiz(quizzes: seq<QuizCategory>, id: string)
    requires forall k :: 0 <= k < |quizzes| ==> quizzes[k].id != id
    ensures WithoutQuiz(quizzes, id) == quizzes
    decreases |quizzes|
  {
    if |quizzes| > 0 {
      WithoutAbsentQuiz(quizzes[1..], id);
      assert quizzes == [quizzes[0]] + quizzes[1..];
    }
  }

  lemma {:induction false} WithoutQuizAppend(a: seq<QuizCategory>, b: seq<QuizCategory>, id: string)
    ensures WithoutQuiz(a + b, id) == WithoutQuiz(a, id) + WithoutQuiz(b, id)
    decreases |a|
  {
    if |a| == 0 {
      assert a + b == b;
    } else {
      assert (a + b)[0] == a[0] && (a + b)[1..] == a[1..] + b;
      WithoutQuizAppend(a[1..], b, id);
    }
  }

  /** Deleting a quiz just saved under a fresh id gives back the list from before the save. */
  lemma DeleteUndoesSave(quizzes: seq<QuizCategory>, q: QuizCategory)
    requires forall k :: 0 <= k < |quizzes| ==> quizzes[k].id != q.id
    ensures WithoutQuiz(quizzes + [q], q.id) == quizzes
  {
    WithoutQuizAppend(quizzes, [q], q.id);
    WithoutAbsentQuiz(quizzes, q.id);
    assert WithoutQuiz([q], q.id) == [] by {
      assert [q][1..] == [];
    }
  }

  /** The page's state. */
  class QuizHomePage {
    const builtIn: seq<QuizCategory>
    var currentView: View
    var selectedCategory: Option<QuizCategory>
    var lastAttempt: Option<QuizAttempt>
    var customQuizzes: seq<QuizCategory>
    var searchQuery: string
    var filterType: FilterType
    var progress: QuizProgress

    constructor (builtIn: seq<QuizCategory>, customQuizzes: seq<QuizCategory>, progress: QuizProgress)
      ensures this.builtIn == builtIn && this.customQuizzes == customQuizzes && this.progress == progress
      ensures currentView == Landing && selectedCategory.None? && lastAttempt.None?
      ensures searchQuery == "" && filterType == All
    {
      this.builtIn := builtIn;
      currentView := Landing;
      selectedCategory := None;
      lastAttempt := None;
      this.customQuizzes := customQuizzes;
      searchQuery := "";
      filterType := All;
      this.progress := progress;
    }

    /** The categories the home view lists. */
    function FilteredCategories(): seq<QuizCategory>
      reads this
    {
      FilterCategories(AllCategories(builtIn, customQuizzes), searchQuery, filterType, progress)
    }

    /** The listed categories: the matching built-in ones, then the matching custom ones. */
    lemma FilteredInOrder()
      ensures FilteredCategories() ==
        FilterCategories(builtIn, searchQuery, filterType, progress) +
        FilterCategories(customQuizzes, searchQuery, filterType, progress)
    {
      FilterCategoriesAppend(builtIn, customQuizzes, searchQuery, filterType, progress);
    }

    method HandleSelectCategory(category: QuizCategory)
      modifies this
      ensures selectedCategory == Some(category) && currentView == Playing
      ensures lastAttempt == old(lastAttempt) && customQuizzes == old(customQuizzes) && progress == old(progress)
      ensures searchQuery == old(searchQuery) && filterType == old(filterType)
    {
      selectedCategory := Some(category);
      currentView := Playing;
    }

    /**
     * `handleQuizComplete` on day `today`, at ISO time `now`: build the attempt from the answers, save it
     * to the progress record and show the results. Without a selected category nothing happens.
     */
    method HandleQuizComplete(answers: seq<UserAnswer>, totalTime: int, now: string, today: int)
      requires selectedCategory.Some? ==> |selectedCategory.value.questions| > 0
      modifies this
      ensures old(selectedCategory).None? ==>
        currentView == old(currentView) && lastAttempt == old(lastAttempt) && progress == old(progress)
      ensures old(selectedCategory).Some? ==>
        var cat := old(selectedCategory).value;
        var attempt := QuizAttempt(cat.id, now, CorrectCount(answers), |cat.questions|, totalTime, answers);
        lastAttempt == Some(attempt) && currentView == ResultsView &&
        progress == SaveAttempt(old(progress), attempt, today)
      ensures selectedCategory == old(selectedCategory) && customQuizzes == old(customQuizzes)
      ensures searchQuery == old(searchQuery) && filterType == old(filterType)
    {
      if selectedCategory.None? {
        return;
      }
      var cat := selectedCategory.value;
      var score := CorrectCount(answers);
      var attempt := QuizAttempt(cat.id, now, score, |cat.questions|, totalTime, answers);
      progress := SaveAttempt(progress, attempt, today);
      lastAttempt := Some(attempt);
      currentView := ResultsView;
    }

    /** `handleRetry`: play again, forgetting the last attempt but keeping the category. */
    method HandleRetry()
      modifies this
      ensures currentView == Playing && lastAttempt.None? && selectedCategory == old(selectedCategory)
      ensures customQuizzes == old(customQuizzes) && progress == old(progress)
      ensures searchQuery == old(searchQuery) && filterType == old(filterType)
    {
      currentView := Playing;
      lastAttempt := None;
    }

    /** `handleGoHome`: back home, forgetting both the category and the attempt. */
    method HandleGoHome()
      modifies this
      ensures currentView == HomeView && selectedCategory.None? && lastAttempt.None?
      ensures customQuizzes == old(customQuizzes) && progress == old(progress)
      ensures searchQuery == old(searchQuery) && filterType == old(filterType)
    {
      currentView := HomeView;
      selectedCategory := None;
      lastAttempt := None;
    }

    /** `handleQuit`: back home, forgetting the category only. */
    method HandleQuit()
      modifies this
      ensures currentView == HomeView && selectedCategory.None? && lastAttempt == old(lastAttempt)
      ensures customQuizzes == old(customQuizzes) && progress == old(progress)
      ensures searchQuery == old(searchQuery) && filterType == old(filterType)
    {
      currentView := HomeView;
      selectedCategory := None;
    }

    /** `handleOpenCreator`. */
    method HandleOpenCreator()
      modifies this`currentView
      ensures currentView == Creator
    {
      currentView := Creator;
    }

    /** `handleCloseCreator` and `handleGetStarted`: the home view. */
    method ShowHome()
      modifies this`currentView
      ensures currentView == HomeView
    {
      currentView := HomeView;
    }

    /** `handleSaveQuiz`: the new quiz goes last, and the home view is shown. */
    method HandleSaveQuiz(newQuiz: QuizCategory)
      modifies this
      ensures customQuizzes == old(customQuizzes) + [newQuiz] && currentView == HomeView
      ensures selectedCategory == old(selectedCategory) && lastAttempt == old(lastAttempt) && progress == old(progress)
      ensures searchQuery == old(searchQuery) && filterType == old(filterType)
      ensures TotalQuestions(AllCategories(builtIn, customQuizzes)) ==
        old(TotalQuestions(AllCategories(builtIn, customQuizzes))) + |newQuiz.questions|
    {
      var all := AllCategories(builtIn, customQuizzes);
      customQuizzes := customQuizzes + [newQuiz];
      assert AllCategories(builtIn, customQuizzes) == all + [newQuiz];
      TotalQuestionsSnoc(all, newQuiz);
      currentView := HomeView;
    }

    /** `handleDeleteQuiz`: every custom quiz with that id goes, the rest keep their order. */
    method HandleDeleteQuiz(categoryId: string)
      modifies this`customQuizzes
      ensures customQuizzes == WithoutQuiz(old(customQuizzes), categoryId)
    {
      customQuizzes := WithoutQuiz(customQuizzes, categoryId);
    }
  }
}
