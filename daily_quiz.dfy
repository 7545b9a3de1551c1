/**
 * The daily quiz as the app runs it: scoring a selection against the answer
 * key, recording an option click, the submit button's guard, and the
 * submission that scores, re-ranks the day's leaderboard and stores the
 * submitter's result.
 */
module DailyQuiz {
  import opened QuizTypes
  import opened Ranking

  // ---------------------------------------------------------------------------
  // Scoring

  /**
   * Question `idx` is answered correctly: the selection has an entry there and
   * it equals the answer key. A hole, an unset entry or a position past the
   * end of the selection never matches.
   */
  predicate Matches(qs: seq<Question>, sel: seq<Option<int>>, idx: nat)
    requires idx < |qs|
  {
    idx < |sel| && sel[idx] == Some(qs[idx].answer)
  }

  /** The number of correctly answered questions among the first `n`. */
  function ScoreUpTo(qs: seq<Question>, sel: seq<Option<int>>, n: nat): (r: nat)
    requires n <= |qs|
    ensures r <= n
  {
    if n == 0 then 0
    else ScoreUpTo(qs, sel, n - 1) + (if Matches(qs, sel, n - 1) then 1 else 0)
  }

  /** The score of a selection: one point per correctly answered question. */
  function Score(qs: seq<Question>, sel: seq<Option<int>>): (r: nat)
    ensures r <= |qs|
  {
    ScoreUpTo(qs, sel, |qs|)
  }

  /** The scoring loop: a counter that goes up by one for each matching question. */
  method ScoreQuiz(qs: seq<Question>, sel: seq<Option<int>>) returns (score: nat)
    ensures score == Score(qs, sel)
    ensures score <= |qs|
  {
    score := 0;
    for idx := 0 to |qs|
      invariant score == ScoreUpTo(qs, sel, idx)
    {
      if idx < |sel| && sel[idx] == Some(qs[idx].answer) {
        score := score + 1;
      }
    }
  }

  /** Full marks exactly when every question is answered correctly. */
  lemma {:induction false} ScoreFullIff(qs: seq<Question>, sel: seq<Option<int>>, n: nat)
    requires n <= |qs|
    ensures ScoreUpTo(qs, sel, n) == n <==> forall i :: 0 <= i < n ==> Matches(qs, sel, i)
  {
    if n > 0 {
      ScoreFullIff(qs, sel, n - 1);
    }
  }

  /** No points exactly when no question is answered correctly. */
  lemma {:induction false} ScoreZeroIff(qs: seq<Question>, sel: seq<Option<int>>, n: nat)
    requires n <= |qs|
    ensures ScoreUpTo(qs, sel, n) == 0 <==> forall i :: 0 <= i < n ==> !Matches(qs, sel, i)
  {
    if n > 0 {
      ScoreZeroIff(qs, sel, n - 1);
    }
  }

  /** An empty selection, the state before any click, scores nothing. */
  lemma ScoreOfNoSelection(qs: seq<Question>)
    ensures Score(qs, []) == 0
  {
    ScoreZeroIff(qs, [], |qs|);
  }

  /** Two selections that match the same questions among the first `n` score the same. */
  lemma {:induction false} ScoreSameMatches(qs: seq<Question>, s1: seq<Option<int>>, s2: seq<Option<int>>, n: nat)
    requires n <= |qs|
    requires forall i :: 0 <= i < n ==> Matches(qs, s1, i) == Matches(qs, s2, i)
    ensures ScoreUpTo(qs, s1, n) == ScoreUpTo(qs, s2, n)
  {
    if n > 0 {
      ScoreSameMatches(qs, s1, s2, n - 1);
    }
  }

  /**
   * Question `k` contributes exactly its own point: two selections that match
   * the same questions except possibly `k` differ in score by the difference
   * of their points at `k`.
   */
  lemma {:induction false} ScoreOneQuestion(qs: seq<Question>, s1: seq<Option<int>>, s2: seq<Option<int>>, k: nat, n: nat)
    requires k < n <= |qs|
    requires forall i :: 0 <= i < n && i != k ==> Matches(qs, s1, i) == Matches(qs, s2, i)
    ensures ScoreUpTo(qs, s2, n) + (if Matches(qs, s1, k) then 1 else 0) ==
            ScoreUpTo(qs, s1, n) + (if Matches(qs, s2, k) then 1 else 0)
  {
    if k < n - 1 {
      ScoreOneQuestion(qs, s1, s2, k, n - 1);
    } else {
      ScoreSameMatches(qs, s1, s2, n - 1);
    }
  }

  // ---------------------------------------------------------------------------
  // Recording a click

  /**
   * The selection after clicking option `oIdx` of question `qIdx`: the copy of
   * the old selection with that entry written. Writing past the end makes the
   * array long enough and leaves the skipped entries unset.
   */
  function Selected(sel: seq<Option<int>>, qIdx: nat, oIdx: nat): (r: seq<Option<int>>)
    ensures |r| == if qIdx < |sel| then |sel| else qIdx + 1
    ensures r[qIdx] == Some(oIdx)
    ensures forall j :: 0 <= j < |r| && j != qIdx ==> r[j] == if j < |sel| then sel[j] else None
  {
    if qIdx < |sel| then sel[qIdx := Some(oIdx)]
    else sel + seq(qIdx - |sel|, _ => None) + [Some(oIdx)]
  }

  /** The click handler's copy-then-write, on an array that is as long as the new selection. */
  method CopyAndSelect(sel: seq<Option<int>>, qIdx: nat, oIdx: nat) returns (newSel: seq<Option<int>>)
    ensures newSel == Selected(sel, qIdx, oIdx)
  {
    var n := if qIdx < |sel| then |sel| else qIdx + 1;
    var a := new Option<int>[n](_ => None);
    var i := 0;
    while i < |sel|
      invariant 0 <= i <= |sel| <= n == a.Length
      invariant forall j :: 0 <= j < i ==> a[j] == sel[j]
      invariant forall j :: i <= j < n ==> a[j] == None
    {
      a[i] := sel[i];
      i := i + 1;
    }
    a[qIdx] := Some(oIdx);
    newSel := a[..];
  }

  /** A click changes the score only through the clicked question. */
  lemma ScoreAfterSelect(qs: seq<Question>, sel: seq<Option<int>>, qIdx: nat, oIdx: nat)
    ensures qIdx >= |qs| ==> Score(qs, Selected(sel, qIdx, oIdx)) == Score(qs, sel)
    ensures qIdx < |qs| ==>
              Score(qs, Selected(sel, qIdx, oIdx)) + (if Matches(qs, sel, qIdx) then 1 else 0) ==
              Score(qs, sel) + (if oIdx == qs[qIdx].answer then 1 else 0)
  {
    var r := Selected(sel, qIdx, oIdx);
    if qIdx < |qs| {
      ScoreOneQuestion(qs, sel, r, qIdx, |qs|);
    } else {
      ScoreSameMatches(qs, sel, r, |qs|);
    }
  }

  // ---------------------------------------------------------------------------
  // The submit button

  /** The number of entries that are set (what the button's label counts). */
  function AnsweredCount(sel: seq<Option<int>>): (n: nat)
    ensures n <= |sel|
  {
    if |sel| == 0 then 0
    else AnsweredCount(sel[..|sel| - 1]) + (if sel[|sel| - 1].Some? then 1 else 0)
  }

  /** The submit button's guard as written: the selection array is at least 5 long. */
  predicate SubmitEnabled(sel: seq<Option<int>>)
  {
    |sel| >= 5
  }

  /** After a click the button is enabled exactly when the new length reaches 5. */
  lemma SubmitEnabledAfterSelect(sel: seq<Option<int>>, qIdx: nat, oIdx: nat)
    ensures SubmitEnabled(Selected(sel, qIdx, oIdx)) <==> |sel| >= 5 || qIdx >= 4
  {
  }

  /**
   * As written, the guard looks at the length of the array, not at how many
   * questions are answered: one click on the fifth question makes the array 5
   * long, so the button is enabled (and relabelled "Submit IQ Evaluation")
   * while only 1 of 5 entries is set, although its label asked to finish all
   * questions.
   */
  lemma SubmitEnabledWithOneAnswer()
    ensures SubmitEnabled(Selected([], 4, 0))
    ensures AnsweredCount(Selected([], 4, 0)) == 1
  {
    AnsweredCountAfterSelect([], 4, 0);
  }

  /** The guard the label asks for: at least 5 questions answered. */
  predicate SubmitReady(sel: seq<Option<int>>)
  {
    AnsweredCount(sel) >= 5
  }

  /** A click adds one answered entry when it lands on an unset entry, none otherwise. */
  lemma {:induction false} AnsweredCountAfterSelect(sel: seq<Option<int>>, qIdx: nat, oIdx: nat)
    ensures AnsweredCount(Selected(sel, qIdx, oIdx)) ==
            AnsweredCount(sel) + (if qIdx < |sel| && sel[qIdx].Some? then 0 else 1)
  {
    var r := Selected(sel, qIdx, oIdx);
    if qIdx < |sel| {
      AnsweredCountReplace(sel, qIdx, Some(oIdx));
    } else {
      var pad := sel + seq(qIdx - |sel|, _ => None);
      AnsweredCountPad(sel, qIdx - |sel|);
      assert r == pad + [Some(oIdx)];
      assert r[..|r| - 1] == pad;
    }
  }

  lemma {:induction false} AnsweredCountPad(sel: seq<Option<int>>, k: nat)
    ensures AnsweredCount(sel + seq(k, _ => None)) == AnsweredCount(sel)
  {
    if k > 0 {
      var s := sel + seq(k, _ => None);
      assert s[..|s| - 1] == sel + seq(k - 1, _ => None);
      AnsweredCountPad(sel, k - 1);
    } else {
      assert sel + seq(0, _ => None) == sel;
    }
  }

  lemma {:induction false} AnsweredCountReplace(sel: seq<Option<int>>, k: nat, v: Option<int>)
    requires k < |sel|
    ensures AnsweredCount(sel[k := v]) + (if sel[k].Some? then 1 else 0) ==
            AnsweredCount(sel) + (if v.Some? then 1 else 0)
  {
    var s := sel[k := v];
    if k < |sel| - 1 {
      assert s[..|s| - 1] == sel[..|sel| - 1][k := v];
      AnsweredCountReplace(sel[..|sel| - 1], k, v);
    } else {
      assert s[..|s| - 1] == sel[..|sel| - 1];
    }
  }

  /** Whenever the intended guard lets a submission through, the written one does too. */
  lemma SubmitReadyIsStricter(sel: seq<Option<int>>)
    ensures SubmitReady(sel) ==> SubmitEnabled(sel)
    ensures !SubmitReady(Selected([], 4, 0))
  {
    SubmitEnabledWithOneAnswer();
  }

  // ---------------------------------------------------------------------------
  // The submission

  /** The attempt recorded for `user` submitting `sel` against `quiz` at time `now`. */
  function AttemptOf(quiz: Quiz, user: UserProfile, sel: seq<Option<int>>, now: int): QuizAttempt
  {
    QuizAttempt(user.name, sel, Score(quiz.questions, sel), |quiz.questions|, now)
  }

  /**
   * The quiz state of the app: the day's quiz, the signed-in user, the day's
   * leaderboard, the current selection and the submitter's result. Loading and
   * saving them is left to the caller.
   */
  class QuizEngine {
    var dailyQuiz: Option<Quiz>
    var currentUser: Option<UserProfile>
    var leaderboard: seq<QuizAttempt>
    var quizSelection: seq<Option<int>>
    var userQuizResult: Option<QuizResult>

    /** The leaderboard is in leaderboard order. */
    ghost predicate Ranked()
      reads this
    {
      Sorted(ByScoreThenTime, leaderboard)
    }

    /**
     * The initial state: what was stored for the day, the seeded board (as
     * App.tsx sorts it, by score alone) when no board is stored, and an empty
     * selection.
     */
    constructor(quiz: Option<Quiz>, user: Option<UserProfile>,
                savedBoard: Option<seq<QuizAttempt>>, savedResult: Option<QuizResult>)
      ensures dailyQuiz == quiz && currentUser == user && userQuizResult == savedResult
      ensures leaderboard == if savedBoard.Some? then savedBoard.value else SeededLeaderboard()
      ensures quizSelection == []
      ensures savedBoard.None? ==> Sorted(ByScore, leaderboard)
    {
      dailyQuiz := quiz;
      currentUser := user;
      userQuizResult := savedResult;
      leaderboard := if savedBoard.Some? then savedBoard.value else SeededLeaderboard();
      quizSelection := [];
      SortBoardSorted(ByScore, SeedEntries());
    }

    /** Clicking option `oIdx` of question `qIdx`. */
    method SelectOption(qIdx: nat, oIdx: nat)
      modifies this`quizSelection
      ensures quizSelection == Selected(old(quizSelection), qIdx, oIdx)
    {
      var newSel := CopyAndSelect(quizSelection, qIdx, oIdx);
      quizSelection := newSel;
    }

    /**
     * Submitting the current selection at time `now` on the day `today`.
     * Without a quiz or a signed-in user nothing happens. Otherwise the attempt
     * is scored, appended to the board, the board is re-sorted, and the result
     * carries the attempt's 1-based position in it as the rank.
     */
    method SubmitQuiz(today: string, now: int)
      modifies this`leaderboard, this`userQuizResult
      ensures dailyQuiz.None? || currentUser.None? ==>
                leaderboard == old(leaderboard) && userQuizResult == old(userQuizResult)
      ensures dailyQuiz.Some? && currentUser.Some? ==>
                var a := AttemptOf(dailyQuiz.value, currentUser.value, quizSelection, now);
                && leaderboard == Resorted(old(leaderboard), a)
                && userQuizResult == Some(QuizResult(currentUser.value.uid, a.score,
                                                     |dailyQuiz.value.questions|, today,
                                                     Some(RankIndex(old(leaderboard), a) + 1)))
      ensures dailyQuiz.Some? && currentUser.Some? ==>
                var a := AttemptOf(dailyQuiz.value, currentUser.value, quizSelection, now);
                && Ranked()
                && multiset(leaderboard) == multiset(old(leaderboard)) + multiset{a}
                && 1 <= userQuizResult.value.rank.value <= |old(leaderboard)| + 1
                && leaderboard[userQuizResult.value.rank.value - 1] == a
                && userQuizResult.value.rank.value == CountBefore(ByScoreThenTime, old(leaderboard), a) + 1
    {
      if dailyQuiz.None? || currentUser.None? {
        return;
      }
      var quiz := dailyQuiz.value;
      var user := currentUser.value;
      var score := ScoreQuiz(quiz.questions, quizSelection);
      var attempt := QuizAttempt(user.name, quizSelection, score, |quiz.questions|, now);
      var newLeaderboard := Resorted(leaderboard, attempt);
      var rank := RankIndex(leaderboard, attempt) + 1;
      Submitted(leaderboard, attempt);
      leaderboard := newLeaderboard;
      userQuizResult := Some(QuizResult(user.uid, score, |quiz.questions|, today, Some(rank)));
    }
  }
}
