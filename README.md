# Daily quiz scoring and leaderboard ranking

A Dafny model of the daily quiz in the Vidya Academy tutor app. On submit, the app
scores the student's option selection against the day's answer key and records a
quiz attempt. It appends that attempt to the day's leaderboard and re-sorts the entire
board: higher score first, and on equal scores the earlier submission first. The
student's rank is the attempt's 1-based position in the re-sorted board. The model
also covers the click handler that records a selection, the submit button's guard
and the board that is seeded when nothing is stored for the day.

Files:
- `types.dfy` (module `QuizTypes`): the records `Question`, `Quiz`, `QuizAttempt`,
  `QuizResult`, and the part of `UserProfile` that a submission reads. A selection
  is a `seq<Option<int>>`. An entry that was never clicked is `None`, whether it is a
  hole in the array or `undefined`, because `===` never matches either and
  `filter(x => x !== undefined)` drops both. `submittedAt` is an integer number of
  milliseconds, the value `new Date(...).getTime()` gives the comparator.
- `ranking.dfy` (module `Ranking`): the two comparators App.tsx sorts with
  (`Order`, `Compare`, `Before`), a stable insertion sort (`Insert`, `SortBoard`),
  its properties (sorted, a permutation, stable, an already sorted input is left alone), the
  re-sorted board after a submission (`Resorted`), the attempt's position in it
  (`RankIndex`) and the seeded board.
- `daily_quiz.dfy` (module `DailyQuiz`): scoring (`Score` and the loop `ScoreQuiz`),
  a click (`Selected` and the copy-then-write `CopyAndSelect`), the submit guard, and
  the class `QuizEngine`. Its fields are the component state the quiz uses.
  `SubmitQuiz` replaces `leaderboard` and `userQuizResult`, and `SelectOption`
  replaces `quizSelection`.

How the sort and `indexOf` are modelled. `Array.prototype.sort` is stable, and
both comparators are consistent (`CompareConsistent`). So the sorted output is
fully determined by the input, and one stable algorithm stands for every other. The
model uses an insertion sort. It takes the elements left to right and moves each one
in front of the elements that compare strictly greater than it. `SortBoardSorted`,
`SortBoardPermutation` and `TiesSortBoard` state the three things that pin the output
down: it is ordered, it holds the same entries, and entries that tie keep their
input order. Sorting
`board + [a]` is then, by definition, inserting `a` into the sorted old board.
`indexOf(attempt)` compares object references, and the attempt is a fresh object.
So it returns the slot where the sort put that object: the insertion position
`RankIndex`. A search by value would return a different index if the board already
held an identical record; the reference semantics does not have that problem.
`Submitted` proves what the rank means: the attempt is placed after every old entry
with a higher score, or with the same score submitted no later, and before all
the others. So the rank is one more than the number of such entries, and it lies
between 1 and the old length plus 1.

## Model

| member | source | states |
|---|---|---|
| `Ranking.ScoreThenTimeRule` | App.tsx:302-305 | the submission comparator lets `a` precede `b` iff `a` has the higher score, or the same score and a submission time no later; the seed comparator iff `a`'s score is at least `b`'s |
| `Ranking.CompareConsistent` | App.tsx:302-305 | both comparators are consistent: `Compare(a,b) == -Compare(b,a)`, any two entries are ordered one way or the other, and the order is transitive |
| `Ranking.SortedIffAdjacent` | App.tsx:302-305 | a board is ordered for every adjacent pair iff it is ordered for every pair of positions |
| `Ranking.SortBoardSorted` | App.tsx:302-305 | the sorted board is in order under the comparator it was sorted with |
| `Ranking.SortBoardPermutation` | App.tsx:302 | the sorted board holds exactly the entries of its input (same multiset, same length) |
| `Ranking.SortBoardOfSorted` | App.tsx:302-305 | re-sorting a board that is already in order returns it unchanged |
| `Ranking.TiesInsert` | App.tsx:302-305 | one insertion step appends the new entry to the entries that tie with any given attempt, behind the tied entries already there, and changes nothing else about them |
| `Ranking.TiesSortBoard` | App.tsx:302-305 | stability: for every attempt `x`, the entries that tie with `x` (comparator value 0) come out of the sort in the order they went in |
| `Ranking.InsertShape` | App.tsx:302-305 | one insertion step keeps the old entries in order and puts the new entry at `InsertPos`, after an entry that may precede it and before entries that compare strictly greater |
| `Ranking.InsertRank` | App.tsx:302-305 | in a sorted board the inserted entry sits at `InsertPos`; every entry before it may precede it, and no entry after it may |
| `Ranking.CountBeforeSortBoard` | App.tsx:302 | sorting does not change how many entries may precede a given attempt |
| `Ranking.InsertPosCounts` | App.tsx:315 | in a sorted board, the insertion position equals the number of entries that may precede the inserted attempt |
| `Ranking.Submitted` | App.tsx:302-315 | after appending `a` and re-sorting: one more entry; exactly the old entries plus `a`; in leaderboard order; `a` at position `RankIndex`, which equals the number of old entries with a higher score or the same score and no later time (so at most the old length); entries before it may precede `a` and entries after it may not |
| `Ranking.SeededLeaderboardUnsorted` | App.tsx:57-62 | the seed as written sorts to Aman, Sneha, Priya, Rahul. That order is sorted by score, but not by score then time, because Sneha (10:05) precedes Priya (09:30) |
| `Ranking.DefaultLeaderboardSorted` | App.tsx:57-62 | the seed sorted with the submission comparator is Aman, Priya, Sneha, Rahul, which is in leaderboard order |
| `Ranking.ResortedSeed` | App.tsx:57-62 | re-sorting the seeded board as written with the submission comparator gives the corrected seed |
| `Ranking.SeedOrderForgotten` | App.tsx:57-62 | after the first submission the board is the same whether it started from the seed as written or as corrected, so the seed's order matters only before any submission |
| `DailyQuiz.Score` | App.tsx:289-292 | the score lies between 0 and the number of questions |
| `DailyQuiz.ScoreQuiz` | App.tsx:289-292 | the counting loop returns exactly `Score` of the questions and the selection |
| `DailyQuiz.ScoreFullIff` | App.tsx:290-292 | full marks iff every question's selection equals its answer key |
| `DailyQuiz.ScoreZeroIff` | App.tsx:290-292 | zero points iff no question's selection equals its answer key |
| `DailyQuiz.ScoreOfNoSelection` | App.tsx:290-292 | an empty selection, where every entry is missing, scores 0 |
| `DailyQuiz.ScoreSameMatches` | App.tsx:290-292 | the score depends only on which questions match: two selections that match the same questions score the same |
| `DailyQuiz.ScoreOneQuestion` | App.tsx:290-292 | each question contributes exactly its own 0 or 1: selections that agree everywhere but question `k` differ in score by the difference of their points at `k` |
| `DailyQuiz.Selected` | App.tsx:565-568 | after a click the selection has length max(old length, `qIdx`+1), holds `Some(oIdx)` at `qIdx`, keeps every other old entry and leaves any new entry before `qIdx` unset |
| `DailyQuiz.CopyAndSelect` | App.tsx:566-567 | copying the selection into a new array and writing one entry yields exactly `Selected` |
| `DailyQuiz.ScoreAfterSelect` | App.tsx:565-568 | a click changes the score only through the clicked question: by its old point lost and its new point (the option equals the key) gained; a click past the last question leaves the score alone |
| `DailyQuiz.AnsweredCount` | App.tsx:587 | the number of set entries is at most the selection's length |
| `DailyQuiz.SubmitEnabledAfterSelect` | App.tsx:584-586 | after a click, submission is enabled iff the old length was at least 5 or the clicked question index is at least 4 |
| `DailyQuiz.AnsweredCountAfterSelect` | App.tsx:565-568 | a click adds one set entry when it lands on an unset entry and none when it overwrites one |
| `DailyQuiz.SubmitEnabledWithOneAnswer` | App.tsx:584-587 | a single click on question index 4 enables submission while only 1 entry is set |
| `DailyQuiz.SubmitReadyIsStricter` | App.tsx:584-587 | the intended guard (at least 5 answered) implies the written one, and rejects the one-click selection |
| `DailyQuiz.QuizEngine.constructor` | App.tsx:42-65 | the initial state takes the stored quiz, user, board and result. When no board is stored, it uses the seed sorted by score alone, as App.tsx does: Aman, Sneha, Priya, Rahul, ordered by score but not by time. It starts with an empty selection |
| `DailyQuiz.QuizEngine.SelectOption` | App.tsx:565-569 | a click replaces the selection with `Selected(old selection, qIdx, oIdx)` and changes nothing else |
| `DailyQuiz.QuizEngine.SubmitQuiz` | App.tsx:286-320 | with no quiz or no user nothing changes. Otherwise the board becomes the old board plus the attempt, re-sorted. The attempt has the user's name, the selection exactly as submitted, the score and the question count. The board is in order and is a permutation of old plus attempt. The result has the user id, the same score, the question count, the date and the rank. The rank lies in [1, old length + 1], the attempt sits at position rank - 1, and the rank is 1 + the number of old entries that may precede the attempt |

## Left out

- Rendering, tabs, the splash and timer effects and the logo long-press timer: these are UI only.
- Reading and writing `localStorage` and `sessionStorage`, and `JSON.stringify`/`parse`. The stored quiz, user, board and result are constructor parameters. The writes after a submission are not modelled; the new board and result are the fields the store would receive.
- Quiz generation, chat, speech and audio: these call services whose code is not part of this model. The quiz arrives already formed.
- Simulated sign-up, sign-in and admin login, including the random user id and the password check.
- Clock and date handling: the submission time `now` is an integer in milliseconds, and the day `today` is an opaque string, both passed in. They stand in for `new Date().toISOString()` and the `substring(0, 10)` date key.
- Parsing of ISO-8601 strings: the seeded times are written as their millisecond values.
- The rank's conversion to a string: the rank is a `nat`.
- The top-10 slice of the board and the result screen: both only read state for display.
- `SubmitQuiz` does not check the submit guard, just as App.tsx does not. The guard belongs to the button, and a second submission on the same day is prevented only because the result screen replaces the quiz.

## Findings

| source | as written | input that shows it | evidently intended | confidence | as-written member | corrected member |
|---|---|---|---|---|---|---|
| App.tsx:57-62 | the seeded board is sorted by `b.score - a.score` alone | the seed itself: Sneha Rao (4, 10:05) stays ahead of Priya Das (4, 09:30) | the seed is in leaderboard order (score, then earlier time), as every submission leaves it; after the first submission the two swap places | medium, not executed | `Ranking.SeededLeaderboardUnsorted` | `Ranking.DefaultLeaderboardSorted` (with `Ranking.SeedOrderForgotten`: the two seeds give the same board after the first submission) |
| App.tsx:584-587 | submission is enabled when `quizSelection.length >= 5` | the one click on option 0 of the fifth question: the array becomes 5 long with one entry set, so the button is enabled and relabelled "Submit IQ Evaluation" although only 1 of 5 questions is answered (just before the click the label read "Finish all questions (0/5)") | enabled only when all questions are answered, as the label "Finish all questions" asks: at least 5 set entries, the count the label shows | medium, not executed | `DailyQuiz.SubmitEnabledWithOneAnswer` | `DailyQuiz.SubmitReadyIsStricter` on `DailyQuiz.SubmitReady` |
