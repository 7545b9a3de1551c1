/**
 * Ordering the leaderboard of a day.
 *
 * App.tsx sorts with `Array.prototype.sort`, which is stable, under two
 * comparators: score only (the seeded board) and score then submission time
 * (every submission). A stable sort under a consistent comparator has exactly
 * one possible output, so the model fixes one stable algorithm, an insertion
 * sort that takes the elements left to right and moves each new one in front
 * of the elements that compare strictly greater than it.
 */
module Ranking {
  import opened QuizTypes

  /** The comparators App.tsx passes to `sort`. */
  datatype Order =
    | ByScore          // (a, b) => b.score - a.score
    | ByScoreThenTime  // higher score first, then earlier submission first

  /** The comparator's value: negative means `a` goes first, zero means a tie. */
  function Compare(o: Order, a: QuizAttempt, b: QuizAttempt): int
  {
    match o
    case ByScore => b.score - a.score
    case ByScoreThenTime =>
      if b.score != a.score then b.score - a.score else a.submittedAt - b.submittedAt
  }

  /** `a` may stand in front of `b`: the comparator does not put `b` first. */
  predicate Before(o: Order, a: QuizAttempt, b: QuizAttempt)
  {
    Compare(o, a, b) <= 0
  }

  /** The leaderboard rule in words: higher score first, ties by earlier submission. */
  lemma ScoreThenTimeRule(a: QuizAttempt, b: QuizAttempt)
    ensures Before(ByScoreThenTime, a, b) <==>
            a.score > b.score || (a.score == b.score && a.submittedAt <= b.submittedAt)
    ensures Before(ByScore, a, b) <==> a.score >= b.score
  {
  }

  /** Both comparators are consistent: antisymmetric in sign, total and transitive. */
  lemma CompareConsistent(o: Order, a: QuizAttempt, b: QuizAttempt, c: QuizAttempt)
    ensures Compare(o, a, b) == -Compare(o, b, a)
    ensures Before(o, a, b) || Before(o, b, a)
    ensures Before(o, a, b) && Before(o, b, c) ==> Before(o, a, c)
  {
  }

  /** Every entry may stand in front of every later entry. */
  ghost predicate Sorted(o: Order, s: seq<QuizAttempt>)
  {
    forall i, j :: 0 <= i < j < |s| ==> Before(o, s[i], s[j])
  }

  /** Every entry may stand in front of the next one. */
  ghost predicate AdjacentSorted(o: Order, s: seq<QuizAttempt>)
  {
    forall i :: 0 <= i < |s| - 1 ==> Before(o, s[i], s[i + 1])
  }

  /** The adjacent-pair rule and the all-pairs rule say the same thing. */
  lemma {:induction false} SortedIffAdjacent(o: Order, s: seq<QuizAttempt>)
    ensures Sorted(o, s) <==> AdjacentSorted(o, s)
  {
    if AdjacentSorted(o, s) && |s| > 1 {
      var t := s[1..];
      assert AdjacentSorted(o, t) by {
        forall i | 0 <= i < |t| - 1 ensures Before(o, t[i], t[i + 1]) {
          assert t[i] == s[i + 1] && t[i + 1] == s[i + 2];
        }
      }
      SortedIffAdjacent(o, t);
      forall i, j | 0 <= i < j < |s| ensures Before(o, s[i], s[j]) {
        if i > 0 {
          assert s[i] == t[i - 1] && s[j] == t[j - 1];
        } else if j > 1 {
          assert s[1] == t[0] && s[j] == t[j - 1];
          CompareConsistent(o, s[0], s[1], s[j]);
        }
      }
    }
  }

  /** Where `Insert` puts `x`: past every entry from the right that compares strictly greater. */
  function InsertPos(o: Order, s: seq<QuizAttempt>, x: QuizAttempt): (p: nat)
    ensures p <= |s|
  {
    if |s| == 0 then 0
    else if Compare(o, s[|s| - 1], x) > 0 then InsertPos(o, s[..|s| - 1], x)
    else |s|
  }

  /** One step of the insertion sort: `x` moves left past the entries it beats. */
  function Insert(o: Order, s: seq<QuizAttempt>, x: QuizAttempt): (r: seq<QuizAttempt>)
    ensures |r| == |s| + 1
  {
    if |s| == 0 then [x]
    else if Compare(o, s[|s| - 1], x) > 0 then Insert(o, s[..|s| - 1], x) + [s[|s| - 1]]
    else s + [x]
  }

  /** The stable sort of `s` under the comparator `o`. */
  function SortBoard(o: Order, s: seq<QuizAttempt>): seq<QuizAttempt>
  {
    if |s| == 0 then [] else Insert(o, SortBoard(o, s[..|s| - 1]), s[|s| - 1])
  }

  /** Sorting a list with one entry appended inserts that entry into the sorted rest. */
  lemma SortBoardAppend(o: Order, s: seq<QuizAttempt>, x: QuizAttempt)
    ensures SortBoard(o, s + [x]) == Insert(o, SortBoard(o, s), x)
  {
    assert (s + [x])[..|s|] == s;
  }

  /**
   * `Insert` splits `s` at `InsertPos`: the entries left of `x` are kept in
   * order, the one just left of it may stand in front of it, and every entry
   * right of it compares strictly greater than it.
   */
  lemma {:induction false} InsertShape(o: Order, s: seq<QuizAttempt>, x: QuizAttempt)
    ensures Insert(o, s, x) == s[..InsertPos(o, s, x)] + [x] + s[InsertPos(o, s, x)..]
    ensures InsertPos(o, s, x) > 0 ==> Before(o, s[InsertPos(o, s, x) - 1], x)
    ensures forall i :: InsertPos(o, s, x) <= i < |s| ==> !Before(o, s[i], x)
  {
    if |s| > 0 && Compare(o, s[|s| - 1], x) > 0 {
      var init := s[..|s| - 1];
      var p := InsertPos(o, init, x);
      InsertShape(o, init, x);
      assert init[..p] == s[..p];
      assert init[p..] + [s[|s| - 1]] == s[p..];
    }
  }

  /** Inserting into a sorted list keeps it sorted. */
  lemma InsertSorted(o: Order, s: seq<QuizAttempt>, x: QuizAttempt)
    requires Sorted(o, s)
    ensures Sorted(o, Insert(o, s, x))
  {
    var p := InsertPos(o, s, x);
    InsertShape(o, s, x);
    var r := Insert(o, s, x);
    forall i, j | 0 <= i < j < |r| ensures Before(o, r[i], r[j]) {
      if i < p && j == p {
        CompareConsistent(o, s[i], s[p - 1], x);
      } else if i == p && j > p {
        CompareConsistent(o, x, s[j - 1], x);
      } else if i < p && j > p {
        assert r[i] == s[i] && r[j] == s[j - 1];
      } else if i > p {
        assert r[i] == s[i - 1] && r[j] == s[j - 1];
      }
    }
  }

  /** The sort's output is ordered under its comparator. */
  lemma {:induction false} SortBoardSorted(o: Order, s: seq<QuizAttempt>)
    ensures Sorted(o, SortBoard(o, s))
  {
    if |s| > 0 {
      SortBoardSorted(o, s[..|s| - 1]);
      InsertSorted(o, SortBoard(o, s[..|s| - 1]), s[|s| - 1]);
    }
  }

  /** Insertion adds exactly `x` and drops nothing. */
  lemma InsertPermutation(o: Order, s: seq<QuizAttempt>, x: QuizAttempt)
    ensures multiset(Insert(o, s, x)) == multiset(s) + multiset{x}
  {
    InsertShape(o, s, x);
    var p := InsertPos(o, s, x);
    assert s == s[..p] + s[p..];
  }

  /** The sort's output holds exactly the entries of its input, no more and no fewer. */
  lemma {:induction false} SortBoardPermutation(o: Order, s: seq<QuizAttempt>)
    ensures multiset(SortBoard(o, s)) == multiset(s)
    ensures |SortBoard(o, s)| == |s|
  {
    if |s| > 0 {
      var init := s[..|s| - 1];
      SortBoardPermutation(o, init);
      InsertPermutation(o, SortBoard(o, init), s[|s| - 1]);
      assert s == init + [s[|s| - 1]];
    }
    assert |multiset(SortBoard(o, s))| == |SortBoard(o, s)|;
  }

  /** Sorting a list that is already in order changes nothing. */
  lemma {:induction false} SortBoardOfSorted(o: Order, s: seq<QuizAttempt>)
    requires Sorted(o, s)
    ensures SortBoard(o, s) == s
  {
    if |s| > 0 {
      var init := s[..|s| - 1];
      assert Sorted(o, init);
      SortBoardOfSorted(o, init);
      if |init| > 0 {
        assert Before(o, init[|init| - 1], s[|s| - 1]);
      }
      assert init + [s[|s| - 1]] == s;
    }
  }

  /** `[y]` when `y` ties with `x` under the comparator, `[]` otherwise. */
  function TieOf(o: Order, y: QuizAttempt, x: QuizAttempt): seq<QuizAttempt>
  {
    if Compare(o, y, x) == 0 then [y] else []
  }

  /** The entries of `s` that tie with `x` under the comparator, in their order in `s`. */
  function Ties(o: Order, s: seq<QuizAttempt>, x: QuizAttempt): (r: seq<QuizAttempt>)
    ensures |r| <= |s|
  {
    if |s| == 0 then [] else Ties(o, s[..|s| - 1], x) + TieOf(o, s[|s| - 1], x)
  }

  lemma TiesSnoc(o: Order, s: seq<QuizAttempt>, e: QuizAttempt, x: QuizAttempt)
    ensures Ties(o, s + [e], x) == Ties(o, s, x) + TieOf(o, e, x)
  {
    assert (s + [e])[..|s|] == s;
  }

  /** An entry that compares strictly greater than `y` cannot tie with `x` when `y` does. */
  lemma TieOfCommute(o: Order, last: QuizAttempt, y: QuizAttempt, x: QuizAttempt)
    requires Compare(o, last, y) > 0
    ensures TieOf(o, y, x) + TieOf(o, last, x) == TieOf(o, last, x) + TieOf(o, y, x)
  {
    CompareConsistent(o, last, x, y);
    CompareConsistent(o, x, y, last);
  }

  /** The step of `TiesInsert` where `y` moves left past the last entry `last`. */
  lemma TiesPastLast(o: Order, init: seq<QuizAttempt>, last: QuizAttempt, r: seq<QuizAttempt>,
                     y: QuizAttempt, x: QuizAttempt)
    requires Compare(o, last, y) > 0
    requires Ties(o, r, x) == Ties(o, init, x) + TieOf(o, y, x)
    ensures Ties(o, r + [last], x) == Ties(o, init + [last], x) + TieOf(o, y, x)
  {
    TiesSnoc(o, r, last, x);
    TiesSnoc(o, init, last, x);
    TieOfCommute(o, last, y, x);
    var a, b, c := Ties(o, init, x), TieOf(o, y, x), TieOf(o, last, x);
    assert (a + b) + c == a + (b + c) && (a + c) + b == a + (c + b);
  }

  /** Inserting `y` appends it to the ties of `x` when it ties with `x`, behind the earlier ones. */
  lemma {:induction false} TiesInsert(o: Order, t: seq<QuizAttempt>, y: QuizAttempt, x: QuizAttempt)
    ensures Ties(o, Insert(o, t, y), x) == Ties(o, t, x) + TieOf(o, y, x)
  {
    if |t| == 0 {
      assert Insert(o, t, y) == t + [y];
      TiesSnoc(o, t, y, x);
    } else if Compare(o, t[|t| - 1], y) > 0 {
      var init, last := t[..|t| - 1], t[|t| - 1];
      TiesInsert(o, init, y, x);
      assert t == init + [last];
      TiesPastLast(o, init, last, Insert(o, init, y), y, x);
    } else {
      assert Insert(o, t, y) == t + [y];
      TiesSnoc(o, t, y, x);
    }
  }

  /**
   * Stability: for every attempt `x`, the entries that tie with it leave the
   * sort in the order they entered it.
   */
  lemma {:induction false} TiesSortBoard(o: Order, s: seq<QuizAttempt>, x: QuizAttempt)
    ensures Ties(o, SortBoard(o, s), x) == Ties(o, s, x)
  {
    if |s| > 0 {
      TiesSortBoard(o, s[..|s| - 1], x);
      TiesInsert(o, SortBoard(o, s[..|s| - 1]), s[|s| - 1], x);
    }
  }

  /** The number of entries of `s` that may stand in front of `x`. */
  function CountBefore(o: Order, s: seq<QuizAttempt>, x: QuizAttempt): (n: nat)
    ensures n <= |s|
  {
    if |s| == 0 then 0
    else CountBefore(o, s[..|s| - 1], x) + (if Before(o, s[|s| - 1], x) then 1 else 0)
  }

  /** Inserting `y` adds one to the count exactly when `y` may stand in front of `x`. */
  lemma {:induction false} CountBeforeInsert(o: Order, t: seq<QuizAttempt>, y: QuizAttempt, x: QuizAttempt)
    ensures CountBefore(o, Insert(o, t, y), x) == CountBefore(o, t, x) + (if Before(o, y, x) then 1 else 0)
  {
    if |t| == 0 {
      assert [y][..0] == [];
    } else if Compare(o, t[|t| - 1], y) > 0 {
      var init := t[..|t| - 1];
      var r := Insert(o, init, y);
      CountBeforeInsert(o, init, y, x);
      assert (r + [t[|t| - 1]])[..|r|] == r;
    } else {
      assert (t + [y])[..|t|] == t;
    }
  }

  /** Sorting does not change how many entries may stand in front of `x`. */
  lemma {:induction false} CountBeforeSortBoard(o: Order, s: seq<QuizAttempt>, x: QuizAttempt)
    ensures CountBefore(o, SortBoard(o, s), x) == CountBefore(o, s, x)
  {
    if |s| > 0 {
      var init := s[..|s| - 1];
      CountBeforeSortBoard(o, init, x);
      CountBeforeInsert(o, SortBoard(o, init), s[|s| - 1], x);
    }
  }

  /** When every entry of `s` may stand in front of `x`, they all count. */
  lemma {:induction false} CountBeforeAll(o: Order, s: seq<QuizAttempt>, x: QuizAttempt)
    requires forall i :: 0 <= i < |s| ==> Before(o, s[i], x)
    ensures CountBefore(o, s, x) == |s|
  {
    if |s| > 0 {
      CountBeforeAll(o, s[..|s| - 1], x);
    }
  }

  /** In a sorted list, `x` is inserted right after the entries that may stand in front of it. */
  lemma {:induction false} InsertPosCounts(o: Order, s: seq<QuizAttempt>, x: QuizAttempt)
    requires Sorted(o, s)
    ensures InsertPos(o, s, x) == CountBefore(o, s, x)
  {
    if |s| > 0 {
      var init := s[..|s| - 1];
      assert Sorted(o, init);
      if Compare(o, s[|s| - 1], x) > 0 {
        InsertPosCounts(o, init, x);
      } else {
        forall i | 0 <= i < |init| ensures Before(o, init[i], x) {
          CompareConsistent(o, init[i], s[|s| - 1], x);
        }
        CountBeforeAll(o, init, x);
      }
    }
  }

  /**
   * In a sorted list, the inserted `x` sits at `InsertPos`, behind entries that
   * may stand in front of it and in front of entries that may not.
   */
  lemma InsertRank(o: Order, t: seq<QuizAttempt>, x: QuizAttempt)
    requires Sorted(o, t)
    ensures Insert(o, t, x)[InsertPos(o, t, x)] == x
    ensures forall i :: 0 <= i < InsertPos(o, t, x) ==> Before(o, Insert(o, t, x)[i], x)
    ensures forall i :: InsertPos(o, t, x) < i < |Insert(o, t, x)| ==> !Before(o, Insert(o, t, x)[i], x)
  {
    var p := InsertPos(o, t, x);
    var r := Insert(o, t, x);
    InsertShape(o, t, x);
    forall i | 0 <= i < p ensures Before(o, r[i], x) {
      assert r[i] == t[i];
      CompareConsistent(o, t[i], t[p - 1], x);
    }
    forall i | p < i < |r| ensures !Before(o, r[i], x) {
      assert r[i] == t[i - 1];
    }
  }

  /** The leaderboard after appending `a` to `board` and re-sorting by score then time. */
  function Resorted(board: seq<QuizAttempt>, a: QuizAttempt): seq<QuizAttempt>
  {
    SortBoard(ByScoreThenTime, board + [a])
  }

  /**
   * The 0-based position of the appended attempt in `Resorted(board, a)`.
   * App.tsx finds it with `indexOf`, which compares object references; the
   * attempt is a fresh object, so it finds the slot where the sort put that
   * object, which is where the last insertion step puts it.
   */
  function RankIndex(board: seq<QuizAttempt>, a: QuizAttempt): nat
  {
    InsertPos(ByScoreThenTime, SortBoard(ByScoreThenTime, board), a)
  }

  /**
   * What one submission does to the board: one more entry, the old entries
   * plus the attempt and nothing else, in leaderboard order, with the attempt
   * behind every old entry that may stand in front of it (a higher score, or
   * the same score submitted no later) and in front of all the others.
   */
  lemma Submitted(board: seq<QuizAttempt>, a: QuizAttempt)
    ensures |Resorted(board, a)| == |board| + 1
    ensures multiset(Resorted(board, a)) == multiset(board) + multiset{a}
    ensures Sorted(ByScoreThenTime, Resorted(board, a))
    ensures RankIndex(board, a) == CountBefore(ByScoreThenTime, board, a) <= |board|
    ensures Resorted(board, a)[RankIndex(board, a)] == a
    ensures forall i :: 0 <= i < RankIndex(board, a) ==>
              Before(ByScoreThenTime, Resorted(board, a)[i], a)
    ensures forall i :: RankIndex(board, a) < i < |Resorted(board, a)| ==>
              !Before(ByScoreThenTime, Resorted(board, a)[i], a)
  {
    var o := ByScoreThenTime;
    var t := SortBoard(o, board);
    SortBoardAppend(o, board, a);
    SortBoardPermutation(o, board + [a]);
    SortBoardSorted(o, board + [a]);
    SortBoardSorted(o, board);
    SortBoardPermutation(o, board);
    InsertRank(o, t, a);
    InsertPosCounts(o, t, a);
    CountBeforeSortBoard(o, board, a);
  }

  // The seeded board, used when nothing is stored for the day. Times are the
  // milliseconds of 2024-05-20T10:00Z, 10:05Z, 11:00Z and 09:30Z.

  function Aman(): QuizAttempt { QuizAttempt("Aman Verma", [], 5, 5, 1716199200000) }
  function Sneha(): QuizAttempt { QuizAttempt("Sneha Rao", [], 4, 5, 1716199500000) }
  function Rahul(): QuizAttempt { QuizAttempt("Rahul Singh", [], 3, 5, 1716202800000) }
  function Priya(): QuizAttempt { QuizAttempt("Priya Das", [], 4, 5, 1716197400000) }

  /** The seed entries in the order they are written. */
  function SeedEntries(): seq<QuizAttempt> { [Aman(), Sneha(), Rahul(), Priya()] }

  /** The seeded board as written: the seed sorted by score alone. */
  function SeededLeaderboard(): seq<QuizAttempt>
  {
    SortBoard(ByScore, SeedEntries())
  }

  /**
   * As written, the seeded board keeps Sneha (10:05) in front of Priya (09:30)
   * although both scored 4, so it breaks the leaderboard order that every
   * submission restores.
   */
  lemma SeededLeaderboardUnsorted()
    ensures SeededLeaderboard() == [Aman(), Sneha(), Priya(), Rahul()]
    ensures Sorted(ByScore, SeededLeaderboard())
    ensures !Sorted(ByScoreThenTime, SeededLeaderboard())
  {
    var o := ByScore;
    SortBoardOfFour(o, Aman(), Sneha(), Rahul(), Priya());
    assert Insert(o, [Aman(), Sneha()], Rahul()) == [Aman(), Sneha(), Rahul()];
    assert Insert(o, [Aman(), Sneha()], Priya()) == [Aman(), Sneha(), Priya()];
    assert Insert(o, [Aman(), Sneha(), Rahul()], Priya()) == [Aman(), Sneha(), Priya(), Rahul()];
    SortBoardSorted(o, SeedEntries());
    var r := SeededLeaderboard();
    assert r[1] == Sneha() && r[2] == Priya();
    assert !Before(ByScoreThenTime, r[1], r[2]);
  }

  /** A board of four entries sorts one entry at a time, in the order they are written. */
  lemma SortBoardOfFour(o: Order, a: QuizAttempt, b: QuizAttempt, c: QuizAttempt, d: QuizAttempt)
    ensures SortBoard(o, [a, b, c, d]) == Insert(o, Insert(o, Insert(o, [a], b), c), d)
  {
    var s0: seq<QuizAttempt> := [];
    var s1 := s0 + [a];
    var s2 := s1 + [b];
    var s3 := s2 + [c];
    assert [a, b, c, d] == s3 + [d];
    assert s1 == [a];
    SortBoardAppend(o, s0, a);
    SortBoardAppend(o, s1, b);
    SortBoardAppend(o, s2, c);
    SortBoardAppend(o, s3, d);
  }

  /** The seeded board sorted with the leaderboard comparator. */
  function DefaultLeaderboard(): seq<QuizAttempt>
  {
    SortBoard(ByScoreThenTime, SeedEntries())
  }

  /** The corrected seed puts Priya (09:30) in front of Sneha (10:05) and is in leaderboard order. */
  lemma DefaultLeaderboardSorted()
    ensures DefaultLeaderboard() == [Aman(), Priya(), Sneha(), Rahul()]
    ensures Sorted(ByScoreThenTime, DefaultLeaderboard())
  {
    var o := ByScoreThenTime;
    SortBoardOfFour(o, Aman(), Sneha(), Rahul(), Priya());
    assert Insert(o, [Aman(), Sneha()], Rahul()) == [Aman(), Sneha(), Rahul()];
    assert Insert(o, [Aman()], Priya()) == [Aman(), Priya()];
    assert Insert(o, [Aman(), Sneha()], Priya()) == [Aman(), Priya(), Sneha()];
    assert Insert(o, [Aman(), Sneha(), Rahul()], Priya()) == [Aman(), Priya(), Sneha(), Rahul()];
    SortBoardSorted(o, SeedEntries());
  }

  /** The seeded board as written, sorted with the leaderboard comparator, is the corrected seed. */
  lemma ResortedSeed()
    ensures SortBoard(ByScoreThenTime, SeededLeaderboard()) == DefaultLeaderboard()
  {
    var o := ByScoreThenTime;
    SeededLeaderboardUnsorted();
    DefaultLeaderboardSorted();
    SortBoardOfFour(o, Aman(), Sneha(), Priya(), Rahul());
    assert Insert(o, [Aman()], Sneha()) == [Aman(), Sneha()];
    assert Insert(o, [Aman()], Priya()) == [Aman(), Priya()];
    assert Insert(o, [Aman(), Sneha()], Priya()) == [Aman(), Priya(), Sneha()];
    assert Insert(o, [Aman(), Priya(), Sneha()], Rahul()) == [Aman(), Priya(), Sneha(), Rahul()];
  }

  /**
   * The seed's order stops mattering at the first submission: the board after
   * it is the same whether the seed was sorted as written or as corrected.
   */
  lemma SeedOrderForgotten(a: QuizAttempt)
    ensures Resorted(SeededLeaderboard(), a) == Resorted(DefaultLeaderboard(), a)
  {
    var o := ByScoreThenTime;
    ResortedSeed();
    DefaultLeaderboardSorted();
    SortBoardOfSorted(o, DefaultLeaderboard());
    SortBoardAppend(o, SeededLeaderboard(), a);
    SortBoardAppend(o, DefaultLeaderboard(), a);
  }
}
