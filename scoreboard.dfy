/**
 * The scoreboard page: the board sorted by points, highest first, the signed-in
 * student's rank in that order, and the badge shown for a rank.
 *
 * `Array.prototype.sort` is stable, so the sorted board is specified as the
 * stable descending sort: a permutation of the board, points never
 * increasing, and entries with equal points in board order. `SortByPoints`
 * is one such sort (insertion from the back), proved to have all three.
 */
module Scoreboard {
  import opened Wrappers
  import opened PicoTypes
  import opened Text
  import opened Lists
  import opened PicoLabStore

  /** Points never increase along the list. */
  predicate Descending(s: seq<ScoreboardEntry>) {
    forall i, j :: 0 <= i < j < |s| ==> s[i].points >= s[j].points
  }

  /** Places `e` after every entry with at least its points. */
  function InsertByPoints(s: seq<ScoreboardEntry>, e: ScoreboardEntry): seq<ScoreboardEntry>
    decreases |s|
  {
    if |s| == 0 then [e]
    else if s[|s| - 1].points >= e.points then s + [e]
    else InsertByPoints(s[..|s| - 1], e) + [s[|s| - 1]]
  }

  /** `[...scoreboard].sort((a, b) => b.points - a.points)` */
  function SortByPoints(board: seq<ScoreboardEntry>): seq<ScoreboardEntry>
    decreases |board|
  {
    if |board| == 0 then [] else InsertByPoints(SortByPoints(board[..|board| - 1]), board[|board| - 1])
  }

  /** The test "has exactly `p` points". */
  function HasPoints(p: int): ScoreboardEntry -> bool {
    (e: ScoreboardEntry) => e.points == p
  }

  lemma {:induction false} InsertPermutes(s: seq<ScoreboardEntry>, e: ScoreboardEntry)
    ensures multiset(InsertByPoints(s, e)) == multiset(s) + multiset{e}
    decreases |s|
  {
    if |s| > 0 && s[|s| - 1].points < e.points {
      var n := |s| - 1;
      InsertPermutes(s[..n], e);
      assert s == s[..n] + [s[n]];
    }
  }

  lemma {:induction false} InsertKeepsDescending(s: seq<ScoreboardEntry>, e: ScoreboardEntry)
    requires Descending(s)
    ensures Descending(InsertByPoints(s, e))
    decreases |s|
  {
    if |s| > 0 && s[|s| - 1].points < e.points {
      var n := |s| - 1;
      InsertKeepsDescending(s[..n], e);
      InsertKeepsBound(s[..n], e, s[n].points);
    }
  }

  /** A bound every entry and `e` meet is met by every entry after the insertion. */
  lemma {:induction false} InsertKeepsBound(s: seq<ScoreboardEntry>, e: ScoreboardEntry, b: int)
    requires forall k :: 0 <= k < |s| ==> s[k].points >= b
    requires e.points >= b
    ensures forall k :: 0 <= k < |InsertByPoints(s, e)| ==> InsertByPoints(s, e)[k].points >= b
    decreases |s|
  {
    if |s| > 0 && s[|s| - 1].points < e.points {
      InsertKeepsBound(s[..|s| - 1], e, b);
    }
  }

  /** The entries of `s` with points `p`. */
  function WithPoints(s: seq<ScoreboardEntry>, p: int): seq<ScoreboardEntry> {
    Filter(s, HasPoints(p))
  }

  /** Inserting into a descending list keeps the order of the entries with any given points. */
  lemma {:induction false} InsertStable(s: seq<ScoreboardEntry>, e: ScoreboardEntry, p: int)
    requires Descending(s)
    ensures WithPoints(InsertByPoints(s, e), p) == WithPoints(s, p) + (if e.points == p then [e] else [])
    decreases |s|
  {
    if |s| == 0 || s[|s| - 1].points >= e.points {
      assert InsertByPoints(s, e) == s + [e];
      FilterSnoc(s, e, HasPoints(p));
    } else {
      var n := |s| - 1;
      var init := s[..n];
      assert Descending(init) by {
        forall i, j | 0 <= i < j < |init| ensures init[i].points >= init[j].points {
          assert init[i] == s[i] && init[j] == s[j];
        }
      }
      InsertStable(init, e, p);
      InsertBehindLast(init, s[n], e, p);
      assert s == init + [s[n]];
    }
  }

  /** One step of `InsertStable`: `e` passes a last entry with fewer points. */
  lemma InsertBehindLast(init: seq<ScoreboardEntry>, last: ScoreboardEntry, e: ScoreboardEntry, p: int)
    requires last.points < e.points
    requires WithPoints(InsertByPoints(init, e), p) == WithPoints(init, p) + (if e.points == p then [e] else [])
    ensures WithPoints(InsertByPoints(init + [last], e), p) == WithPoints(init + [last], p) + (if e.points == p then [e] else [])
  {
    var s := init + [last];
    assert s[..|s| - 1] == init;
    var front := InsertByPoints(init, e);
    assert InsertByPoints(s, e) == front + [last];
    FilterSnoc(front, last, HasPoints(p));
    FilterSnoc(init, last, HasPoints(p));
    if e.points == p {
      // `last` has fewer points than `e`, so it is not kept.
      assert WithPoints(s, p) == WithPoints(init, p);
      assert WithPoints(InsertByPoints(s, e), p) == WithPoints(front, p);
    } else {
      var tail := if last.points == p then [last] else [];
      assert WithPoints(front, p) == WithPoints(init, p);
      assert WithPoints(s, p) == WithPoints(init, p) + tail;
      assert WithPoints(InsertByPoints(s, e), p) == WithPoints(init, p) + tail;
    }
  }

  /** The sorted board holds exactly the board's entries, as often as the board does. */
  lemma {:induction false} SortPermutes(board: seq<ScoreboardEntry>)
    ensures multiset(SortByPoints(board)) == multiset(board)
    decreases |board|
  {
    if |board| > 0 {
      var n := |board| - 1;
      SortPermutes(board[..n]);
      InsertPermutes(SortByPoints(board[..n]), board[n]);
      assert board == board[..n] + [board[n]];
    }
  }

  /** The sorted board never rises in points. */
  lemma {:induction false} SortDescending(board: seq<ScoreboardEntry>)
    ensures Descending(SortByPoints(board))
    decreases |board|
  {
    if |board| > 0 {
      SortDescending(board[..|board| - 1]);
      InsertKeepsDescending(SortByPoints(board[..|board| - 1]), board[|board| - 1]);
    }
  }

  /** The sort is stable: the entries with any given points come in board order. */
  lemma {:induction false} SortStable(board: seq<ScoreboardEntry>, p: int)
    ensures WithPoints(SortByPoints(board), p) == WithPoints(board, p)
    decreases |board|
  {
    if |board| > 0 {
      var n := |board| - 1;
      SortStable(board[..n], p);
      SortDescending(board[..n]);
      InsertStable(SortByPoints(board[..n]), board[n], p);
    }
  }

  /** `findIndex(s => s.studentCode === studentProfile?.code) + 1`: 0 when signed out or not on the board. */
  function Rank(sorted: seq<ScoreboardEntry>, profile: Option<StudentProfile>): (r: nat)
    ensures r <= |sorted|
    ensures r > 0 ==> (profile.Some? && sorted[r - 1].studentCode == profile.value.code
                       && forall j :: 0 <= j < r - 1 ==> sorted[j].studentCode != profile.value.code)
    ensures r == 0 <==> profile.None? || forall j :: 0 <= j < |sorted| ==> sorted[j].studentCode != profile.value.code
  {
    match profile
    case None => 0
    case Some(p) => FindEntry(sorted, p.code) + 1
  }

  /**
   * On the sorted board, every entry ranked ahead of the student has at least
   * their points, and every entry with more points is ranked ahead.
   */
  lemma RankByPoints(board: seq<ScoreboardEntry>, profile: Option<StudentProfile>)
    ensures var sorted := SortByPoints(board);
      var r := Rank(sorted, profile);
      r > 0 ==> (forall j :: 0 <= j < r - 1 ==> sorted[j].points >= sorted[r - 1].points)
                && (forall j :: 0 <= j < |sorted| && sorted[j].points > sorted[r - 1].points ==> j < r - 1)
  {
    SortDescending(board);
  }

  /** `#{currentUserRank || '-'}` */
  function RankText(rank: nat): string {
    "#" + if rank == 0 then "-" else Decimal(rank)
  }

  /** The badge `getRankIcon` draws. */
  datatype RankBadge = Crown | SilverMedal | BronzeMedal | Plain(rank: int)

  /** `getRankIcon(rank)`: the first three places get a crown and two medals, any other rank its number. */
  function RankIcon(rank: int): (b: RankBadge)
    ensures b.Plain? <==> rank !in {1, 2, 3}
    ensures b.Plain? ==> b.rank == rank
  {
    if rank == 1 then Crown
    else if rank == 2 then SilverMedal
    else if rank == 3 then BronzeMedal
    else Plain(rank)
  }

  /** The three podium badges are distinct. */
  lemma PodiumDistinct(a: int, b: int)
    requires a in {1, 2, 3} && b in {1, 2, 3} && a != b
    ensures RankIcon(a) != RankIcon(b)
  {
  }
}
