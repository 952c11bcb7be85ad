/**
  The live ranking (gemini-quiz-master/components/LiveLeaderboard.tsx): a copy
  of the roster sorted with the comparator "score descending, then
  currentQuestionIndex descending". `Array.prototype.sort` is stable, so
  players with equal keys keep their roster order; `SortedPlayers` is a
  stable insertion sort, and the lemmas show that its result is the one
  output that is sorted, a permutation of the roster, and stable.
 */
module Leaderboard {
  import opened QuizTypes

  /** `b.score - a.score || b.currentQuestionIndex - a.currentQuestionIndex`:
      negative when `a` ranks above `b`. */
  function Compare(a: Player, b: Player): (c: int)
    ensures c < 0 <==> a.score > b.score || (a.score == b.score && a.currentQuestionIndex > b.currentQuestionIndex)
    ensures c == 0 <==> a.score == b.score && a.currentQuestionIndex == b.currentQuestionIndex
  {
    var byScore := b.score - a.score;
    if byScore != 0 then byScore else b.currentQuestionIndex - a.currentQuestionIndex
  }

  /** What `Compare(a, b) <= 0` means: `a` may be listed before `b`. */
  lemma CompareMeaning(a: Player, b: Player)
    ensures Compare(a, b) <= 0 <==>
      a.score > b.score || (a.score == b.score && a.currentQuestionIndex >= b.currentQuestionIndex)
    ensures Compare(a, b) == -Compare(b, a)
  {
  }

  lemma CompareTransitive(a: Player, b: Player, c: Player)
    requires Compare(a, b) <= 0 && Compare(b, c) <= 0
    ensures Compare(a, c) <= 0
  {
  }

  predicate Sorted(s: seq<Player>)
  {
    forall i, j :: 0 <= i < j < |s| ==> Compare(s[i], s[j]) <= 0
  }

  /** The sort key: players with equal keys compare as 0. */
  function Key(p: Player): (int, int)
  {
    (p.score, p.currentQuestionIndex)
  }

  /** The players of `s` with key `k`, in their order in `s`. */
  function WithKey(s: seq<Player>, k: (int, int)): seq<Player>
  {
    if s == [] then [] else (if Key(s[0]) == k then [s[0]] else []) + WithKey(s[1..], k)
  }

  lemma SortedTail(s: seq<Player>)
    requires s != [] && Sorted(s)
    ensures Sorted(s[1..])
  {
    forall i, j | 0 <= i < j < |s[1..]| ensures Compare(s[1..][i], s[1..][j]) <= 0 {
      assert s[1..][i] == s[i + 1] && s[1..][j] == s[j + 1];
    }
  }

  /** A sorted sequence stays sorted when an element that may precede all of it is put in front. */
  lemma SortedCons(x: Player, s: seq<Player>)
    requires Sorted(s)
    requires forall j :: 0 <= j < |s| ==> Compare(x, s[j]) <= 0
    ensures Sorted([x] + s)
  {
    forall i, j | 0 <= i < j < |[x] + s| ensures Compare(([x] + s)[i], ([x] + s)[j]) <= 0 {
      if i > 0 {
        assert ([x] + s)[i] == s[i - 1] && ([x] + s)[j] == s[j - 1];
      } else {
        assert ([x] + s)[j] == s[j - 1];
      }
    }
  }

  /** Insert `p` after the players that rank strictly above it and before all others. */
  function Insert(p: Player, s: seq<Player>): (r: seq<Player>)
    ensures multiset(r) == multiset(s) + multiset{p}
  {
    if s == [] then [p]
    else if Compare(s[0], p) < 0 then
      assert s == [s[0]] + s[1..];
      [s[0]] + Insert(p, s[1..])
    else [p] + s
  }

  lemma {:induction false} InsertSorted(p: Player, s: seq<Player>)
    requires Sorted(s)
    ensures Sorted(Insert(p, s))
  {
    if s != [] {
      if Compare(s[0], p) < 0 {
        var rest := Insert(p, s[1..]);
        SortedTail(s);
        InsertSorted(p, s[1..]);
        forall j | 0 <= j < |rest| ensures Compare(s[0], rest[j]) <= 0 {
          var x := rest[j];
          assert x in multiset(rest);
          if x != p {
            assert x in multiset(s[1..]);
            var k :| 0 <= k < |s[1..]| && s[1..][k] == x;
            assert s[k + 1] == x;
          }
        }
        SortedCons(s[0], rest);
      } else {
        forall j | 0 <= j < |s| ensures Compare(p, s[j]) <= 0 {
          CompareMeaning(s[0], p);
          if j > 0 {
            CompareTransitive(p, s[0], s[j]);
          }
        }
        SortedCons(p, s);
      }
    }
  }

  /** `[...players].sort(Compare)`. */
  function SortedPlayers(players: seq<Player>): (r: seq<Player>)
    ensures multiset(r) == multiset(players)
    ensures Sorted(r)
  {
    if players == [] then []
    else
      var rest := SortedPlayers(players[1..]);
      assert players == [players[0]] + players[1..];
      InsertSorted(players[0], rest);
      Insert(players[0], rest)
  }

  /** Along the ranking, scores never increase, and among equal scores the
      question index never increases. */
  lemma RankingOrder(players: seq<Player>, i: nat, j: nat)
    requires i < j < |SortedPlayers(players)|
    ensures SortedPlayers(players)[i].score >= SortedPlayers(players)[j].score
    ensures SortedPlayers(players)[i].score == SortedPlayers(players)[j].score ==>
      SortedPlayers(players)[i].currentQuestionIndex >= SortedPlayers(players)[j].currentQuestionIndex
  {
    CompareMeaning(SortedPlayers(players)[i], SortedPlayers(players)[j]);
  }

  /** The ranking lists exactly the roster's players, each as often as in the roster. */
  lemma RankingIsPermutation(players: seq<Player>)
    ensures |SortedPlayers(players)| == |players|
    ensures forall p :: p in SortedPlayers(players) <==> p in players
  {
    var r := SortedPlayers(players);
    assert |multiset(r)| == |multiset(players)|;
    forall p ensures p in r <==> p in players {
      assert p in r <==> p in multiset(r);
      assert p in players <==> p in multiset(players);
    }
  }

  /** The player shown at rank 1 (position 0, shown as `idx + 1`) has the highest score. */
  lemma FirstRankHasTopScore(players: seq<Player>, p: Player)
    requires p in players
    ensures |SortedPlayers(players)| > 0
    ensures SortedPlayers(players)[0].score >= p.score
  {
    var r := SortedPlayers(players);
    RankingIsPermutation(players);
    var k :| 0 <= k < |r| && r[k] == p;
    if k > 0 {
      RankingOrder(players, 0, k);
    }
  }

  // ---------------------------------------------------------------------------
  // Stability

  lemma {:induction false} InsertWithOwnKey(p: Player, s: seq<Player>)
    ensures WithKey(Insert(p, s), Key(p)) == [p] + WithKey(s, Key(p))
  {
    if s != [] {
      if Compare(s[0], p) < 0 {
        var rest := Insert(p, s[1..]);
        assert ([s[0]] + rest)[1..] == rest;
        InsertWithOwnKey(p, s[1..]);
      } else {
        assert ([p] + s)[1..] == s;
      }
    }
  }

  lemma {:induction false} InsertWithOtherKey(p: Player, s: seq<Player>, k: (int, int))
    requires Key(p) != k
    ensures WithKey(Insert(p, s), k) == WithKey(s, k)
  {
    if s == [] {
      assert WithKey([p], k) == WithKey([], k);
    } else if Compare(s[0], p) < 0 {
      var rest := Insert(p, s[1..]);
      assert ([s[0]] + rest)[1..] == rest;
      InsertWithOtherKey(p, s[1..], k);
    } else {
      assert ([p] + s)[1..] == s;
    }
  }

  /** Stability: players with equal score and index appear in roster order. */
  lemma {:induction false} RankingIsStable(players: seq<Player>, k: (int, int))
    ensures WithKey(SortedPlayers(players), k) == WithKey(players, k)
  {
    if players != [] {
      var rest := SortedPlayers(players[1..]);
      RankingIsStable(players[1..], k);
      if Key(players[0]) == k {
        InsertWithOwnKey(players[0], rest);
      } else {
        InsertWithOtherKey(players[0], rest, k);
      }
    }
  }

  /** A roster that is already in ranking order is listed as it is. */
  lemma {:induction false} SortedRosterUnchanged(players: seq<Player>)
    requires Sorted(players)
    ensures SortedPlayers(players) == players
  {
    if players != [] {
      SortedTail(players);
      SortedRosterUnchanged(players[1..]);
      var rest := players[1..];
      if rest != [] {
        assert Compare(players[0], rest[0]) <= 0;
        CompareMeaning(rest[0], players[0]);
      }
      assert Insert(players[0], rest) == [players[0]] + rest;
      assert players == [players[0]] + rest;
    }
  }
}
