/**
 Squad strength (`compute_player_stats`, app.py:75-84): each fetched squad member is looked up in
 the career maps, members with a positive combined score are listed in squad order, and the
 strength is the sum of their scores.
 */
module Squad {
  import opened Counts

  /** One row of the per-team table shown with a prediction. */
  datatype PlayerStat = PlayerStat(player: string, runs: nat, wickets: nat, total: nat)

  /** The pair `(total, stats)` that `compute_player_stats` returns. */
  datatype Strength = Strength(total: nat, stats: seq<PlayerStat>)

  /** Combined score of a player: career runs plus career wickets, unknown names counting 0. */
  function Score(name: string, runs: map<string, nat>, wickets: map<string, nat>): nat
  {
    GetOrZero(runs, name) + GetOrZero(wickets, name)
  }

  /** Sum of the `total` fields of a table. */
  function SumTotals(stats: seq<PlayerStat>): nat
  {
    if |stats| == 0 then 0 else SumTotals(stats[..|stats| - 1]) + stats[|stats| - 1].total
  }

  /** Reference definition: the combined scores of every squad member, zero scores included. */
  function SumScores(players: seq<string>, runs: map<string, nat>, wickets: map<string, nat>): nat
  {
    if |players| == 0 then 0 else Score(players[0], runs, wickets) + SumScores(players[1..], runs, wickets)
  }

  /** A row is the player's own career figures, and its total is positive. */
  predicate RowMatchesCareer(e: PlayerStat, runs: map<string, nat>, wickets: map<string, nat>)
  {
    && e.runs == GetOrZero(runs, e.player)
    && e.wickets == GetOrZero(wickets, e.player)
    && e.total == e.runs + e.wickets
    && e.total > 0
  }

  /** One iteration of the source's loop: a scoring player adds a row and their score. */
  function Extend(prev: Strength, name: string, runs: map<string, nat>, wickets: map<string, nat>)
    : Strength
  {
    var rn, wk := GetOrZero(runs, name), GetOrZero(wickets, name);
    if rn + wk > 0 then Strength(prev.total + rn + wk, prev.stats + [PlayerStat(name, rn, wk, rn + wk)])
    else prev
  }

  /** `compute_player_stats(players)` against the career maps `runs` and `wickets`. */
  function ComputePlayerStats(players: seq<string>, runs: map<string, nat>, wickets: map<string, nat>)
    : (r: Strength)
    ensures r.total == SumTotals(r.stats)
    ensures forall i :: 0 <= i < |r.stats| ==> RowMatchesCareer(r.stats[i], runs, wickets)
    ensures |r.stats| <= |players|
    ensures players == [] ==> r == Strength(0, [])
  {
    if |players| == 0 then Strength(0, [])
    else
      var prev := ComputePlayerStats(players[..|players| - 1], runs, wickets);
      Extend(prev, players[|players| - 1], runs, wickets)
  }

  lemma Unfold(players: seq<string>, runs: map<string, nat>, wickets: map<string, nat>)
    requires |players| > 0
    ensures ComputePlayerStats(players, runs, wickets)
      == Extend(ComputePlayerStats(players[..|players| - 1], runs, wickets), players[|players| - 1], runs, wickets)
  {
  }

  /** Extending a table that has rows in front extends only its tail. */
  lemma ExtendBehind(front: Strength, back: Strength, name: string,
                     runs: map<string, nat>, wickets: map<string, nat>)
    ensures var e := Extend(back, name, runs, wickets);
      Extend(Strength(front.total + back.total, front.stats + back.stats), name, runs, wickets)
        == Strength(front.total + e.total, front.stats + e.stats)
  {
  }

  /**
   The squad's table and strength are those of its two halves put together: entries keep
   the squad's order and the strength is additive.
   */
  lemma {:induction false} ComputePlayerStatsAppend(a: seq<string>, b: seq<string>,
                                                    runs: map<string, nat>, wickets: map<string, nat>)
    ensures var ra, rb := ComputePlayerStats(a, runs, wickets), ComputePlayerStats(b, runs, wickets);
      ComputePlayerStats(a + b, runs, wickets) == Strength(ra.total + rb.total, ra.stats + rb.stats)
    decreases |b|
  {
    var ra := ComputePlayerStats(a, runs, wickets);
    if |b| == 0 {
      assert a + b == a;
      assert ra.stats + [] == ra.stats;
    } else {
      var b', name := b[..|b| - 1], b[|b| - 1];
      var ab := a + b;
      assert ab[..|ab| - 1] == a + b';
      assert ab[|ab| - 1] == name;
      ComputePlayerStatsAppend(a, b', runs, wickets);
      var rb' := ComputePlayerStats(b', runs, wickets);
      var joined := Strength(ra.total + rb'.total, ra.stats + rb'.stats);
      assert ComputePlayerStats(a + b', runs, wickets) == joined;
      Unfold(ab, runs, wickets);
      assert ComputePlayerStats(ab, runs, wickets) == Extend(joined, name, runs, wickets);
      Unfold(b, runs, wickets);
      assert ComputePlayerStats(b, runs, wickets) == Extend(rb', name, runs, wickets);
      ExtendBehind(ra, rb', name, runs, wickets);
    }
  }

  /** A one-player squad is worth that player's score. */
  lemma SingleStrength(name: string, runs: map<string, nat>, wickets: map<string, nat>)
    ensures ComputePlayerStats([name], runs, wickets).total == Score(name, runs, wickets)
  {
    Unfold([name], runs, wickets);
    assert [name][..0] == [];
  }

  /** The strength counts every squad member's score, the zero scores adding nothing. */
  lemma {:induction false} StrengthIsSumOfScores(players: seq<string>,
                                                 runs: map<string, nat>, wickets: map<string, nat>)
    ensures ComputePlayerStats(players, runs, wickets).total == SumScores(players, runs, wickets)
  {
    if |players| > 0 {
      var head, tail := [players[0]], players[1..];
      assert players == head + tail;
      ComputePlayerStatsAppend(head, tail, runs, wickets);
      StrengthIsSumOfScores(tail, runs, wickets);
      SingleStrength(players[0], runs, wickets);
    }
  }

  /** `p` has a row in the table. */
  predicate Listed(stats: seq<PlayerStat>, p: string)
  {
    exists i :: 0 <= i < |stats| && stats[i].player == p
  }

  /** Appending a row lists its player and keeps every row listed before. */
  lemma ListedSnoc(stats: seq<PlayerStat>, e: PlayerStat, p: string)
    ensures Listed(stats + [e], p) <==> Listed(stats, p) || e.player == p
  {
    var s := stats + [e];
    if Listed(s, p) {
      var i :| 0 <= i < |s| && s[i].player == p;
      if i < |stats| {
        assert stats[i] == s[i];
      } else {
        assert s[i] == e;
      }
    }
    if Listed(stats, p) {
      var i :| 0 <= i < |stats| && stats[i].player == p;
      assert s[i] == stats[i];
    }
    assert s[|stats|] == e;
  }

  /** A player has a row exactly when they are in the squad and have a positive score. */
  lemma {:induction false} ListedIffScoring(players: seq<string>, runs: map<string, nat>,
                                            wickets: map<string, nat>, p: string)
    ensures var r := ComputePlayerStats(players, runs, wickets);
      (exists i :: 0 <= i < |r.stats| && r.stats[i].player == p) <==>
      (p in players && Score(p, runs, wickets) > 0)
  {
    if |players| > 0 {
      var init := players[..|players| - 1];
      var name := players[|players| - 1];
      assert players == init + [name];
      assert p in players <==> p in init || p == name;
      ListedIffScoring(init, runs, wickets, p);
      var prev := ComputePlayerStats(init, runs, wickets);
      Unfold(players, runs, wickets);
      var rn, wk := GetOrZero(runs, name), GetOrZero(wickets, name);
      if rn + wk > 0 {
        ListedSnoc(prev.stats, PlayerStat(name, rn, wk, rn + wk), p);
      }
    }
  }
}
