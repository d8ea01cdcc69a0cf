/**
 The dashboard tables computed once at load time (app.py:86-101): matches per season in season
 order, and the top ten teams by wins, batters by runs and bowlers by wickets. pandas'
 `sort_values` is not stable, so among equal values no order is promised: the selection below
 takes *a* largest remaining entry, whichever one that is.
 */
module Leaderboard {
  import opened Counts
  import opened Aggregate

  /** One row of a dashboard table: a team, batter, bowler or season, and its count. */
  datatype Row<K> = Row(key: K, value: nat)

  /** How many rows each leaderboard keeps. */
  const TopN: nat := 10

  /** Every row is an entry of the map. */
  predicate FromMap<K>(rows: seq<Row<K>>, m: map<K, nat>)
  {
    forall i :: 0 <= i < |rows| ==> rows[i].key in m && m[rows[i].key] == rows[i].value
  }

  /** No key is listed twice. */
  predicate DistinctKeys<K(==)>(rows: seq<Row<K>>)
  {
    forall i, j :: 0 <= i < j < |rows| ==> rows[i].key != rows[j].key
  }

  /** Values never go up down the table (a descending sort). */
  predicate NonIncreasing<K>(rows: seq<Row<K>>)
  {
    forall i, j :: 0 <= i < j < |rows| ==> rows[i].value >= rows[j].value
  }

  /** The keys a table lists. */
  function RowKeys<K>(rows: seq<Row<K>>): set<K>
  {
    set i | 0 <= i < |rows| :: rows[i].key
  }

  lemma RowKeysSnoc<K>(rows: seq<Row<K>>, r: Row<K>)
    ensures RowKeys(rows + [r]) == RowKeys(rows) + {r.key}
  {
    var a := rows + [r];
    forall k | k in RowKeys(a) ensures k in RowKeys(rows) + {r.key} {
      var i :| 0 <= i < |a| && a[i].key == k;
      if i < |rows| {
        assert a[i] == rows[i];
      }
    }
    forall k | k in RowKeys(rows) ensures k in RowKeys(a) {
      var i :| 0 <= i < |rows| && rows[i].key == k;
      assert a[i] == rows[i];
    }
    assert a[|rows|] == r;
  }

  /** A non-empty count map has an entry no other entry exceeds. */
  lemma {:induction false} MaxExists<K>(m: map<K, nat>) returns (k: K)
    requires m != map[]
    ensures k in m && forall j :: j in m ==> m[j] <= m[k]
    decreases |m|
  {
    var x := AnyKey(m);
    var rest := m - {x};
    assert rest.Keys == m.Keys - {x};
    if rest == map[] {
      k := x;
      forall j | j in m ensures m[j] <= m[k] {
        assert j !in rest;
      }
    } else {
      var b := MaxExists(rest);
      k := if m[x] < m[b] then b else x;
      forall j | j in m ensures m[j] <= m[k] {
        if j != x {
          assert j in rest && rest[j] == m[j];
        }
      }
    }
  }

  /** Some element of a non-empty set. */
  ghost function AnyElement<T>(s: set<T>): (x: T)
    requires s != {}
    ensures x in s
  {
    var x :| x in s; x
  }

  /** A non-empty set of seasons has an earliest one. */
  lemma {:induction false} MinExists(s: set<int>) returns (y: int)
    requires s != {}
    ensures y in s && forall z :: z in s ==> y <= z
    decreases |s|
  {
    var x := AnyElement(s);
    var rest := s - {x};
    if rest == {} {
      y := x;
      forall z | z in s ensures y <= z {
        assert z !in rest;
      }
    } else {
      var b := MinExists(rest);
      y := if b < x then b else x;
      forall z | z in s ensures y <= z {
        if z != x {
          assert z in rest;
        }
      }
    }
  }

  /** Appending an entry of the map keeps every row an entry of the map. */
  lemma FromMapSnoc<K>(rows: seq<Row<K>>, m: map<K, nat>, k: K)
    requires FromMap(rows, m) && k in m
    ensures FromMap(rows + [Row(k, m[k])], m)
  {
  }

  /** Appending a key not listed yet keeps the keys distinct. */
  lemma DistinctKeysSnoc<K>(rows: seq<Row<K>>, r: Row<K>)
    requires DistinctKeys(rows) && r.key !in RowKeys(rows)
    ensures DistinctKeys(rows + [r])
  {
  }

  /** Appending a value no larger than any listed one keeps the values non-increasing. */
  lemma NonIncreasingSnoc<K>(rows: seq<Row<K>>, r: Row<K>)
    requires NonIncreasing(rows)
    requires forall i :: 0 <= i < |rows| ==> r.value <= rows[i].value
    ensures NonIncreasing(rows + [r])
  {
  }

  /**
   The state of the selection: `top` holds the largest entries taken so far, largest first, and
   `rest` holds every other entry of `m`, none larger than what was taken.
   */
  predicate Selecting<K(==)>(m: map<K, nat>, top: seq<Row<K>>, rest: map<K, nat>)
  {
    && |rest| + |top| == |m|
    && (forall k :: k in rest ==> k in m && rest[k] == m[k])
    && (forall k :: k in m ==> (k in rest <==> k !in RowKeys(top)))
    && FromMap(top, m) && DistinctKeys(top) && NonIncreasing(top)
    && (forall k, i :: k in rest && 0 <= i < |top| ==> rest[k] <= top[i].value)
  }

  /** Moving a largest remaining entry to the end of `top` keeps the selection state. */
  lemma SelectStep<K>(m: map<K, nat>, top: seq<Row<K>>, rest: map<K, nat>, k: K)
    requires Selecting(m, top, rest)
    requires k in rest && forall j :: j in rest ==> rest[j] <= rest[k]
    ensures Selecting(m, top + [Row(k, rest[k])], rest - {k})
  {
    var r := Row(k, m[k]);
    var top', rest' := top + [r], rest - {k};
    RowKeysSnoc(top, r);
    FromMapSnoc(top, m, k);
    DistinctKeysSnoc(top, r);
    NonIncreasingSnoc(top, r);
    assert rest'.Keys == rest.Keys - {k};
    assert forall j, i :: j in rest' && 0 <= i < |top'| ==> rest'[j] <= top'[i].value by {
      assert forall i :: 0 <= i < |top| ==> top'[i] == top[i];
    }
  }

  /**
   A descending sort of the entries of `m` cut to its first `limit` rows: the `limit` largest
   entries (all of them when there are fewer), largest first.
   */
  method TopByValue<K(==)>(m: map<K, nat>, limit: nat) returns (top: seq<Row<K>>)
    ensures |top| == if |m| < limit then |m| else limit
    ensures FromMap(top, m) && DistinctKeys(top) && NonIncreasing(top)
    ensures forall k, i :: k in m && k !in RowKeys(top) && 0 <= i < |top| ==> m[k] <= top[i].value
    ensures |m| <= limit ==> RowKeys(top) == m.Keys
  {
    top := [];
    var rest := m;
    while |top| < limit && rest != map[]
      invariant |top| <= limit
      invariant Selecting(m, top, rest)
      decreases |rest|
    {
      // The lemma's witness shows the choice below has a candidate.
      ghost var largest := MaxExists(rest);
      var k :| k in rest && forall j :: j in rest ==> rest[j] <= rest[k];
      SelectStep(m, top, rest, k);
      top := top + [Row(k, rest[k])];
      rest := rest - {k};
    }
    assert forall k :: k in RowKeys(top) ==> k in m;
  }

  /** Keys strictly increase down the table. */
  predicate KeysIncreasing(rows: seq<Row<int>>)
  {
    forall i, j :: 0 <= i < j < |rows| ==> rows[i].key < rows[j].key
  }

  /**
   The state of the season ordering: `rows` lists the earliest seasons taken so far, in order,
   and `rest` holds every later season still to be listed.
   */
  predicate Ordering(m: map<int, nat>, rows: seq<Row<int>>, rest: set<int>)
  {
    && rest <= m.Keys
    && (forall y :: y in m ==> (y in rest <==> y !in RowKeys(rows)))
    && FromMap(rows, m)
    && KeysIncreasing(rows)
    && (forall y, i :: y in rest && 0 <= i < |rows| ==> rows[i].key < y)
  }

  /** Appending a key above every listed key keeps the keys increasing. */
  lemma KeysIncreasingSnoc(rows: seq<Row<int>>, r: Row<int>)
    requires KeysIncreasing(rows)
    requires forall i :: 0 <= i < |rows| ==> rows[i].key < r.key
    ensures KeysIncreasing(rows + [r])
  {
  }

  /** Listing the earliest remaining season keeps the ordering state. */
  lemma OrderStep(m: map<int, nat>, rows: seq<Row<int>>, rest: set<int>, y: int)
    requires Ordering(m, rows, rest)
    requires y in rest && forall z :: z in rest ==> y <= z
    ensures Ordering(m, rows + [Row(y, m[y])], rest - {y})
  {
    var r := Row(y, m[y]);
    var rows', rest' := rows + [r], rest - {y};
    RowKeysSnoc(rows, r);
    FromMapSnoc(rows, m, y);
    KeysIncreasingSnoc(rows, r);
    assert forall z :: z in m ==> (z in rest' <==> z !in RowKeys(rows'));
    forall z, i | z in rest' && 0 <= i < |rows'| ensures rows'[i].key < z {
      if i < |rows| {
        assert rows'[i] == rows[i];
      }
    }
  }

  /** The season counts sorted by season: every season once, earliest first. */
  method SeasonsAscending(m: map<int, nat>) returns (rows: seq<Row<int>>)
    ensures FromMap(rows, m)
    ensures KeysIncreasing(rows)
    ensures RowKeys(rows) == m.Keys
  {
    rows := [];
    var rest := m.Keys;
    while rest != {}
      invariant Ordering(m, rows, rest)
      decreases |rest|
    {
      // The lemma's witness shows the choice below has a candidate.
      ghost var earliest := MinExists(rest);
      var y :| y in rest && forall z :: z in rest ==> y <= z;
      OrderStep(m, rows, rest, y);
      rows := rows + [Row(y, m[y])];
      rest := rest - {y};
    }
    assert forall y :: y in m ==> y in RowKeys(rows);
    assert forall y :: y in RowKeys(rows) ==> y in m by {
      forall y | y in RowKeys(rows) ensures y in m {
        var i :| 0 <= i < |rows| && rows[i].key == y;
      }
    }
  }

  /** The four tables handed to the dashboard page. */
  datatype Dashboard = Dashboard(
    matchesPerSeason: seq<Row<int>>,
    teamWins: seq<Row<string>>,
    topBatsmen: seq<Row<string>>,
    topBowlers: seq<Row<string>>)

  /**
   The team-wins table (app.py:90-92): the ten teams with the most wins (all of them when fewer
   won a match), most wins first, each with its number of wins.
   */
  method TopTeams(ms: seq<Match>) returns (rows: seq<Row<string>>)
    ensures |rows| == if |WinningTeams(ms)| < TopN then |WinningTeams(ms)| else TopN
    ensures NonIncreasing(rows) && DistinctKeys(rows)
    ensures forall i :: 0 <= i < |rows| ==>
      rows[i].key in WinningTeams(ms) && rows[i].value == WinsOf(ms, rows[i].key)
    ensures forall t, i :: t in WinningTeams(ms) && t !in RowKeys(rows) && 0 <= i < |rows| ==>
      WinsOf(ms, t) <= rows[i].value
  {
    var wins := WinsCount(ms);
    rows := TopByValue(wins, TopN);
    assert |wins| == |WinningTeams(ms)|;
    assert forall t :: t in wins ==> wins[t] == WinsOf(ms, t) by {
      forall t | t in wins ensures wins[t] == WinsOf(ms, t) {
        assert GetOrZero(wins, t) == WinsOf(ms, t);
      }
    }
  }

  /**
   The top-batters table (app.py:93-95): the ten batters with the most runs (all of them when
   fewer batted), most runs first, each with their career runs.
   */
  method TopBatters(ds: seq<Delivery>) returns (rows: seq<Row<string>>)
    ensures |rows| == if |Batters(ds)| < TopN then |Batters(ds)| else TopN
    ensures NonIncreasing(rows) && DistinctKeys(rows)
    ensures forall i :: 0 <= i < |rows| ==>
      rows[i].key in Batters(ds) && rows[i].value == RunsOf(ds, rows[i].key)
    ensures forall b, i :: b in Batters(ds) && b !in RowKeys(rows) && 0 <= i < |rows| ==>
      RunsOf(ds, b) <= rows[i].value
  {
    var runs := BatsmanRuns(ds);
    rows := TopByValue(runs, TopN);
    assert |runs| == |Batters(ds)|;
    assert forall b :: b in runs ==> runs[b] == RunsOf(ds, b) by {
      forall b | b in runs ensures runs[b] == RunsOf(ds, b) {
        assert GetOrZero(runs, b) == RunsOf(ds, b);
      }
    }
  }

  /**
   The top-bowlers table (app.py:97-101): the ten bowlers with the most wickets (all of them
   when fewer took one), most wickets first, each with their career wickets. The source builds
   it only when a dismissed-player column exists.
   */
  method TopBowlers(ds: seq<Delivery>) returns (rows: seq<Row<string>>)
    ensures |rows| == if |WicketTakers(ds)| < TopN then |WicketTakers(ds)| else TopN
    ensures NonIncreasing(rows) && DistinctKeys(rows)
    ensures forall i :: 0 <= i < |rows| ==>
      rows[i].key in WicketTakers(ds) && rows[i].value == WicketsOf(ds, rows[i].key)
    ensures forall b, i :: b in WicketTakers(ds) && b !in RowKeys(rows) && 0 <= i < |rows| ==>
      WicketsOf(ds, b) <= rows[i].value
  {
    var wickets := BowlerWickets(ds, true);
    rows := TopByValue(wickets, TopN);
    assert |wickets| == |WicketTakers(ds)|;
    assert forall b :: b in wickets ==> wickets[b] == WicketsOf(ds, b) by {
      forall b | b in wickets ensures wickets[b] == WicketsOf(ds, b) {
        assert GetOrZero(wickets, b) == WicketsOf(ds, b);
      }
    }
  }

  /**
   The four dashboard tables (app.py:87-101): the season table, then the team, batter and
   bowler leaderboards; the bowler table stays empty without a dismissed-player column.
   */
  method BuildDashboard(hasDismissalColumn: bool, ds: seq<Delivery>, ms: seq<Match>) returns (d: Dashboard)
    ensures RowKeys(d.matchesPerSeason) == SeasonsPlayed(ms)
    ensures KeysIncreasing(d.matchesPerSeason)
    ensures forall i :: 0 <= i < |d.matchesPerSeason| ==>
      d.matchesPerSeason[i].value == MatchesIn(ms, d.matchesPerSeason[i].key)
    ensures |d.teamWins| == if |WinningTeams(ms)| < TopN then |WinningTeams(ms)| else TopN
    ensures NonIncreasing(d.teamWins) && DistinctKeys(d.teamWins)
    ensures forall i :: 0 <= i < |d.teamWins| ==>
      d.teamWins[i].key in WinningTeams(ms) && d.teamWins[i].value == WinsOf(ms, d.teamWins[i].key)
    ensures forall t, i :: t in WinningTeams(ms) && t !in RowKeys(d.teamWins) && 0 <= i < |d.teamWins| ==>
      WinsOf(ms, t) <= d.teamWins[i].value
    ensures |d.topBatsmen| == if |Batters(ds)| < TopN then |Batters(ds)| else TopN
    ensures NonIncreasing(d.topBatsmen) && DistinctKeys(d.topBatsmen)
    ensures forall i :: 0 <= i < |d.topBatsmen| ==>
      d.topBatsmen[i].key in Batters(ds) && d.topBatsmen[i].value == RunsOf(ds, d.topBatsmen[i].key)
    ensures forall b, i :: b in Batters(ds) && b !in RowKeys(d.topBatsmen) && 0 <= i < |d.topBatsmen| ==>
      RunsOf(ds, b) <= d.topBatsmen[i].value
    ensures !hasDismissalColumn ==> d.topBowlers == []
    ensures hasDismissalColumn ==>
      |d.topBowlers| == if |WicketTakers(ds)| < TopN then |WicketTakers(ds)| else TopN
    ensures NonIncreasing(d.topBowlers) && DistinctKeys(d.topBowlers)
    ensures forall i :: 0 <= i < |d.topBowlers| ==>
      d.topBowlers[i].key in WicketTakers(ds) && d.topBowlers[i].value == WicketsOf(ds, d.topBowlers[i].key)
    ensures hasDismissalColumn ==>
      forall b, i :: b in WicketTakers(ds) && b !in RowKeys(d.topBowlers) && 0 <= i < |d.topBowlers| ==>
        WicketsOf(ds, b) <= d.topBowlers[i].value
  {
    var mp := SeasonsAscending(MatchesPerSeason(ms));
    var tw := TopTeams(ms);
    var tb := TopBatters(ds);
    var bl: seq<Row<string>> := [];
    if hasDismissalColumn {
      bl := TopBowlers(ds);
    }
    d := Dashboard(mp, tw, tb, bl);
  }
}
