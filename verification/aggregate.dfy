/**
 Career and historical aggregates computed once when the datasets are loaded (app.py lines 27-41):
 runs per batter, wickets per bowler, the set of all known players and wins per team, plus the
 matches-per-season count behind the dashboard's first table.
 */
module Aggregate {
  import opened Wrappers
  import opened Counts
  import Schema

  /** One ball, reduced to the columns the schema resolution picked. */
  datatype Delivery = Delivery(batter: string, bowler: string, runs: nat, dismissed: Option<string>)

  /** One row of the match results; `winner` is absent for a no-result. */
  datatype Match = Match(id: int, season: int, team1: string, team2: string, winner: Option<string>)

  /** Everything the request handlers read, built once at load time and never changed. */
  datatype Summary = Summary(
    batsmanRuns: map<string, nat>,
    bowlerWickets: map<string, nat>,
    allPlayers: set<string>,
    winsCount: map<string, nat>)

  // ---------------------------------------------------------------------------
  // Reference definitions, one delivery or match at a time.

  /** Runs scored by batter `b` over all deliveries. */
  function RunsOf(ds: seq<Delivery>, b: string): nat
  {
    if |ds| == 0 then 0
    else RunsOf(ds[..|ds| - 1], b) + (if ds[|ds| - 1].batter == b then ds[|ds| - 1].runs else 0)
  }

  /** Runs scored over all deliveries. */
  function TotalRuns(ds: seq<Delivery>): nat
  {
    if |ds| == 0 then 0 else TotalRuns(ds[..|ds| - 1]) + ds[|ds| - 1].runs
  }

  /** Deliveries bowled by `b` on which a player was dismissed. */
  function WicketsOf(ds: seq<Delivery>, b: string): nat
  {
    if |ds| == 0 then 0
    else
      var d := ds[|ds| - 1];
      WicketsOf(ds[..|ds| - 1], b) + (if d.bowler == b && d.dismissed.Some? then 1 else 0)
  }

  /** Deliveries on which a player was dismissed. */
  function Dismissals(ds: seq<Delivery>): nat
  {
    if |ds| == 0 then 0
    else Dismissals(ds[..|ds| - 1]) + (if ds[|ds| - 1].dismissed.Some? then 1 else 0)
  }

  /** Matches won by team `t`. */
  function WinsOf(ms: seq<Match>, t: string): nat
  {
    if |ms| == 0 then 0
    else WinsOf(ms[..|ms| - 1], t) + (if ms[|ms| - 1].winner == Some(t) then 1 else 0)
  }

  /** Matches played in season `y`. */
  function MatchesIn(ms: seq<Match>, y: int): nat
  {
    if |ms| == 0 then 0
    else MatchesIn(ms[..|ms| - 1], y) + (if ms[|ms| - 1].season == y then 1 else 0)
  }

  // ---------------------------------------------------------------------------
  // The (key, weight) pairs each pandas group-by sees.

  /** The (batter, runs) pair of every delivery, in order: the input of the run totals. */
  function Batting(ds: seq<Delivery>): seq<(string, nat)>
  {
    if |ds| == 0 then [] else Batting(ds[..|ds| - 1]) + [(ds[|ds| - 1].batter, ds[|ds| - 1].runs)]
  }

  /** One (bowler, 1) pair per delivery that has a dismissed player: the input of the wicket counts. */
  function Dismissing(ds: seq<Delivery>): seq<(string, nat)>
  {
    if |ds| == 0 then []
    else
      var d := ds[|ds| - 1];
      Dismissing(ds[..|ds| - 1]) + (if d.dismissed.Some? then [(d.bowler, 1)] else [])
  }

  /** One (winner, 1) pair per match with a recorded winner; no-results give nothing. */
  function Winners(ms: seq<Match>): seq<(string, nat)>
  {
    if |ms| == 0 then []
    else
      var w := ms[|ms| - 1].winner;
      Winners(ms[..|ms| - 1]) + (if w.Some? then [(w.value, 1)] else [])
  }

  /** One (season, 1) pair per match. */
  function Seasons(ms: seq<Match>): seq<(int, nat)>
  {
    if |ms| == 0 then [] else Seasons(ms[..|ms| - 1]) + [(ms[|ms| - 1].season, 1)]
  }

  /** Players who faced at least one delivery. */
  function Batters(ds: seq<Delivery>): set<string>
  {
    if |ds| == 0 then {} else Batters(ds[..|ds| - 1]) + {ds[|ds| - 1].batter}
  }

  /** Bowlers credited with at least one dismissal. */
  function WicketTakers(ds: seq<Delivery>): set<string>
  {
    if |ds| == 0 then {}
    else
      var d := ds[|ds| - 1];
      WicketTakers(ds[..|ds| - 1]) + (if d.dismissed.Some? then {d.bowler} else {})
  }

  /** Teams that won at least one match. */
  function WinningTeams(ms: seq<Match>): set<string>
  {
    if |ms| == 0 then {}
    else
      var w := ms[|ms| - 1].winner;
      WinningTeams(ms[..|ms| - 1]) + (if w.Some? then {w.value} else {})
  }

  /** Seasons with at least one match. */
  function SeasonsPlayed(ms: seq<Match>): set<int>
  {
    if |ms| == 0 then {} else SeasonsPlayed(ms[..|ms| - 1]) + {ms[|ms| - 1].season}
  }

  lemma {:induction false} BattingAgrees(ds: seq<Delivery>)
    ensures forall b :: SumFor(Batting(ds), b) == RunsOf(ds, b)
    ensures Total(Batting(ds)) == TotalRuns(ds)
    ensures KeysOf(Batting(ds)) == Batters(ds)
  {
    if |ds| > 0 {
      var init, d := ds[..|ds| - 1], ds[|ds| - 1];
      BattingAgrees(init);
      var p := Batting(init);
      assert (p + [(d.batter, d.runs)])[..|p|] == p;
      KeysOfSnoc(p, (d.batter, d.runs));
    }
  }

  lemma {:induction false} DismissingAgrees(ds: seq<Delivery>)
    ensures forall b :: SumFor(Dismissing(ds), b) == WicketsOf(ds, b)
    ensures Total(Dismissing(ds)) == Dismissals(ds)
    ensures KeysOf(Dismissing(ds)) == WicketTakers(ds)
  {
    if |ds| > 0 {
      var init, d := ds[..|ds| - 1], ds[|ds| - 1];
      DismissingAgrees(init);
      var p := Dismissing(init);
      if d.dismissed.Some? {
        var q := p + [(d.bowler, 1)];
        assert Dismissing(ds) == q;
        assert q[..|p|] == p;
        assert forall b :: SumFor(q, b) == SumFor(p, b) + (if d.bowler == b then 1 else 0);
        assert Total(q) == Total(p) + 1;
        KeysOfSnoc(p, (d.bowler, 1));
      } else {
        assert Dismissing(ds) == p;
      }
    }
  }

  lemma {:induction false} WinnersAgree(ms: seq<Match>)
    ensures forall t :: SumFor(Winners(ms), t) == WinsOf(ms, t)
    ensures KeysOf(Winners(ms)) == WinningTeams(ms)
  {
    if |ms| > 0 {
      var init, w := ms[..|ms| - 1], ms[|ms| - 1].winner;
      WinnersAgree(init);
      var p := Winners(init);
      if w.Some? {
        assert (p + [(w.value, 1)])[..|p|] == p;
        KeysOfSnoc(p, (w.value, 1));
      } else {
        assert p + [] == p;
      }
    }
  }

  lemma {:induction false} SeasonsAgree(ms: seq<Match>)
    ensures forall y :: SumFor(Seasons(ms), y) == MatchesIn(ms, y)
    ensures KeysOf(Seasons(ms)) == SeasonsPlayed(ms)
  {
    if |ms| > 0 {
      var init, m := ms[..|ms| - 1], ms[|ms| - 1];
      SeasonsAgree(init);
      var p := Seasons(init);
      assert (p + [(m.season, 1)])[..|p|] == p;
      KeysOfSnoc(p, (m.season, 1));
    }
  }

  // ---------------------------------------------------------------------------
  // The aggregates themselves.

  /** `batsman_runs`: every batter who faced a ball, with the runs they scored (app.py:28). */
  function BatsmanRuns(ds: seq<Delivery>): (m: map<string, nat>)
    ensures m.Keys == Batters(ds)
    ensures forall b :: GetOrZero(m, b) == RunsOf(ds, b)
  {
    BattingAgrees(ds);
    GroupSum(Batting(ds))
  }

  /**
   `bowler_wickets`: deliveries with a dismissed player, counted per bowler; the empty map when
   the deliveries have no dismissal column (app.py:29-36).
   */
  function BowlerWickets(ds: seq<Delivery>, hasDismissalColumn: bool): (m: map<string, nat>)
    ensures !hasDismissalColumn ==> m == map[]
    ensures hasDismissalColumn ==> m.Keys == WicketTakers(ds)
    ensures hasDismissalColumn ==> forall b :: GetOrZero(m, b) == WicketsOf(ds, b)
  {
    if hasDismissalColumn then
      DismissingAgrees(ds);
      GroupSum(Dismissing(ds))
    else
      map[]
  }

  /** `wins_count`: matches won per team, no-results not counted (app.py:41). */
  function WinsCount(ms: seq<Match>): (m: map<string, nat>)
    ensures m.Keys == WinningTeams(ms)
    ensures forall t :: GetOrZero(m, t) == WinsOf(ms, t)
  {
    WinnersAgree(ms);
    GroupSum(Winners(ms))
  }

  /** The number of matches played in each season (app.py:87). */
  function MatchesPerSeason(ms: seq<Match>): (m: map<int, nat>)
    ensures m.Keys == SeasonsPlayed(ms)
    ensures forall y :: GetOrZero(m, y) == MatchesIn(ms, y)
  {
    SeasonsAgree(ms);
    GroupSum(Seasons(ms))
  }

  /** The load-time summary: the three career maps and `all_players` (app.py:27-41). */
  function Summarize(hasDismissalColumn: bool, ds: seq<Delivery>, ms: seq<Match>): (s: Summary)
    ensures s.allPlayers == s.batsmanRuns.Keys + s.bowlerWickets.Keys
    ensures s.allPlayers == Batters(ds) + (if hasDismissalColumn then WicketTakers(ds) else {})
    ensures forall p :: GetOrZero(s.batsmanRuns, p) == RunsOf(ds, p)
    ensures forall t :: GetOrZero(s.winsCount, t) == WinsOf(ms, t)
    ensures forall b :: GetOrZero(s.bowlerWickets, b) == (if hasDismissalColumn then WicketsOf(ds, b) else 0)
    ensures s.batsmanRuns.Keys == Batters(ds)
    ensures s.bowlerWickets.Keys == (if hasDismissalColumn then WicketTakers(ds) else {})
    ensures s.winsCount.Keys == WinningTeams(ms)
  {
    var runs := BatsmanRuns(ds);
    var wickets := BowlerWickets(ds, hasDismissalColumn);
    Summary(runs, wickets, runs.Keys + wickets.Keys, WinsCount(ms))
  }

  /**
   Loading: resolve the deliveries header, then summarise. Besides resolution, loading fails
   when the batter column is not in the header (the run totals group by it, app.py:28), or when
   dismissals are recorded but there is no "bowler" column (the wicket counts group by it,
   app.py:33). Without a dismissed-player column the wicket map stays empty.
   */
  function Load(header: seq<string>, ds: seq<Delivery>, ms: seq<Match>)
    : (r: Result<Summary, Schema.SchemaError>)
    ensures var cols := Schema.LowerAll(header);
      r.Ok? <==>
        && Schema.Resolve(header).Ok?
        && ("batsman" in cols || "batter" in cols)
        && ("player_dismissed" in cols ==> "bowler" in cols)
    ensures var cols := Schema.LowerAll(header);
      r.Err? && Schema.Resolve(header).Ok? ==>
        && r.error.MissingColumn?
        && r.error.name !in cols
        && (r.error.name == "batter" || r.error.name == "bowler")
    ensures r.Ok? && "player_dismissed" !in Schema.LowerAll(header) ==> r.value.bowlerWickets == map[]
    ensures r.Ok? && "player_dismissed" in Schema.LowerAll(header) ==>
      r.value.bowlerWickets.Keys == WicketTakers(ds)
    ensures r.Ok? ==> r.value == Summarize("player_dismissed" in Schema.LowerAll(header), ds, ms)
    ensures Schema.Resolve(header).Err? ==> r == Err(Schema.NoRunsColumn)
    ensures var cols := Schema.LowerAll(header);
      Schema.Resolve(header).Ok? && "batsman" !in cols && "batter" !in cols ==>
        r == Err(Schema.MissingColumn("batter"))
    ensures var cols := Schema.LowerAll(header);
      && Schema.Resolve(header).Ok?
      && ("batsman" in cols || "batter" in cols)
      && "player_dismissed" in cols && "bowler" !in cols ==>
        r == Err(Schema.MissingColumn("bowler"))
  {
    match Schema.Resolve(header)
    case Err(e) => Err(e)
    case Ok(cols) =>
      var lower := Schema.LowerAll(header);
      if cols.batter !in lower then Err(Schema.MissingColumn(cols.batter))
      else if cols.dismissed.Some? && cols.bowler !in lower then Err(Schema.MissingColumn(cols.bowler))
      else Ok(Summarize(cols.dismissed.Some?, ds, ms))
  }

  /** A header that names the dismissed player but has no bowler column does not load. */
  lemma NoBowlerColumnFails(ds: seq<Delivery>, ms: seq<Match>)
    ensures Load(["batter", "batsman_runs", "player_dismissed"], ds, ms) == Err(Schema.MissingColumn("bowler"))
  {
    var header := ["batter", "batsman_runs", "player_dismissed"];
    Schema.LowerOfLowerCase(header[0]);
    Schema.LowerOfLowerCase(header[1]);
    Schema.LowerOfLowerCase(header[2]);
    assert Schema.LowerAll(header) == header;
    Schema.BatsmanRunsIsCandidate();
    assert Schema.IsRunsCandidate(header[1]);
  }

  /** The batters' runs add up to the runs scored over all deliveries. */
  lemma BatsmanRunsTotal(ds: seq<Delivery>)
    ensures SumValues(BatsmanRuns(ds)) == TotalRuns(ds)
  {
    BattingAgrees(ds);
    GroupSumTotal(Batting(ds));
  }

  /** The bowlers' wickets add up to the number of deliveries with a dismissal. */
  lemma BowlerWicketsTotal(ds: seq<Delivery>)
    ensures SumValues(BowlerWickets(ds, true)) == Dismissals(ds)
  {
    DismissingAgrees(ds);
    GroupSumTotal(Dismissing(ds));
  }

  lemma {:induction false} InBatters(ds: seq<Delivery>, p: string)
    ensures p in Batters(ds) <==> exists i :: 0 <= i < |ds| && ds[i].batter == p
  {
    if |ds| > 0 {
      var init := ds[..|ds| - 1];
      InBatters(init, p);
      if p in Batters(init) {
        var i :| 0 <= i < |init| && init[i].batter == p;
        assert ds[i] == init[i];
      }
      if exists i :: 0 <= i < |ds| && ds[i].batter == p {
        var i :| 0 <= i < |ds| && ds[i].batter == p;
        if i < |init| {
          assert init[i] == ds[i];
        }
      }
    }
  }

  lemma {:induction false} InWicketTakers(ds: seq<Delivery>, p: string)
    ensures p in WicketTakers(ds) <==>
      exists i :: 0 <= i < |ds| && ds[i].bowler == p && ds[i].dismissed.Some?
  {
    if |ds| > 0 {
      var init := ds[..|ds| - 1];
      InWicketTakers(init, p);
      if p in WicketTakers(init) {
        var i :| 0 <= i < |init| && init[i].bowler == p && init[i].dismissed.Some?;
        assert ds[i] == init[i];
      }
      if exists i :: 0 <= i < |ds| && ds[i].bowler == p && ds[i].dismissed.Some? {
        var i :| 0 <= i < |ds| && ds[i].bowler == p && ds[i].dismissed.Some?;
        if i < |init| {
          assert init[i] == ds[i];
        }
      }
    }
  }

  /**
   `all_players` is exactly the players who faced a delivery or, when dismissals are recorded,
   bowled one on which a player was dismissed.
   */
  lemma AllPlayersExactly(hasDismissalColumn: bool, ds: seq<Delivery>, ms: seq<Match>, p: string)
    ensures p in Summarize(hasDismissalColumn, ds, ms).allPlayers <==>
      (exists i :: 0 <= i < |ds| && ds[i].batter == p) ||
      (hasDismissalColumn && exists i :: 0 <= i < |ds| && ds[i].bowler == p && ds[i].dismissed.Some?)
  {
    InBatters(ds, p);
    InWicketTakers(ds, p);
  }
}
