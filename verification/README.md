# IPL analysis: aggregation and winner prediction, modelled in Dafny

The application loads two cricket datasets: one row per match and one row per ball bowled. It
works out which columns of the deliveries table hold the batter, runs, bowler and dismissed
player. It then computes career aggregates: runs per batter, wickets per bowler, the set of all
players and historical wins per team. From these it builds four dashboard tables: matches per
season, and the top ten teams, batters and bowlers.

A prediction request names two teams by slug. Each team's current squad is looked up in the
career maps to get a squad strength. The stronger squad wins. On equal strength, historical wins
decide, and a tie there goes to the first team.

The model is functional. Deliveries, matches, summaries, squad tables and dashboard rows are
immutable datatypes. Every pandas group-by is the same recursive fold, `Counts.GroupSum`. Each
aggregate is proved equal, key by key, to an independent per-delivery or per-match reference
sum. The leaderboards are selection loops that pick a largest remaining entry
nondeterministically, so no order among equal values is promised.

Modules:

- `Wrappers` (wrappers.dfy): `Option` and `Result`.
- `Counts` (counts.dfy): count maps, the `GroupSum` fold, and sums over map values.
- `Schema` (schema.dfy): column resolution for the deliveries header.
- `Aggregate` (aggregate.dfy): delivery and match records, the career maps and the load-time `Summary`.
- `Squad` (squad.dfy): `compute_player_stats`.
- `Teams` (teams.dfy): the team/slug table and its inverse.
- `Predictor` (predictor.dfy): the winner decision and the `/predict` flow.
- `Leaderboard` (leaderboard.dfy): the dashboard tables.

Two behaviours of the code fix what the model promises:

- pandas' `sort_values` is not stable, so the model promises no order among equal win, run or
  wicket counts.
- A deliveries header without a usable runs column raises `StopIteration`, because `next` is
  called with no default (app.py:20-23). A header that lacks the batter column, or that has a
  dismissed-player column but no bowler column, raises `KeyError` in the first group-by on it
  (app.py:28, app.py:33). An unknown slug raises `KeyError` (app.py:141-142). All of these are
  error results here: `Schema.NoRunsColumn`, `Schema.MissingColumn` and `Predictor.UnknownSlug`.

## Model

| member | source | states |
|---|---|---|
| Counts.GroupSum | app.py:28 | the grouped map has exactly the keys that occur, and each key's value is the total weight of the pairs with that key, even when that total is 0 |
| Counts.GroupSumTotal | app.py:28 | the values of a grouped map add up to the total weight of all pairs |
| Schema.HasInfix | app.py:22 | the left-to-right scan answers true exactly when the pattern occurs at some position of the string (Python `in` on strings) |
| Schema.FirstRunsCandidate | app.py:20-23 | gives the position of the first column that contains "runs" and is neither "extra_runs" nor "total_runs"; gives nothing exactly when no column qualifies |
| Schema.Resolve | app.py:17-25 | resolution succeeds iff some lower-cased column qualifies as a runs column, and its only error is `NoRunsColumn`. The runs column is "batsman_runs" iff that column exists, otherwise the first qualifying one. The batter column is "batsman" iff present, else "batter". The bowler column is "bowler". The dismissal column is present iff "player_dismissed" exists |
| Schema.ResolveIgnoresCase | app.py:17 | resolving an already lower-cased header gives the same result as resolving the original header |
| Aggregate.BatsmanRuns | app.py:28 | the keys are exactly the players who faced a delivery, and each value is the sum of runs over that batter's deliveries |
| Aggregate.BowlerWickets | app.py:29-36 | the map is empty when there is no dismissal column; otherwise its keys are the bowlers of deliveries with a dismissed player, and each value counts those deliveries |
| Aggregate.WinsCount | app.py:41 | the keys are exactly the teams with a recorded win, and each value is the number of matches that team won; no-results are not counted |
| Aggregate.MatchesPerSeason | app.py:87 | the keys are exactly the seasons played, and each value is the number of matches in that season |
| Aggregate.Summarize | app.py:27-41 | the runs map's keys are exactly the players who faced a delivery, with their summed runs. The wicket map is empty without a dismissal column; otherwise its keys are the bowlers credited with a dismissal, each with that count. The wins map's keys are exactly the teams with a win, each with its number of wins. `all_players` is the union of the runs and wicket keys |
| Aggregate.Load | app.py:17-41 | loading succeeds iff column resolution succeeds, the header has a "batsman" or "batter" column, and it has a "bowler" column whenever it has "player_dismissed". A header without a runs column gives `NoRunsColumn`. Otherwise a header without a batter column gives the missing "batter" column, checked before the bowler (app.py:28 runs before app.py:33). Failing that, a header with dismissals but no bowler column gives the missing "bowler" column. On success the summary is the one `Summarize` builds from the deliveries and matches, with wicket counts exactly when "player_dismissed" is a column |
| Aggregate.NoBowlerColumnFails | app.py:30-33 | the header batter, batsman_runs, player_dismissed fails to load with the bowler column missing |
| Aggregate.BatsmanRunsTotal | app.py:28 | the per-batter run totals add up to the runs scored over all deliveries |
| Aggregate.BowlerWicketsTotal | app.py:29-36 | the per-bowler wicket counts add up to the number of deliveries with a dismissed player |
| Aggregate.AllPlayersExactly | app.py:38 | a name is in `all_players` iff it batted on some delivery or, when dismissals are recorded, bowled a delivery on which a player was dismissed |
| Squad.ComputePlayerStats | app.py:75-84 | the returned total equals the sum of the rows' totals; each row carries the player's career runs and wickets (0 when unknown), has total = runs + wickets and total > 0; an empty squad gives (0, []) |
| Squad.ComputePlayerStatsAppend | app.py:77-83 | rows keep squad order: the result for a squad split into two parts is the first part's rows followed by the second's, with the totals added |
| Squad.StrengthIsSumOfScores | app.py:77-83 | the strength equals the sum of every squad member's combined score, so zero-score and unknown players contribute nothing |
| Squad.ListedIffScoring | app.py:81-82 | a player has a row iff they are in the squad and their runs plus wickets is positive |
| Teams.ToMapAt | app.py:44-56 | when no key repeats, every (key, value) pair of the written table is an entry of the dict built from it |
| Teams.TableDistinct | app.py:44-55 | the table has ten teams, and no name and no slug occurs twice |
| Teams.SlugRoundTrip | app.py:44-56 | both dicts have ten entries; `SLUG_TO_NAME[TEAM_SLUGS[n]] == n` for every team name, and `TEAM_SLUGS[SLUG_TO_NAME[s]] == s` for every slug |
| Predictor.DecideWinner | app.py:144-153 | the winner is one of the two teams. The higher strength wins. On equal strength the winner is team1 iff its historical wins (0 if absent) are at least team2's, so equal and missing histories favour team1 |
| Predictor.WinnerIsLexicographicMaximum | app.py:144-153 | team1 wins exactly when its (strength, wins) pair is lexicographically no smaller than team2's |
| Predictor.StrengthOverridesHistory | app.py:145-148 | when the strengths differ, any two win histories give the same winner |
| Predictor.DecisionSymmetric | app.py:144-153 | swapping the two sides gives the same winner, except in a complete tie of strength and wins |
| Predictor.Predict | app.py:127-153 | a missing or empty slug gives the missing-team error, and only then. Otherwise an unknown slug gives `UnknownSlug`, the first team's slug checked first. Success happens iff both slugs are known. On success the team names map back to the given slugs, the strengths are the squads' summed combined scores, each squad's table is its `compute_player_stats` table, and the winner is one of the two teams, the one the winner decision picks from the two strengths and the historical wins |
| Predictor.HistoryBreaksTieExample | app.py:149-153 | with winners X, X, Y the win counts are X=2 and Y=1, and equal strengths then predict X |
| Leaderboard.TopByValue | app.py:90-101 | the table has min(limit, number of entries) rows. Every row is an entry of the map, no key repeats, and values never increase down the table. Every entry left out is no larger than any listed value. With at most `limit` entries, every entry is listed |
| Leaderboard.SeasonsAscending | app.py:87-89 | every season appears exactly once with its match count, in strictly increasing season order |
| Leaderboard.TopTeams | app.py:90-92 | the table has min(10, number of teams with a win) rows. Each row is a team with a win and its number of wins, no team repeats, wins never increase down the table, and no team left out has more wins than a listed one |
| Leaderboard.TopBatters | app.py:93-95 | the table has min(10, number of batters) rows. Each row is a batter and their career runs, no batter repeats, runs never increase down the table, and no batter left out has more runs than a listed one |
| Leaderboard.TopBowlers | app.py:96-101 | the table has min(10, number of wicket-taking bowlers) rows. Each row is such a bowler and their wickets, no bowler repeats, wickets never increase down the table, and no bowler left out has more wickets than a listed one |
| Leaderboard.BuildDashboard | app.py:86-101 | the season table lists every season played, in increasing order, with its match count. The wins and batters tables each have min(10, candidates) rows, drawn from the wins and runs aggregates, non-increasing, without repeats, and no omitted entry beats a listed one. The bowlers table is the same over the wicket counts when there is a dismissal column, and empty otherwise |

## Left out

- Fetching squads (`fetch_squad`, app.py:59-72): an HTTP request plus HTML and JSON parsing through outside libraries. The squad is an input `seq<string>`, possibly empty.
- Reading the CSV files and the JSON blobs for the charts (app.py:15-16, 103-120): file I/O and serialisation. Deliveries and matches are inputs, already reduced to the columns the schema picked.
- Flask routing and page rendering (app.py:122-125, 155-167): `Predictor.Predict` returns the values the page is rendered with, and the missing-field error stands for the page's error message.
- Team detection from images or text: no such code exists in app.py.
- Schema.LowerChar: only ASCII letters are lower-cased; `str.lower` also folds other Unicode letters.
- Aggregate.Match: `season` is an integer. If a dataset stores seasons as strings such as "2007/08", pandas orders them as strings, which this model does not cover.
- Aggregate.Delivery: batter and bowler are always present and runs are non-negative. pandas' group-by would silently drop rows whose batter or bowler is missing.
- Aggregate.WinsCount: the team-wins table counts `id` per winner, and `wins_count` counts the winners themselves. They are the same map only because every match has an id, which the model assumes.
- Leaderboard.TopByValue: among equal values the order is left open, as with pandas' non-stable sort. The one order `sort_values` happens to produce is not modelled.
- Aggregate.Load: the matches table is assumed to have its "id", "season" and "winner" columns; a matches file without them raises `KeyError` in the source, which is not modelled.
