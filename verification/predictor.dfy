/**
 The prediction request (app.py:127-153): both team slugs must be given, each fetched squad is
 turned into a strength, the slugs are mapped back to team names, and the stronger squad wins,
 with historical wins breaking a tie in favour of the first team.
 */
module Predictor {
  import opened Wrappers
  import opened Counts
  import opened Squad
  import opened Teams
  import opened Aggregate

  /**
   The winner decision (app.py:144-153): strength first; on equal strength the team with at
   least as many historical wins as the other, a team with no recorded win counting 0.
   */
  function DecideWinner(team1: string, team2: string, s1: int, s2: int, wins: map<string, nat>)
    : (w: string)
    ensures w == team1 || w == team2
    ensures s1 > s2 ==> w == team1
    ensures s2 > s1 ==> w == team2
    ensures s1 == s2 ==> (w == team1 <==> GetOrZero(wins, team1) >= GetOrZero(wins, team2))
  {
    if s1 > s2 then team1
    else if s2 > s1 then team2
    else
      var w1 := GetOrZero(wins, team1);
      var w2 := GetOrZero(wins, team2);
      if w1 >= w2 then team1 else team2
  }

  /** Reference order: side 1 is at least as good as side 2 comparing (strength, wins) pairs. */
  predicate AtLeastAsGood(s1: int, w1: int, s2: int, w2: int)
  {
    s1 > s2 || (s1 == s2 && w1 >= w2)
  }

  /** The decision picks team1 exactly when its (strength, wins) pair is lexicographically no smaller. */
  lemma WinnerIsLexicographicMaximum(team1: string, team2: string, s1: int, s2: int, wins: map<string, nat>)
    ensures DecideWinner(team1, team2, s1, s2, wins)
      == if AtLeastAsGood(s1, GetOrZero(wins, team1), s2, GetOrZero(wins, team2)) then team1 else team2
  {
  }

  /** When the strengths differ, the historical wins play no part. */
  lemma StrengthOverridesHistory(team1: string, team2: string, s1: int, s2: int,
                                 wins: map<string, nat>, other: map<string, nat>)
    requires s1 != s2
    ensures DecideWinner(team1, team2, s1, s2, wins) == DecideWinner(team1, team2, s1, s2, other)
  {
  }

  /** Swapping the two sides changes nothing except in a complete tie, which goes to the first side. */
  lemma DecisionSymmetric(team1: string, team2: string, s1: int, s2: int, wins: map<string, nat>)
    requires s1 != s2 || GetOrZero(wins, team1) != GetOrZero(wins, team2)
    ensures DecideWinner(team2, team1, s2, s1, wins) == DecideWinner(team1, team2, s1, s2, wins)
  {
  }

  /** What the result page shows after a successful prediction. */
  datatype Prediction = Prediction(
    team1: string, team2: string,
    stats1: seq<PlayerStat>, stats2: seq<PlayerStat>,
    strength1: nat, strength2: nat,
    winner: string)

  /** A form field left out or empty; a slug `SLUG_TO_NAME` does not know (a `KeyError`). */
  datatype PredictError = MissingTeam | UnknownSlug(slug: string)

  /** The form field is present and not the empty string. */
  predicate Given(field: Option<string>)
  {
    field.Some? && field.value != ""
  }

  /**
   The `/predict` handler (app.py:127-153) with the fetched squads as inputs: the roster
   download is an outside call, so `squad1` and `squad2` stand for whatever it returned.
   */
  function Predict(t1: Option<string>, t2: Option<string>, squad1: seq<string>, squad2: seq<string>,
                   summary: Summary): (r: Result<Prediction, PredictError>)
    ensures r == Err(MissingTeam) <==> !Given(t1) || !Given(t2)
    ensures r.Ok? <==> Given(t1) && Given(t2) && t1.value in SlugToName() && t2.value in SlugToName()
    ensures r.Err? && r.error.UnknownSlug? ==>
      (r.error.slug == t1.value && t1.value !in SlugToName()) ||
      (r.error.slug == t2.value && t1.value in SlugToName() && t2.value !in SlugToName())
    ensures r.Ok? ==>
      && r.value.team1 in TeamSlugs() && TeamSlugs()[r.value.team1] == t1.value
      && r.value.team2 in TeamSlugs() && TeamSlugs()[r.value.team2] == t2.value
      && (r.value.winner == r.value.team1 || r.value.winner == r.value.team2)
      && r.value.strength1 == SumScores(squad1, summary.batsmanRuns, summary.bowlerWickets)
      && r.value.strength2 == SumScores(squad2, summary.batsmanRuns, summary.bowlerWickets)
    ensures r.Ok? ==>
      && r.value.stats1 == ComputePlayerStats(squad1, summary.batsmanRuns, summary.bowlerWickets).stats
      && r.value.stats2 == ComputePlayerStats(squad2, summary.batsmanRuns, summary.bowlerWickets).stats
      && r.value.winner == DecideWinner(r.value.team1, r.value.team2, r.value.strength1, r.value.strength2,
                                        summary.winsCount)
  {
    if !Given(t1) || !Given(t2) then Err(MissingTeam)
    else
      var r1 := ComputePlayerStats(squad1, summary.batsmanRuns, summary.bowlerWickets);
      var r2 := ComputePlayerStats(squad2, summary.batsmanRuns, summary.bowlerWickets);
      StrengthIsSumOfScores(squad1, summary.batsmanRuns, summary.bowlerWickets);
      StrengthIsSumOfScores(squad2, summary.batsmanRuns, summary.bowlerWickets);
      if t1.value !in SlugToName() then Err(UnknownSlug(t1.value))
      else if t2.value !in SlugToName() then Err(UnknownSlug(t2.value))
      else
        SlugRoundTrip();
        var team1 := SlugToName()[t1.value];
        var team2 := SlugToName()[t2.value];
        var winner := DecideWinner(team1, team2, r1.total, r2.total, summary.winsCount);
        Ok(Prediction(team1, team2, r1.stats, r2.stats, r1.total, r2.total, winner))
  }

  /**
   Three decided matches, two won by "X" and one by "Y", give X two wins and Y one; with equal
   squad strength the prediction then goes to X.
   */
  lemma HistoryBreaksTieExample()
    ensures var ms := [Match(1, 2008, "X", "Y", Some("X")), Match(2, 2008, "Y", "X", Some("X")),
                       Match(3, 2009, "X", "Y", Some("Y"))];
      && GetOrZero(WinsCount(ms), "X") == 2
      && GetOrZero(WinsCount(ms), "Y") == 1
      && DecideWinner("X", "Y", 0, 0, WinsCount(ms)) == "X"
  {
    var ms := [Match(1, 2008, "X", "Y", Some("X")), Match(2, 2008, "Y", "X", Some("X")),
               Match(3, 2009, "X", "Y", Some("Y"))];
    var m1, m2 := ms[..1], ms[..2];
    assert m2[..1] == m1 && ms[..2] == m2 && m1[..0] == [];
    assert WinsOf(m1, "X") == 1 && WinsOf(m1, "Y") == 0;
    assert WinsOf(m2, "X") == 2 && WinsOf(m2, "Y") == 0;
    assert WinsOf(ms, "X") == 2 && WinsOf(ms, "Y") == 1;
  }
}
