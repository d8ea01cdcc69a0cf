/**
 Column resolution for the deliveries table (app.py:17-25). The header is lower-cased, then the
 batter, runs, bowler and dismissed-player columns are chosen by name. Picking the runs column
 raises in the source when no column qualifies; here that is the `NoRunsColumn` error.
 */
module Schema {
  import opened Wrappers

  /** The column names the aggregation reads. */
  datatype Columns = Columns(batter: string, runs: string, bowler: string, dismissed: Option<string>)

  /**
   No column qualifies as the runs column, or a column the aggregation groups by is not in the
   header (pandas raises `KeyError` for it).
   */
  datatype SchemaError = NoRunsColumn | MissingColumn(name: string)

  /** Lower-casing of one character, for the ASCII letters. */
  function LowerChar(c: char): char
  {
    if 'A' <= c <= 'Z' then (c as int + ('a' as int - 'A' as int)) as char else c
  }

  /** Lower-casing of one column name, character by character. */
  function Lower(s: string): string
  {
    seq(|s|, i requires 0 <= i < |s| => LowerChar(s[i]))
  }

  /** Lower-casing of every column name of a header. */
  function LowerAll(header: seq<string>): seq<string>
  {
    seq(|header|, i requires 0 <= i < |header| => Lower(header[i]))
  }

  /** `p` occurs in `s` starting at position `k`. */
  predicate OccursAt(p: string, s: string, k: int)
  {
    0 <= k <= |s| - |p| && s[k..k + |p|] == p
  }

  /** Reference definition of Python's `p in s` on strings: `p` occurs somewhere in `s`. */
  ghost predicate IsInfix(p: string, s: string)
  {
    exists k :: OccursAt(p, s, k)
  }

  /** An occurrence past the first position is an occurrence in the tail. */
  lemma InfixOfTail(p: string, s: string)
    requires |s| > 0
    requires |p| <= |s| && s[..|p|] != p
    ensures IsInfix(p, s) <==> IsInfix(p, s[1..])
  {
    if IsInfix(p, s) {
      var k :| OccursAt(p, s, k);
      assert s[1..][k - 1..k - 1 + |p|] == s[k..k + |p|];
      assert OccursAt(p, s[1..], k - 1);
    }
    if IsInfix(p, s[1..]) {
      var k :| OccursAt(p, s[1..], k);
      assert s[k + 1..k + 1 + |p|] == s[1..][k..k + |p|];
      assert OccursAt(p, s, k + 1);
    }
  }

  /** Substring test, scanning left to right. */
  function HasInfix(p: string, s: string): (b: bool)
    ensures b <==> IsInfix(p, s)
    decreases |s|
  {
    if |p| > |s| then false
    else if s[..|p|] == p then
      assert OccursAt(p, s, 0);
      true
    else
      InfixOfTail(p, s);
      HasInfix(p, s[1..])
  }

  /** A column the runs-column search accepts: it mentions "runs" and is not one of the two excluded totals. */
  predicate IsRunsCandidate(c: string)
  {
    HasInfix("runs", c) && c != "extra_runs" && c != "total_runs"
  }

  /** Position of the first runs candidate, if any. */
  function FirstRunsCandidate(cols: seq<string>): (r: Option<nat>)
    ensures r.Some? ==> r.value < |cols| && IsRunsCandidate(cols[r.value])
    ensures r.Some? ==> forall j :: 0 <= j < r.value ==> !IsRunsCandidate(cols[j])
    ensures r.None? <==> forall j :: 0 <= j < |cols| ==> !IsRunsCandidate(cols[j])
  {
    if |cols| == 0 then None
    else if IsRunsCandidate(cols[0]) then Some(0)
    else
      match FirstRunsCandidate(cols[1..])
      case None => None
      case Some(i) => Some(i + 1)
  }

  /** The preferred runs column would also pass the fallback search. */
  lemma BatsmanRunsIsCandidate()
    ensures IsRunsCandidate("batsman_runs")
  {
    assert OccursAt("runs", "batsman_runs", 8);
  }

  /** Resolve the columns of a deliveries header (app.py:17-25). */
  function Resolve(header: seq<string>): (r: Result<Columns, SchemaError>)
    ensures var cols := LowerAll(header);
      r.Ok? <==> exists c :: c in cols && IsRunsCandidate(c)
    ensures r.Err? ==> r.error == NoRunsColumn
    ensures var cols := LowerAll(header);
      r.Ok? ==>
        && (r.value.batter == "batsman" <==> "batsman" in cols)
        && (r.value.batter == "batsman" || r.value.batter == "batter")
        && r.value.bowler == "bowler"
        && (r.value.dismissed.Some? <==> "player_dismissed" in cols)
        && (r.value.dismissed.Some? ==> r.value.dismissed.value == "player_dismissed")
        && r.value.runs in cols
        && IsRunsCandidate(r.value.runs)
        && (r.value.runs == "batsman_runs" <==> "batsman_runs" in cols)
    ensures var cols := LowerAll(header);
      r.Ok? && "batsman_runs" !in cols ==>
        exists i :: 0 <= i < |cols| && cols[i] == r.value.runs &&
          forall j :: 0 <= j < i ==> !IsRunsCandidate(cols[j])
  {
    var cols := LowerAll(header);
    var batter := if "batsman" in cols then "batsman" else "batter";
    var dismissed := if "player_dismissed" in cols then Some("player_dismissed") else None;
    BatsmanRunsIsCandidate();
    if "batsman_runs" in cols then
      Ok(Columns(batter, "batsman_runs", "bowler", dismissed))
    else
      match FirstRunsCandidate(cols)
      case None => Err(NoRunsColumn)
      case Some(i) => Ok(Columns(batter, cols[i], "bowler", dismissed))
  }

  /** A name without upper-case ASCII letters is its own lower-cased form. */
  lemma LowerOfLowerCase(s: string)
    requires forall k :: 0 <= k < |s| ==> !('A' <= s[k] <= 'Z')
    ensures Lower(s) == s
  {
  }

  /** Lower-casing twice is lower-casing once. */
  lemma LowerAllIdempotent(header: seq<string>)
    ensures LowerAll(LowerAll(header)) == LowerAll(header)
  {
    forall i | 0 <= i < |header|
      ensures Lower(Lower(header[i])) == Lower(header[i])
    {
      var s := header[i];
      assert forall k :: 0 <= k < |s| ==> LowerChar(LowerChar(s[k])) == LowerChar(s[k]);
    }
  }

  /** Resolution does not depend on how the header is capitalised. */
  lemma ResolveIgnoresCase(header: seq<string>)
    ensures Resolve(LowerAll(header)) == Resolve(header)
  {
    LowerAllIdempotent(header);
  }
}
