/**
 The team-name/slug table and its inverse (app.py:44-56). The prediction form sends slugs;
 `SLUG_TO_NAME` turns them back into the names the historical win counts are keyed by.
 */
module Teams {

  /** `TEAM_SLUGS`, as the (name, slug) pairs in the order they are written. */
  const TeamTable: seq<(string, string)> := [
    ("Chennai Super Kings", "chennai-super-kings"),
    ("Delhi Capitals", "delhi-capitals"),
    ("Gujarat Titans", "gujarat-titans"),
    ("Kolkata Knight Riders", "kolkata-knight-riders"),
    ("Lucknow Super Giants", "lucknow-super-giants"),
    ("Mumbai Indians", "mumbai-indians"),
    ("Punjab Kings", "punjab-kings"),
    ("Rajasthan Royals", "rajasthan-royals"),
    ("Royal Challengers Bengaluru", "royal-challengers-bengaluru"),
    ("Sunrisers Hyderabad", "sunrisers-hyderabad")
  ]

  /** A Python dict built from pairs in order: a repeated key keeps its last value. */
  function ToMap(t: seq<(string, string)>): map<string, string>
  {
    if |t| == 0 then map[] else ToMap(t[..|t| - 1])[t[|t| - 1].0 := t[|t| - 1].1]
  }

  /** The pairs with each (key, value) turned into (value, key). */
  function Swap(t: seq<(string, string)>): (s: seq<(string, string)>)
  {
    seq(|t|, i requires 0 <= i < |t| => (t[i].1, t[i].0))
  }

  /** No key occurs twice. */
  predicate KeysDistinct(t: seq<(string, string)>)
  {
    forall i, j :: 0 <= i < j < |t| ==> t[i].0 != t[j].0
  }

  /** The name-to-slug dictionary, built from the table. */
  function TeamSlugs(): map<string, string>
  {
    ToMap(TeamTable)
  }

  /** The slug-to-name dictionary: the table with each pair turned round. */
  function SlugToName(): map<string, string>
  {
    ToMap(Swap(TeamTable))
  }

  /** Every key of the built dict comes from some pair. */
  lemma {:induction false} ToMapKeys(t: seq<(string, string)>, k: string)
    ensures k in ToMap(t) <==> exists i :: 0 <= i < |t| && t[i].0 == k
  {
    if |t| > 0 {
      var init := t[..|t| - 1];
      ToMapKeys(init, k);
      if exists i :: 0 <= i < |init| && init[i].0 == k {
        var i :| 0 <= i < |init| && init[i].0 == k;
        assert t[i] == init[i];
      }
      if exists i :: 0 <= i < |t| && t[i].0 == k {
        var i :| 0 <= i < |t| && t[i].0 == k;
        if i < |init| {
          assert init[i] == t[i];
        }
      }
    }
  }

  /** With distinct keys, every pair survives into the dict. */
  lemma {:induction false} ToMapAt(t: seq<(string, string)>, i: int)
    requires KeysDistinct(t)
    requires 0 <= i < |t|
    ensures t[i].0 in ToMap(t) && ToMap(t)[t[i].0] == t[i].1
  {
    if i < |t| - 1 {
      var init := t[..|t| - 1];
      assert init[i] == t[i];
      ToMapAt(init, i);
    }
  }

  /** With distinct keys, the dict has one entry per pair. */
  lemma {:induction false} ToMapSize(t: seq<(string, string)>)
    requires KeysDistinct(t)
    ensures |ToMap(t)| == |t|
  {
    if |t| > 0 {
      var init, last := t[..|t| - 1], t[|t| - 1];
      ToMapSize(init);
      assert last.0 !in ToMap(init) by {
        ToMapKeys(init, last.0);
        forall i | 0 <= i < |init| ensures init[i].0 != last.0 {
          assert init[i] == t[i];
        }
      }
      assert ToMap(init)[last.0 := last.1].Keys == ToMap(init).Keys + {last.0};
    }
  }

  /** The table has ten teams, and neither a name nor a slug is repeated. */
  lemma TableDistinct()
    ensures |TeamTable| == 10
    ensures KeysDistinct(TeamTable)
    ensures KeysDistinct(Swap(TeamTable))
  {
  }

  /**
   Mapping a team name to its slug and the slug back gives the name, and the other way round:
   `SLUG_TO_NAME` is a true inverse of `TEAM_SLUGS` on all ten teams.
   */
  lemma SlugRoundTrip()
    ensures |TeamSlugs()| == 10 && |SlugToName()| == 10
    ensures forall n :: n in TeamSlugs() ==> TeamSlugs()[n] in SlugToName() && SlugToName()[TeamSlugs()[n]] == n
    ensures forall s :: s in SlugToName() ==> SlugToName()[s] in TeamSlugs() && TeamSlugs()[SlugToName()[s]] == s
  {
    TableDistinct();
    var t, w := TeamTable, Swap(TeamTable);
    ToMapSize(t);
    ToMapSize(w);
    forall n | n in TeamSlugs()
      ensures TeamSlugs()[n] in SlugToName() && SlugToName()[TeamSlugs()[n]] == n
    {
      ToMapKeys(t, n);
      var i :| 0 <= i < |t| && t[i].0 == n;
      ToMapAt(t, i);
      ToMapAt(w, i);
    }
    forall s | s in SlugToName()
      ensures SlugToName()[s] in TeamSlugs() && TeamSlugs()[SlugToName()[s]] == s
    {
      ToMapKeys(w, s);
      var i :| 0 <= i < |w| && w[i].0 == s;
      ToMapAt(w, i);
      ToMapAt(t, i);
    }
  }
}
