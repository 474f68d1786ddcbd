/** What the cuts of the recall score go by, read off the rows. */
module LadderFields {
  import opened Sorting
  import opened Ladder
  import opened LadderCuts

  /** A row counts in its groups, and as detected unless it was missed or only came to a review. */
  lemma CountedExact(rows: seq<Scored>, r: Scored, p: Scored -> bool)
    ensures var before, after := BucketOf(rows, p), BucketOf(rows + [r], p);
      && after.expected == before.expected + (if p(r) then 1 else 0)
      && after.detected == before.detected + (if p(r) && r.row.tier != Missed && r.row.tier != Review then 1 else 0)
  {
    assert (rows + [r])[..|rows|] == rows;
  }

  lemma KeysExact(r: Scored)
    ensures r.row.expected.cwes != [] ==> CweKey()(r) == r.row.expected.cwes[0]
    ensures SeverityKey()(r) == r.row.expected.severity && ProvenanceKey()(r) == r.provenance && LanguageKey()(r) == r.language
    ensures SplitKey()(r) == "held_out" <==> r.heldOut
    ensures SplitKey()(r) == "development" <==> !r.heldOut
  {
    assert "held_out"[0] != "development"[0];
  }

  /** The rows of a target carry what the cuts go by, and those of all targets are taken once, in order. */
  lemma {:induction false} SpreadExact(t: Target, n: nat)
    requires n <= |t.rows|
    ensures |Spread(t, n)| == n
    ensures forall i :: 0 <= i < n ==>
      var r := Spread(t, n)[i];
      r.row == t.rows[i] && r.provenance == t.provenance && r.language == t.language && r.heldOut == t.heldOut
  {
    if n > 0 {
      SpreadExact(t, n - 1);
    }
  }

  lemma {:induction false} AllRowsInOrder(targets: seq<Target>)
    requires targets != []
    ensures AllRows(targets) == Spread(targets[0], |targets[0].rows|) + AllRows(targets[1..])
  {
    var n := |targets| - 1;
    if n == 0 {
      assert targets[..0] == [] == targets[1..];
    } else {
      AllRowsInOrder(targets[..n]);
      assert targets[1..][..n - 1] == targets[..n][1..];
      Regroup(Spread(targets[0], |targets[0].rows|), AllRows(targets[..n][1..]), Spread(targets[n], |targets[n].rows|));
    }
  }
}
