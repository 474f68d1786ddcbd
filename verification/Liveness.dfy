/** The status ratchet of check_repo_liveness.py, iterated over sweeps. */
module Liveness {
  datatype Entry = Entry(status: string, since: string)
  datatype Sweep = Sweep(today: string, found: map<string, string>)

  function Since(previous: map<string, Entry>, url: string, status: string, today: string): string {
    if url in previous && previous[url].status == status && previous[url].since != ""
    then previous[url].since else today
  }

  function Merged(found: map<string, string>, previous: map<string, Entry>, today: string): map<string, Entry> {
    map url | url in found :: Entry(found[url], Since(previous, url, found[url], today))
  }

  /** `merge_status_since`: dates are written into the fresh entries one by one. */
  method MergeStatusSince(found: map<string, string>, previous: map<string, Entry>, today: string)
    returns (current: map<string, Entry>)
    ensures current == Merged(found, previous, today)
  {
    current := map[];
    var todo := found.Keys;
    while todo != {}
      invariant todo <= found.Keys && current.Keys == found.Keys - todo
      invariant forall url :: url in current ==> current[url] == Merged(found, previous, today)[url]
      decreases todo
    {
      var url :| url in todo;
      todo := todo - {url};
      var status := found[url];
      if url in previous && previous[url].status == status && previous[url].since != "" {
        current := current[url := Entry(status, previous[url].since)];
      } else {
        current := current[url := Entry(status, today)];
      }
    }
  }

  /** The artifact after a sequence of sweeps, each seeded by the one before. */
  ghost function Artifact(sweeps: seq<Sweep>): map<string, Entry> {
    if sweeps == [] then map[]
    else
      var s := sweeps[|sweeps| - 1];
      Merged(s.found, Artifact(sweeps[..|sweeps| - 1]), s.today)
  }

  method RunSweeps(sweeps: seq<Sweep>) returns (artifact: map<string, Entry>)
    ensures artifact == Artifact(sweeps)
  {
    artifact := map[];
    for i := 0 to |sweeps|
      invariant artifact == Artifact(sweeps[..i])
    {
      assert sweeps[..i + 1][..i] == sweeps[..i];
      artifact := MergeStatusSince(sweeps[i].found, artifact, sweeps[i].today);
    }
    assert sweeps[..|sweeps|] == sweeps;
  }

  ghost predicate ShownAs(s: Sweep, url: string, status: string) {
    url in s.found && s.found[url] == status
  }

  /** Sweep `i` begins the unbroken run, ending now, of `url` being present with `status`. */
  ghost predicate RunStarts(sweeps: seq<Sweep>, url: string, status: string, i: nat) {
    && i < |sweeps|
    && (forall j :: i <= j < |sweeps| ==> ShownAs(sweeps[j], url, status))
    && (i > 0 ==> !ShownAs(sweeps[i - 1], url, status))
  }

  lemma {:induction false} RunStart(sweeps: seq<Sweep>, url: string) returns (i: nat)
    requires forall j :: 0 <= j < |sweeps| ==> sweeps[j].today != ""
    requires url in Artifact(sweeps)
    ensures RunStarts(sweeps, url, Artifact(sweeps)[url].status, i)
    ensures Artifact(sweeps)[url].since == sweeps[i].today
  {
    var init, s := sweeps[..|sweeps| - 1], sweeps[|sweeps| - 1];
    var status := s.found[url];
    assert init != [] ==> init[|init| - 1] == sweeps[|sweeps| - 2];
    if url in Artifact(init) && Artifact(init)[url].status == status {
      i := RunStart(init, url);
    } else {
      i := |sweeps| - 1;
    }
  }

  lemma RunStartUnique(sweeps: seq<Sweep>, url: string, status: string, i: nat, j: nat)
    requires RunStarts(sweeps, url, status, i) && RunStarts(sweeps, url, status, j)
    ensures i == j
  {
  }

  /** A repo is listed exactly when the last sweep found it, with the status it was found in, since
  the first sweep of the run in which that has not changed. */
  lemma StatusSinceExact(sweeps: seq<Sweep>, url: string, i: nat)
    requires sweeps != [] && forall j :: 0 <= j < |sweeps| ==> sweeps[j].today != ""
    ensures url in Artifact(sweeps) <==> url in sweeps[|sweeps| - 1].found
    ensures url in Artifact(sweeps) && RunStarts(sweeps, url, Artifact(sweeps)[url].status, i) ==>
      Artifact(sweeps)[url] == Entry(sweeps[|sweeps| - 1].found[url], sweeps[i].today)
  {
    if url in Artifact(sweeps) && RunStarts(sweeps, url, Artifact(sweeps)[url].status, i) {
      var j := RunStart(sweeps, url);
      RunStartUnique(sweeps, url, Artifact(sweeps)[url].status, i, j);
    }
  }
}
