/** __filter_data of analyzing/analyzing_filter.py: groups the firing alerts
    by cluster and alertname into a two-level dict. The alertname lookup at
    line 35 consults the top level of the dict, not the cluster's entry; the
    model keeps that and proves what it leads to. */
module AnalyzingFilter {
  import opened Common
  import opened Payloads

  /** `{cluster: {alertname: values}}`. */
  type Grouped = map<string, map<string, seq<Range>>>

  /** The key whose lookup fails first on `a`, if any: alertstate always,
      cluster and alertname only for an alert that is not pending. */
  function Missing(a: Alert): Option<string> {
    if "alertstate" !in a.metric then Some("alertstate")
    else if a.metric["alertstate"] == "pending" then None
    else if "cluster" !in a.metric then Some("cluster")
    else if "alertname" !in a.metric then Some("alertname")
    else None
  }

  /** An alert that reaches the grouping step of the loop. */
  predicate Kept(a: Alert) {
    Missing(a).None? && a.metric["alertstate"] != "pending"
  }

  predicate Complete(data: seq<Alert>) {
    forall i :: 0 <= i < |data| ==> Missing(data[i]).None?
  }

  /** No kept alert is named like the cluster of a kept alert. */
  predicate NoClash(data: seq<Alert>) {
    forall i, j :: 0 <= i < |data| && 0 <= j < |data| && Kept(data[i]) && Kept(data[j]) ==>
      data[i].metric["alertname"] != data[j].metric["cluster"]
  }

  /** One iteration of the loop, as written. */
  function FilterStep(out: Grouped, a: Alert): Result<Grouped, PyError> {
    if Missing(a).Some? then Err(KeyError(Missing(a).value))
    else if !Kept(a) then Ok(out)
    else
      var cluster := a.metric["cluster"];
      var alertName := a.metric["alertname"];
      var withCluster := if cluster !in out then out[cluster := map[]] else out;
      var reset := if alertName !in out then withCluster[cluster := withCluster[cluster][alertName := []]] else withCluster;
      if alertName !in reset[cluster] then Err(KeyError(alertName))
      else Ok(reset[cluster := reset[cluster][alertName := reset[cluster][alertName] + a.values]])
  }

  /** The dict after the loop has run over `data`, or the KeyError it raised. */
  function FilterAll(data: seq<Alert>): Result<Grouped, PyError> {
    if data == [] then Ok(map[])
    else
      match FilterAll(data[..|data| - 1])
      case Err(e) => Err(e)
      case Ok(out) => FilterStep(out, data[|data| - 1])
  }

  /** Once the loop has raised, later alerts change nothing. */
  lemma {:induction false} FilterErrSticks(data: seq<Alert>, i: nat)
    requires i <= |data| && FilterAll(data[..i]).Err?
    ensures FilterAll(data) == FilterAll(data[..i])
    decreases |data| - i
  {
    if i < |data| {
      assert data[..i + 1][..i] == data[..i];
      FilterErrSticks(data, i + 1);
    } else {
      assert data[..i] == data;
    }
  }

  /** __filter_data. */
  method FilterData(data: seq<Alert>) returns (r: Result<Grouped, PyError>)
    ensures r == FilterAll(data)
    ensures data == [] ==> r == Ok(map[])
  {
    var out: Grouped := map[];
    var i := 0;
    while i < |data|
      invariant 0 <= i <= |data|
      invariant FilterAll(data[..i]) == Ok(out)
    {
      assert data[..i + 1][..i] == data[..i];
      var alert := data[i];
      if "alertstate" !in alert.metric {
        FilterErrSticks(data, i + 1);
        return Err(KeyError("alertstate"));
      }
      if alert.metric["alertstate"] == "pending" {
        i := i + 1;
        continue;
      }
      if "cluster" !in alert.metric {
        FilterErrSticks(data, i + 1);
        return Err(KeyError("cluster"));
      }
      var cluster := alert.metric["cluster"];
      if "alertname" !in alert.metric {
        FilterErrSticks(data, i + 1);
        return Err(KeyError("alertname"));
      }
      var alertName := alert.metric["alertname"];
      var indexCluster := cluster in out;
      var indexAlert := alertName in out;
      if !indexCluster {
        out := out[cluster := map[]];
      }
      if !indexAlert {
        out := out[cluster := out[cluster][alertName := []]];
      }
      if alertName !in out[cluster] {
        FilterErrSticks(data, i + 1);
        return Err(KeyError(alertName));
      }
      out := out[cluster := out[cluster][alertName := out[cluster][alertName] + alert.values]];
      i := i + 1;
    }
    assert data[..i] == data;
    r := Ok(out);
  }

  // ---------------------------------------------------------------------------
  // What the loop computes

  /** The alerts without the pending ones. */
  function DropPending(data: seq<Alert>): (r: seq<Alert>)
    ensures |r| <= |data|
  {
    if data == [] then []
    else
      var last := data[|data| - 1];
      var prefix := DropPending(data[..|data| - 1]);
      if "alertstate" in last.metric && last.metric["alertstate"] == "pending" then prefix else prefix + [last]
  }

  /** Pending alerts are skipped: dropping them first changes nothing. */
  lemma {:induction false} FilterWithoutPending(data: seq<Alert>)
    ensures FilterAll(data) == FilterAll(DropPending(data))
  {
    if data != [] {
      var prefix := data[..|data| - 1];
      var last := data[|data| - 1];
      FilterWithoutPending(prefix);
      if !("alertstate" in last.metric && last.metric["alertstate"] == "pending") {
        assert (DropPending(prefix) + [last])[..|DropPending(prefix) + [last]| - 1] == DropPending(prefix);
      }
    }
  }

  ghost predicate HasCluster(data: seq<Alert>, c: string) {
    exists i :: 0 <= i < |data| && Kept(data[i]) && data[i].metric["cluster"] == c
  }

  ghost predicate HasPair(data: seq<Alert>, c: string, n: string) {
    exists i :: 0 <= i < |data| && Kept(data[i]) && data[i].metric["cluster"] == c && data[i].metric["alertname"] == n
  }

  /** `data[i]` is kept and no later kept alert has its cluster and alertname. */
  predicate LastOfPair(data: seq<Alert>, i: int)
    requires 0 <= i < |data|
  {
    && Kept(data[i])
    && forall j :: i < j < |data| && Kept(data[j]) ==>
         data[j].metric["cluster"] != data[i].metric["cluster"] || data[j].metric["alertname"] != data[i].metric["alertname"]
  }

  /** The top level holds exactly the clusters, each cluster exactly its
      alertnames, and each pair the values of the last alert with it. */
  ghost predicate LastWins(data: seq<Alert>, out: Grouped) {
    && (forall c :: c in out <==> HasCluster(data, c))
    && (forall c, n :: c in out ==> (n in out[c] <==> HasPair(data, c, n)))
    && (forall i :: 0 <= i < |data| && LastOfPair(data, i) ==> Holds(out, data[i]))
  }

  /** The pair of the kept alert `a` is in `out` with `a`'s values. */
  ghost predicate Holds(out: Grouped, a: Alert)
    requires Kept(a)
  {
    a.metric["cluster"] in out && a.metric["alertname"] in out[a.metric["cluster"]] &&
    out[a.metric["cluster"]][a.metric["alertname"]] == a.values
  }

  /** A last alert of its pair before the final alert stays last in the prefix,
      and its pair differs from a kept final alert's pair. */
  lemma LastOfPairPrefix(data: seq<Alert>, i: int)
    requires 0 <= i < |data| - 1 && LastOfPair(data, i)
    ensures data[..|data| - 1][i] == data[i] && LastOfPair(data[..|data| - 1], i)
    ensures Kept(data[|data| - 1]) ==>
      data[|data| - 1].metric["cluster"] != data[i].metric["cluster"] || data[|data| - 1].metric["alertname"] != data[i].metric["alertname"]
  {
    var prefix := data[..|data| - 1];
    forall j | i < j < |prefix| && Kept(prefix[j])
      ensures prefix[j].metric["cluster"] != prefix[i].metric["cluster"] || prefix[j].metric["alertname"] != prefix[i].metric["alertname"]
    {
      assert prefix[j] == data[j];
    }
  }

  /** The cluster's dict, or an empty one. */
  function Inner(out: Grouped, c: string): map<string, seq<Range>> {
    if c in out then out[c] else map[]
  }

  /** A kept alert whose alertname is no top-level key resets its pair. */
  lemma FilterStepFresh(out: Grouped, a: Alert)
    requires Kept(a) && a.metric["alertname"] !in out
    ensures FilterStep(out, a) == Ok(out[a.metric["cluster"] := Inner(out, a.metric["cluster"])[a.metric["alertname"] := a.values]])
  {
    var c, n := a.metric["cluster"], a.metric["alertname"];
    var withCluster := if c !in out then out[c := map[]] else out;
    assert withCluster[c] == Inner(out, c);
    var reset := withCluster[c := withCluster[c][n := []]];
    assert reset[c][n] == [];
    assert [] + a.values == a.values;
    assert reset[c][n := a.values] == Inner(out, c)[n := a.values];
    assert reset[c := Inner(out, c)[n := a.values]] == out[c := Inner(out, c)[n := a.values]];
  }

  lemma HasClusterSnoc(data: seq<Alert>, x: string)
    requires data != []
    ensures HasCluster(data, x) <==>
      HasCluster(data[..|data| - 1], x) || (Kept(data[|data| - 1]) && data[|data| - 1].metric["cluster"] == x)
  {
    var prefix := data[..|data| - 1];
    if HasCluster(prefix, x) {
      var i :| 0 <= i < |prefix| && Kept(prefix[i]) && prefix[i].metric["cluster"] == x;
      assert data[i] == prefix[i];
    }
    if HasCluster(data, x) && !(Kept(data[|data| - 1]) && data[|data| - 1].metric["cluster"] == x) {
      var i :| 0 <= i < |data| && Kept(data[i]) && data[i].metric["cluster"] == x;
      assert prefix[i] == data[i];
    }
  }

  lemma HasPairSnoc(data: seq<Alert>, x: string, y: string)
    requires data != []
    ensures HasPair(data, x, y) <==>
      HasPair(data[..|data| - 1], x, y) ||
      (Kept(data[|data| - 1]) && data[|data| - 1].metric["cluster"] == x && data[|data| - 1].metric["alertname"] == y)
  {
    var prefix := data[..|data| - 1];
    if HasPair(prefix, x, y) {
      var i :| 0 <= i < |prefix| && Kept(prefix[i]) && prefix[i].metric["cluster"] == x && prefix[i].metric["alertname"] == y;
      assert data[i] == prefix[i];
    }
    if HasPair(data, x, y) && !(Kept(data[|data| - 1]) && data[|data| - 1].metric["cluster"] == x && data[|data| - 1].metric["alertname"] == y) {
      var i :| 0 <= i < |data| && Kept(data[i]) && data[i].metric["cluster"] == x && data[i].metric["alertname"] == y;
      assert prefix[i] == data[i];
    }
  }

  lemma PrefixKeeps(data: seq<Alert>)
    requires data != [] && Complete(data) && NoClash(data)
    ensures Complete(data[..|data| - 1]) && NoClash(data[..|data| - 1])
  {
    assert forall i :: 0 <= i < |data| - 1 ==> data[..|data| - 1][i] == data[i];
  }

  /** As written, without clashes: no KeyError, and the top level holds
      exactly the clusters of the firing alerts. */
  lemma {:induction false} FilterClusters(data: seq<Alert>)
    requires Complete(data) && NoClash(data)
    ensures FilterAll(data).Ok?
    ensures forall c :: c in FilterAll(data).value <==> HasCluster(data, c)
  {
    if data != [] {
      var prefix := data[..|data| - 1];
      var a := data[|data| - 1];
      PrefixKeeps(data);
      FilterClusters(prefix);
      var out := FilterAll(prefix).value;
      if Kept(a) {
        FilterStepFresh(out, a);
      }
      forall x ensures x in FilterAll(data).value <==> HasCluster(data, x) {
        HasClusterSnoc(data, x);
      }
    }
  }

  /** ... and each cluster holds exactly the alertnames fired in it. */
  lemma {:induction false} FilterPairs(data: seq<Alert>)
    requires Complete(data) && NoClash(data)
    ensures FilterAll(data).Ok?
    ensures forall c, n :: c in FilterAll(data).value ==>
              (n in FilterAll(data).value[c] <==> HasPair(data, c, n))
  {
    FilterClusters(data);
    if data != [] {
      var prefix := data[..|data| - 1];
      var a := data[|data| - 1];
      PrefixKeeps(data);
      FilterPairs(prefix);
      FilterClusters(prefix);
      var out := FilterAll(prefix).value;
      var out' := FilterAll(data).value;
      if Kept(a) {
        FilterStepFresh(out, a);
      }
      forall x, y | x in out' ensures y in out'[x] <==> HasPair(data, x, y) {
        HasPairSnoc(data, x, y);
        if x !in out {
          HasClusterSnoc(data, x);
        }
      }
    }
  }

  /** ... and each pair holds the values of its last firing alert. */
  lemma {:induction false} FilterLastValues(data: seq<Alert>)
    requires Complete(data) && NoClash(data)
    ensures FilterAll(data).Ok?
    ensures forall i :: 0 <= i < |data| && LastOfPair(data, i) ==> Holds(FilterAll(data).value, data[i])
  {
    FilterClusters(data);
    if data != [] {
      var prefix := data[..|data| - 1];
      var a := data[|data| - 1];
      PrefixKeeps(data);
      FilterLastValues(prefix);
      FilterClusters(prefix);
      var out := FilterAll(prefix).value;
      var out' := FilterAll(data).value;
      if Kept(a) {
        FilterStepFresh(out, a);
      }
      forall i | 0 <= i < |data| && LastOfPair(data, i) ensures Holds(out', data[i]) {
        if i < |prefix| {
          LastOfPairPrefix(data, i);
          assert Holds(out, prefix[i]);
        }
      }
    }
  }

  /** As written: when no alertname is also a cluster name, the loop raises
      nothing on complete alerts and every (cluster, alertname) ends up with
      the values of its LAST firing alert only. */
  lemma FilterLastWins(data: seq<Alert>)
    requires Complete(data) && NoClash(data)
    ensures FilterAll(data).Ok? && LastWins(data, FilterAll(data).value)
  {
    FilterClusters(data);
    FilterPairs(data);
    FilterLastValues(data);
  }

  /** When the loop has not raised before it, an alert that lacks a key the
      loop looks up decides the KeyError. */
  lemma FilterFirstMissing(data: seq<Alert>, i: nat)
    requires i < |data| && FilterAll(data[..i]).Ok? && Missing(data[i]).Some?
    ensures FilterAll(data) == Err(KeyError(Missing(data[i]).value))
  {
    assert data[..i + 1][..i] == data[..i];
    FilterErrSticks(data, i + 1);
  }

  /** As written: two firing alerts of one cluster and alertname keep only the
      second one's values. */
  lemma FilterKeepsOnlyLast()
    ensures
      var first := Alert(map["alertstate" := "firing", "cluster" := "eu-1", "alertname" := "DiskFull"], [Range(0, 60)]);
      var second := Alert(map["alertstate" := "firing", "cluster" := "eu-1", "alertname" := "DiskFull"], [Range(600, 0)]);
      FilterAll([first, second]) == Ok(map["eu-1" := map["DiskFull" := [Range(600, 0)]]])
  {
    var first := Alert(map["alertstate" := "firing", "cluster" := "eu-1", "alertname" := "DiskFull"], [Range(0, 60)]);
    var second := Alert(map["alertstate" := "firing", "cluster" := "eu-1", "alertname" := "DiskFull"], [Range(600, 0)]);
    assert Missing(first) == None && Kept(first) && Missing(second) == None && Kept(second);
    assert [first, second][..1] == [first];
    assert [first][..0] == [];
    FilterStepFresh(map[], first);
    var out := map["eu-1" := map["DiskFull" := [Range(0, 60)]]];
    assert FilterAll([first]) == Ok(out);
    assert FilterAll([first, second]) == FilterStep(out, second);
    FilterStepFresh(out, second);
    assert Inner(out, "eu-1")["DiskFull" := [Range(600, 0)]] == map["DiskFull" := [Range(600, 0)]];
    assert out["eu-1" := map["DiskFull" := [Range(600, 0)]]] == map["eu-1" := map["DiskFull" := [Range(600, 0)]]];
  }

  /** As written: an alertname equal to an earlier cluster name skips the
      reset and then indexes a cluster that lacks it. */
  lemma FilterClashRaises()
    ensures
      var first := Alert(map["alertstate" := "firing", "cluster" := "eu-1", "alertname" := "DiskFull"], []);
      var second := Alert(map["alertstate" := "firing", "cluster" := "us-1", "alertname" := "eu-1"], []);
      FilterAll([first, second]) == Err(KeyError("eu-1"))
  {
    var first := Alert(map["alertstate" := "firing", "cluster" := "eu-1", "alertname" := "DiskFull"], []);
    var second := Alert(map["alertstate" := "firing", "cluster" := "us-1", "alertname" := "eu-1"], []);
    assert Missing(first) == None && Kept(first) && Missing(second) == None && Kept(second);
    assert [first, second][..1] == [first];
    assert [first][..0] == [];
    FilterStepFresh(map[], first);
    var out := map["eu-1" := map["DiskFull" := []]];
    assert FilterAll([first]) == Ok(out);
    assert "eu-1" in out && "us-1" !in out;
  }

  // ---------------------------------------------------------------------------
  // The grouping the loop evidently intends

  /** One iteration with the alertname looked up inside the cluster's dict. */
  function GroupStep(out: Grouped, a: Alert): Result<Grouped, PyError> {
    if Missing(a).Some? then Err(KeyError(Missing(a).value))
    else if !Kept(a) then Ok(out)
    else
      var cluster := a.metric["cluster"];
      var alertName := a.metric["alertname"];
      var inner := if cluster in out then out[cluster] else map[];
      var prior := if alertName in inner then inner[alertName] else [];
      Ok(out[cluster := inner[alertName := prior + a.values]])
  }

  function GroupAll(data: seq<Alert>): Result<Grouped, PyError> {
    if data == [] then Ok(map[])
    else
      match GroupAll(data[..|data| - 1])
      case Err(e) => Err(e)
      case Ok(out) => GroupStep(out, data[|data| - 1])
  }

  /** The values of all firing alerts with the given cluster and alertname, in order. */
  function PairValues(data: seq<Alert>, c: string, n: string): seq<Range> {
    if data == [] then []
    else
      var a := data[|data| - 1];
      PairValues(data[..|data| - 1], c, n)
        + if Kept(a) && a.metric["cluster"] == c && a.metric["alertname"] == n then a.values else []
  }

  /** The values collected so far for the pair, or none. */
  function Prior(out: Grouped, c: string, n: string): seq<Range> {
    if n in Inner(out, c) then Inner(out, c)[n] else []
  }

  lemma GroupStepKept(out: Grouped, a: Alert)
    requires Kept(a)
    ensures GroupStep(out, a) == Ok(out[a.metric["cluster"] :=
              Inner(out, a.metric["cluster"])[a.metric["alertname"] :=
                Prior(out, a.metric["cluster"], a.metric["alertname"]) + a.values]])
  {
  }

  lemma {:induction false} GroupClusters(data: seq<Alert>)
    requires Complete(data)
    ensures GroupAll(data).Ok?
    ensures forall c :: c in GroupAll(data).value <==> HasCluster(data, c)
  {
    if data != [] {
      var prefix := data[..|data| - 1];
      assert Complete(prefix) by {
        assert forall i :: 0 <= i < |prefix| ==> prefix[i] == data[i];
      }
      GroupClusters(prefix);
      if Kept(data[|data| - 1]) {
        GroupStepKept(GroupAll(prefix).value, data[|data| - 1]);
      }
      forall x ensures x in GroupAll(data).value <==> HasCluster(data, x) {
        HasClusterSnoc(data, x);
      }
    }
  }

  lemma {:induction false} GroupPairs(data: seq<Alert>)
    requires Complete(data)
    ensures GroupAll(data).Ok?
    ensures forall c, n :: c in GroupAll(data).value ==> (n in GroupAll(data).value[c] <==> HasPair(data, c, n))
  {
    GroupClusters(data);
    if data != [] {
      var prefix := data[..|data| - 1];
      assert Complete(prefix) by {
        assert forall i :: 0 <= i < |prefix| ==> prefix[i] == data[i];
      }
      GroupPairs(prefix);
      GroupClusters(prefix);
      var out := GroupAll(prefix).value;
      var out' := GroupAll(data).value;
      if Kept(data[|data| - 1]) {
        GroupStepKept(out, data[|data| - 1]);
      }
      forall x, y | x in out' ensures y in out'[x] <==> HasPair(data, x, y) {
        HasPairSnoc(data, x, y);
        if x !in out {
          HasClusterSnoc(data, x);
        }
      }
    }
  }

  /** The intended grouping: every pair collects the values of all its firing
      alerts in order, whatever the names. */
  lemma {:induction false} GroupAllConcat(data: seq<Alert>)
    requires Complete(data)
    ensures GroupAll(data).Ok?
    ensures forall c, n :: c in GroupAll(data).value && n in GroupAll(data).value[c] ==>
              GroupAll(data).value[c][n] == PairValues(data, c, n)
  {
    GroupClusters(data);
    if data != [] {
      var prefix := data[..|data| - 1];
      var a := data[|data| - 1];
      assert Complete(prefix) by {
        assert forall i :: 0 <= i < |prefix| ==> prefix[i] == data[i];
      }
      GroupAllConcat(prefix);
      GroupPairs(prefix);
      var out := GroupAll(prefix).value;
      var out' := GroupAll(data).value;
      if Kept(a) {
        GroupStepKept(out, a);
      }
      forall x, y | x in out' && y in out'[x] ensures out'[x][y] == PairValues(data, x, y) {
        if !(x in out && y in out[x]) {
          if x in out {
            assert !HasPair(prefix, x, y);
          } else {
            assert !HasPair(prefix, x, y) by {
              if HasPair(prefix, x, y) {
                var i :| 0 <= i < |prefix| && Kept(prefix[i]) && prefix[i].metric["cluster"] == x && prefix[i].metric["alertname"] == y;
                GroupClusters(prefix);
                assert HasCluster(prefix, x);
              }
            }
          }
          PairValuesAbsent(prefix, x, y);
        }
      }
    }
  }

  lemma {:induction false} PairValuesAbsent(data: seq<Alert>, c: string, n: string)
    requires !HasPair(data, c, n)
    ensures PairValues(data, c, n) == []
  {
    if data != [] {
      var prefix := data[..|data| - 1];
      HasPairSnoc(data, c, n);
      PairValuesAbsent(prefix, c, n);
    }
  }

  /** On the example above the intended grouping keeps both alerts' values. */
  lemma GroupKeepsBoth()
    ensures
      var first := Alert(map["alertstate" := "firing", "cluster" := "eu-1", "alertname" := "DiskFull"], [Range(0, 60)]);
      var second := Alert(map["alertstate" := "firing", "cluster" := "eu-1", "alertname" := "DiskFull"], [Range(600, 0)]);
      GroupAll([first, second]) == Ok(map["eu-1" := map["DiskFull" := [Range(0, 60), Range(600, 0)]]])
  {
    var first := Alert(map["alertstate" := "firing", "cluster" := "eu-1", "alertname" := "DiskFull"], [Range(0, 60)]);
    var second := Alert(map["alertstate" := "firing", "cluster" := "eu-1", "alertname" := "DiskFull"], [Range(600, 0)]);
    assert Missing(first) == None && Kept(first) && Missing(second) == None && Kept(second);
    assert [first, second][..1] == [first];
    assert [first][..0] == [];
    var out := map["eu-1" := map["DiskFull" := [Range(0, 60)]]];
    assert [] + [Range(0, 60)] == [Range(0, 60)];
    assert GroupAll([first]) == Ok(out);
    assert GroupAll([first, second]) == GroupStep(out, second);
    assert [Range(0, 60)] + [Range(600, 0)] == [Range(0, 60), Range(600, 0)];
    assert out["eu-1"]["DiskFull" := [Range(0, 60), Range(600, 0)]] == map["DiskFull" := [Range(0, 60), Range(600, 0)]];
    assert out["eu-1" := map["DiskFull" := [Range(0, 60), Range(600, 0)]]] == map["eu-1" := map["DiskFull" := [Range(0, 60), Range(600, 0)]]];
  }
}
