/** create_alert_corrrelation_list of analyzing/analyzer.py: turns the
    averaged coefficient matrix into `{alert: {other alert: coefficient}}`,
    keeping the non-negative coefficients off the diagonal. Writing the JSON
    file is left out. */
module Analyzer {
  import opened Common

  type Correlations = map<string, map<string, real>>

  /** The inner loop after the first `|row|` coefficients of row `i`: the
      dict of alert `i`, or the IndexError of `alerts[index_corr]`. */
  function RowEntries(alerts: seq<string>, i: int, row: seq<real>): Result<map<string, real>, PyError> {
    if row == [] then Ok(map[])
    else
      match RowEntries(alerts, i, row[..|row| - 1])
      case Err(e) => Err(e)
      case Ok(m) =>
        var j := |row| - 1;
        if j == i || !(row[j] >= 0.0) then Ok(m)
        else if j >= |alerts| then Err(IndexError)
        else Ok(m[alerts[j] := row[j]])
  }

  /** The outer loop after the first `n` alerts. */
  function CorrelationsUpTo(alerts: seq<string>, matrix: seq<seq<real>>, n: nat): Result<Correlations, PyError>
    requires n <= |alerts|
  {
    if n == 0 then Ok(map[])
    else
      match CorrelationsUpTo(alerts, matrix, n - 1)
      case Err(e) => Err(e)
      case Ok(out) =>
        if n - 1 >= |matrix| then Err(IndexError)
        else
          match RowEntries(alerts, n - 1, matrix[n - 1])
          case Err(e) => Err(e)
          case Ok(m) => Ok(out[alerts[n - 1] := m])
  }

  /** The inner loop over one row. */
  method FillRow(alerts: seq<string>, indexAlert: nat, row: seq<real>) returns (r: Result<map<string, real>, PyError>)
    ensures r == RowEntries(alerts, indexAlert, row)
  {
    var entries: map<string, real> := map[];
    var indexCorr := 0;
    while indexCorr < |row|
      invariant 0 <= indexCorr <= |row|
      invariant RowEntries(alerts, indexAlert, row[..indexCorr]) == Ok(entries)
    {
      assert row[..indexCorr + 1][..indexCorr] == row[..indexCorr];
      var corr := row[indexCorr];
      if indexAlert != indexCorr && corr >= 0.0 {
        if indexCorr >= |alerts| {
          RowErrSticks(alerts, indexAlert, row, indexCorr + 1);
          return Err(IndexError);
        }
        entries := entries[alerts[indexCorr] := corr];
      }
      indexCorr := indexCorr + 1;
    }
    assert row[..indexCorr] == row;
    r := Ok(entries);
  }

  lemma {:induction false} RowErrSticks(alerts: seq<string>, i: int, row: seq<real>, k: nat)
    requires k <= |row| && RowEntries(alerts, i, row[..k]).Err?
    ensures RowEntries(alerts, i, row) == RowEntries(alerts, i, row[..k])
    decreases |row| - k
  {
    if k < |row| {
      assert row[..k + 1][..k] == row[..k];
      RowErrSticks(alerts, i, row, k + 1);
    } else {
      assert row[..k] == row;
    }
  }

  lemma {:induction false} OuterErrSticks(alerts: seq<string>, matrix: seq<seq<real>>, k: nat)
    requires k <= |alerts| && CorrelationsUpTo(alerts, matrix, k).Err?
    ensures CorrelationsUpTo(alerts, matrix, |alerts|) == CorrelationsUpTo(alerts, matrix, k)
    decreases |alerts| - k
  {
    if k < |alerts| {
      OuterErrSticks(alerts, matrix, k + 1);
    }
  }

  /** create_alert_corrrelation_list without the file write. */
  method CreateAlertCorrelationList(alerts: seq<string>, matrix: seq<seq<real>>) returns (r: Result<Correlations, PyError>)
    ensures r == CorrelationsUpTo(alerts, matrix, |alerts|)
  {
    var alertCorrelation: Correlations := map[];
    var indexAlert := 0;
    while indexAlert < |alerts|
      invariant 0 <= indexAlert <= |alerts|
      invariant CorrelationsUpTo(alerts, matrix, indexAlert) == Ok(alertCorrelation)
    {
      if indexAlert >= |matrix| {
        OuterErrSticks(alerts, matrix, indexAlert + 1);
        return Err(IndexError);
      }
      var row := FillRow(alerts, indexAlert, matrix[indexAlert]);
      if row.Err? {
        OuterErrSticks(alerts, matrix, indexAlert + 1);
        return Err(row.error);
      }
      alertCorrelation := alertCorrelation[alerts[indexAlert] := row.value];
      indexAlert := indexAlert + 1;
    }
    r := Ok(alertCorrelation);
  }

  // ---------------------------------------------------------------------------
  // What the dict holds

  /** Row `i` indexes no alert past the list with a kept coefficient. */
  predicate RowFits(alerts: seq<string>, i: int, row: seq<real>) {
    forall j :: |alerts| <= j < |row| && j != i ==> !(row[j] >= 0.0)
  }

  /** Column `j` of row `i` is kept, and no later kept column names the same alert. */
  predicate LastKept(alerts: seq<string>, i: int, row: seq<real>, j: int) {
    && 0 <= j < |row| && j < |alerts| && j != i && row[j] >= 0.0
    && forall k :: j < k < |row| && k < |alerts| && k != i && row[k] >= 0.0 ==> alerts[k] != alerts[j]
  }

  /** A row raises exactly when a kept coefficient sits past the alerts;
      otherwise its dict maps each alert to the kept coefficient of its last
      column. */
  lemma RowEntriesSpec(alerts: seq<string>, i: int, row: seq<real>)
    ensures RowEntries(alerts, i, row).Ok? <==> RowFits(alerts, i, row)
    ensures RowEntries(alerts, i, row).Ok? ==>
      forall x :: x in RowEntries(alerts, i, row).value <==>
        exists j :: 0 <= j < |row| && j < |alerts| && j != i && row[j] >= 0.0 && alerts[j] == x
    ensures RowEntries(alerts, i, row).Ok? ==>
      forall j :: LastKept(alerts, i, row, j) ==> RowEntries(alerts, i, row).value[alerts[j]] == row[j]
  {
    RowOk(alerts, i, row);
    RowKeys(alerts, i, row);
    RowValues(alerts, i, row);
  }

  lemma {:induction false} RowOk(alerts: seq<string>, i: int, row: seq<real>)
    ensures RowEntries(alerts, i, row).Ok? <==> RowFits(alerts, i, row)
  {
    if row != [] {
      var prefix := row[..|row| - 1];
      RowOk(alerts, i, prefix);
      assert forall j :: 0 <= j < |prefix| ==> prefix[j] == row[j];
    }
  }

  lemma {:induction false} RowKeys(alerts: seq<string>, i: int, row: seq<real>)
    ensures RowEntries(alerts, i, row).Ok? ==>
      forall x :: x in RowEntries(alerts, i, row).value <==>
        exists j :: 0 <= j < |row| && j < |alerts| && j != i && row[j] >= 0.0 && alerts[j] == x
  {
    if row != [] {
      var prefix := row[..|row| - 1];
      RowKeys(alerts, i, prefix);
      var r := RowEntries(alerts, i, row);
      if r.Ok? {
        var m := RowEntries(alerts, i, prefix).value;
        forall x ensures x in r.value <==>
          exists j :: 0 <= j < |row| && j < |alerts| && j != i && row[j] >= 0.0 && alerts[j] == x
        {
          if x in m {
            var j :| 0 <= j < |prefix| && j < |alerts| && j != i && prefix[j] >= 0.0 && alerts[j] == x;
            assert row[j] == prefix[j];
          }
          if exists j :: 0 <= j < |row| && j < |alerts| && j != i && row[j] >= 0.0 && alerts[j] == x {
            var j :| 0 <= j < |row| && j < |alerts| && j != i && row[j] >= 0.0 && alerts[j] == x;
            if j < |prefix| {
              assert prefix[j] == row[j];
            }
          }
        }
      }
    }
  }

  lemma {:induction false} RowValues(alerts: seq<string>, i: int, row: seq<real>)
    ensures RowEntries(alerts, i, row).Ok? ==>
      forall j :: LastKept(alerts, i, row, j) ==>
        alerts[j] in RowEntries(alerts, i, row).value && RowEntries(alerts, i, row).value[alerts[j]] == row[j]
  {
    if row != [] {
      var prefix := row[..|row| - 1];
      RowValues(alerts, i, prefix);
      var r := RowEntries(alerts, i, row);
      if r.Ok? {
        var m := RowEntries(alerts, i, prefix).value;
        var last := |row| - 1;
        forall j | LastKept(alerts, i, row, j) ensures alerts[j] in r.value && r.value[alerts[j]] == row[j] {
          if j < last {
            assert prefix[j] == row[j];
            assert forall k :: j < k < |prefix| ==> prefix[k] == row[k];
            assert LastKept(alerts, i, prefix, j);
          }
        }
      }
    }
  }

  /** With distinct alerts, the dict of alert `i` holds exactly the other
      alerts whose coefficient is non-negative, with that coefficient, and
      never alert `i` itself. */
  lemma RowEntriesDistinct(alerts: seq<string>, i: int, row: seq<real>)
    requires 0 <= i < |alerts| && RowFits(alerts, i, row)
    requires forall j, k :: 0 <= j < k < |alerts| ==> alerts[j] != alerts[k]
    ensures RowEntries(alerts, i, row).Ok?
    ensures alerts[i] !in RowEntries(alerts, i, row).value
    ensures forall j :: 0 <= j < |row| && j < |alerts| && j != i ==>
              (alerts[j] in RowEntries(alerts, i, row).value <==> row[j] >= 0.0)
    ensures forall j :: 0 <= j < |row| && j < |alerts| && j != i && row[j] >= 0.0 ==>
              RowEntries(alerts, i, row).value[alerts[j]] == row[j]
  {
    RowEntriesSpec(alerts, i, row);
  }

  /** The outer loop raises exactly when the matrix has fewer rows than there
      are alerts or some row keeps a coefficient past the alerts. */
  lemma {:induction false} CorrelationsOk(alerts: seq<string>, matrix: seq<seq<real>>, n: nat)
    requires n <= |alerts|
    ensures CorrelationsUpTo(alerts, matrix, n).Ok? <==>
      n <= |matrix| && forall i :: 0 <= i < n ==> RowFits(alerts, i, matrix[i])
  {
    if n > 0 {
      CorrelationsOk(alerts, matrix, n - 1);
      if n - 1 < |matrix| {
        RowOk(alerts, n - 1, matrix[n - 1]);
      }
    }
  }

  /** Otherwise every alert has a dict ... */
  lemma {:induction false} CorrelationsKeys(alerts: seq<string>, matrix: seq<seq<real>>, n: nat)
    requires n <= |alerts| && CorrelationsUpTo(alerts, matrix, n).Ok?
    ensures forall x :: x in CorrelationsUpTo(alerts, matrix, n).value <==> x in alerts[..n]
  {
    if n > 0 {
      CorrelationsKeys(alerts, matrix, n - 1);
      assert alerts[..n] == alerts[..n - 1] + [alerts[n - 1]];
    }
  }

  /** ... and the dict of an alert is that of its last row. */
  lemma {:induction false} CorrelationsRows(alerts: seq<string>, matrix: seq<seq<real>>, n: nat)
    requires n <= |alerts| && n <= |matrix| && CorrelationsUpTo(alerts, matrix, n).Ok?
    ensures forall i :: 0 <= i < n && (forall k :: i < k < n ==> alerts[k] != alerts[i]) ==>
              alerts[i] in CorrelationsUpTo(alerts, matrix, n).value &&
              Ok(CorrelationsUpTo(alerts, matrix, n).value[alerts[i]]) == RowEntries(alerts, i, matrix[i])
  {
    if n > 0 {
      CorrelationsRows(alerts, matrix, n - 1);
      var out := CorrelationsUpTo(alerts, matrix, n - 1).value;
      var m := RowEntries(alerts, n - 1, matrix[n - 1]).value;
      var all := CorrelationsUpTo(alerts, matrix, n).value;
      assert all == out[alerts[n - 1] := m];
      forall i | 0 <= i < n && (forall k :: i < k < n ==> alerts[k] != alerts[i])
        ensures alerts[i] in all && Ok(all[alerts[i]]) == RowEntries(alerts, i, matrix[i])
      {
        if i < n - 1 {
          assert alerts[n - 1] != alerts[i];
        }
      }
    }
  }

  /** Every alert gets a dict, no alert correlates with itself, and a kept
      coefficient is stored under the other alert's name, when the alerts are
      distinct and the matrix fits. */
  lemma CorrelationsDistinct(alerts: seq<string>, matrix: seq<seq<real>>)
    requires |alerts| <= |matrix| && forall i :: 0 <= i < |alerts| ==> RowFits(alerts, i, matrix[i])
    requires forall j, k :: 0 <= j < k < |alerts| ==> alerts[j] != alerts[k]
    ensures CorrelationsUpTo(alerts, matrix, |alerts|).Ok?
    ensures forall i :: 0 <= i < |alerts| ==> alerts[i] in CorrelationsUpTo(alerts, matrix, |alerts|).value
    ensures forall i :: 0 <= i < |alerts| ==>
              alerts[i] !in CorrelationsUpTo(alerts, matrix, |alerts|).value[alerts[i]]
    ensures forall i, j :: 0 <= i < |alerts| && 0 <= j < |alerts| && j < |matrix[i]| && i != j ==>
              (alerts[j] in CorrelationsUpTo(alerts, matrix, |alerts|).value[alerts[i]] <==> matrix[i][j] >= 0.0)
    ensures forall i, j :: 0 <= i < |alerts| && 0 <= j < |alerts| && j < |matrix[i]| && i != j && matrix[i][j] >= 0.0 ==>
              CorrelationsUpTo(alerts, matrix, |alerts|).value[alerts[i]][alerts[j]] == matrix[i][j]
  {
    CorrelationsOk(alerts, matrix, |alerts|);
    CorrelationsKeys(alerts, matrix, |alerts|);
    CorrelationsRows(alerts, matrix, |alerts|);
    assert alerts[..|alerts|] == alerts;
    forall i | 0 <= i < |alerts| {
      RowEntriesDistinct(alerts, i, matrix[i]);
    }
  }
}
