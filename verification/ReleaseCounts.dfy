/** What the counts of a batch count, and what its summary says of its items. */
module ReleaseCounts {
  import opened Options
  import opened ReleaseAssessment
  import opened ReleaseLedger

  predicate IsDeployed(row: Row) {
    row.deployment.state == Confirmed
  }

  predicate IsEnabled(row: Row) {
    row.enablement.state == Plain(Enabled)
  }

  predicate IsAccepted(row: Row) {
    row.acceptance.state == Plain(Passed)
  }

  predicate IsRolledBack(row: Row) {
    row.deployment.state == Plain(RolledBack)
  }

  predicate IsUnverified(row: Row) {
    row.deployment.state == Plain(Unknown) || row.deployment.state == Reported
  }

  /** The places at which something holds of a row. */
  function Where(rows: seq<Row>, which: Row -> bool): set<nat> {
    set i: nat | i < |rows| && which(rows[i])
  }

  /** Each count is the number of places at which its state stands. */
  predicate Counted(c: Counts, rows: seq<Row>) {
    && c.total == |rows|
    && c.deployed == |Where(rows, IsDeployed)|
    && c.enabled == |Where(rows, IsEnabled)|
    && c.accepted == |Where(rows, IsAccepted)|
    && c.rolledBack == |Where(rows, IsRolledBack)|
    && c.unverified == |Where(rows, IsUnverified)|
  }

  lemma WhereGrows(rows: seq<Row>, row: Row, which: Row -> bool)
    ensures |Where(rows + [row], which)| == |Where(rows, which)| + One(which(row))
  {
    var n := |rows|;
    assert Where(rows + [row], which) == if which(row) then Where(rows, which) + {n} else Where(rows, which);
  }

  lemma {:induction false} CountAppends(c: Counts, rows: seq<Row>, row: Row)
    ensures CountAll(c, rows + [row]) == Count(CountAll(c, rows), row)
    decreases |rows|
  {
    if rows == [] {
      assert [] + [row] == [row] && [row][1..] == [];
    } else {
      assert (rows + [row])[0] == rows[0] && (rows + [row])[1..] == rows[1..] + [row];
      CountAppends(Count(c, rows[0]), rows[1..], row);
    }
  }

  lemma CountsOneMore(c: Counts, rows: seq<Row>, row: Row)
    requires Counted(c, rows)
    ensures Counted(Count(c, row), rows + [row])
  {
    WhereGrows(rows, row, IsDeployed);
    WhereGrows(rows, row, IsEnabled);
    WhereGrows(rows, row, IsAccepted);
    WhereGrows(rows, row, IsRolledBack);
    WhereGrows(rows, row, IsUnverified);
  }

  lemma {:induction false} CountsAreCounted(rows: seq<Row>)
    ensures Counted(CountAll(ZERO, rows), rows)
    decreases |rows|
  {
    if rows == [] { return; }
    var init, last := rows[..|rows| - 1], rows[|rows| - 1];
    assert rows == init + [last];
    CountsAreCounted(init);
    CountAppends(ZERO, init, last);
    CountsOneMore(CountAll(ZERO, init), init, last);
  }

  /** A count is zero exactly if its state stands nowhere, and the total exactly if it stands everywhere. */
  lemma {:induction false} WhereExtremes(rows: seq<Row>, which: Row -> bool)
    ensures |Where(rows, which)| <= |rows|
    ensures |Where(rows, which)| == 0 <==> forall i :: 0 <= i < |rows| ==> !which(rows[i])
    ensures |Where(rows, which)| == |rows| <==> forall i :: 0 <= i < |rows| ==> which(rows[i])
    decreases |rows|
  {
    if rows == [] { return; }
    var n := |rows| - 1;
    var init, last := rows[..n], rows[n];
    assert rows == init + [last];
    WhereExtremes(init, which);
    WhereGrows(init, last, which);
    assert forall i :: 0 <= i < |rows| ==> rows[i] == if i < n then init[i] else last;
    assert forall i :: 0 <= i < n ==> init[i] == rows[i];
  }

  /**
   A batch is released exactly if every item is confirmed, partly released exactly if some are
   and some are not, rolled back exactly if it has items and all of them are rolled back, and
   otherwise unverified.
   */
  lemma SummaryMeans(rows: seq<Row>)
    ensures var summary := SummaryOf(CountAll(ZERO, rows));
            && (summary == Released <==> forall i :: 0 <= i < |rows| ==> IsDeployed(rows[i]))
            && (summary == Partial <==> (exists i :: 0 <= i < |rows| && IsDeployed(rows[i])) &&
                                        (exists i :: 0 <= i < |rows| && !IsDeployed(rows[i])))
            && (summary == AllRolledBack <==> rows != [] && forall i :: 0 <= i < |rows| ==> IsRolledBack(rows[i]))
            && (summary == Unverified <==> (forall i :: 0 <= i < |rows| ==> !IsDeployed(rows[i])) &&
                                           (exists i :: 0 <= i < |rows| && !IsRolledBack(rows[i])))
  {
    CountsAreCounted(rows);
    WhereExtremes(rows, IsDeployed);
    WhereExtremes(rows, IsRolledBack);
  }
}
