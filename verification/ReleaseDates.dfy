/** Latest dates: of a list in which some dates are missing, and of a list of such lists. */
module ReleaseDates {
  import opened Options

  type Date = Option<int>

  function Later(a: Date, b: Date): Date {
    if a.None? then b else if b.None? || b.value <= a.value then a else b
  }

  function Max(dates: seq<Date>): Date
    decreases |dates|
  {
    if dates == [] then None else Later(dates[0], Max(dates[1..]))
  }

  function MaxEach(grid: seq<seq<Date>>): seq<Date> {
    seq(|grid|, i requires 0 <= i < |grid| => Max(grid[i]))
  }

  /** No earlier than. */
  predicate Bounds(a: Date, b: Date) {
    b.None? || (a.Some? && a.value >= b.value)
  }

  /** `m` is the latest of the dates, if there is any. */
  ghost predicate IsMax(m: Date, dates: seq<Date>) {
    && (forall i :: 0 <= i < |dates| ==> Bounds(m, dates[i]))
    && (m.Some? ==> m in dates)
  }

  lemma {:induction false} MaxIsMax(dates: seq<Date>)
    ensures IsMax(Max(dates), dates)
    decreases |dates|
  {
    if dates == [] { return; }
    MaxIsMax(dates[1..]);
    forall i | 0 <= i < |dates| ensures Bounds(Max(dates), dates[i]) {
      assert i > 0 ==> dates[i] == dates[1..][i - 1];
    }
  }

  lemma {:induction false} MaxJoins(a: seq<Date>, b: seq<Date>)
    ensures Max(a + b) == Later(Max(a), Max(b))
    decreases |a|
  {
    if a == [] {
      assert a + b == b;
    } else {
      assert (a + b)[0] == a[0] && (a + b)[1..] == a[1..] + b;
      MaxJoins(a[1..], b);
    }
  }

  lemma MaxOfOne(dates: seq<Date>)
    ensures Max(MaxEach([dates])) == Max(dates)
  {
    assert MaxEach([dates]) == [Max(dates)] && [Max(dates)][1..] == [];
    assert Max([Max(dates)]) == Later(Max(dates), Max([]));
  }

  lemma MaxOfBounded(earlier: seq<Date>, more: seq<Date>)
    requires forall i :: 0 <= i < |more| ==> Bounds(Max(earlier), more[i])
    ensures Max(earlier + more) == Max(earlier)
  {
    MaxJoins(earlier, more);
    MaxIsMax(more);
  }

  /** A date stands somewhere in a grid. */
  ghost predicate Occurs(grid: seq<seq<Date>>, date: int) {
    exists i, j :: 0 <= i < |grid| && 0 <= j < |grid[i]| && grid[i][j] == Some(date)
  }

  lemma GridBounds(grid: seq<seq<Date>>, i: nat, j: nat)
    requires i < |grid| && j < |grid[i]|
    ensures Bounds(Max(MaxEach(grid)), grid[i][j])
  {
    MaxIsMax(MaxEach(grid));
    MaxIsMax(grid[i]);
    assert Bounds(Max(grid[i]), grid[i][j]) && MaxEach(grid)[i] == Max(grid[i]);
  }

  /** The latest date of a grid occurs in it, and no later one does. */
  lemma GridMax(grid: seq<seq<Date>>)
    ensures Max(MaxEach(grid)).Some? ==> Occurs(grid, Max(MaxEach(grid)).value)
    ensures forall date :: Occurs(grid, date) ==> Bounds(Max(MaxEach(grid)), Some(date))
  {
    var m := Max(MaxEach(grid));
    forall date | Occurs(grid, date) ensures Bounds(m, Some(date)) {
      var i, j :| 0 <= i < |grid| && 0 <= j < |grid[i]| && grid[i][j] == Some(date);
      GridBounds(grid, i, j);
    }
    MaxIsMax(MaxEach(grid));
    if m.Some? {
      var i :| 0 <= i < |grid| && MaxEach(grid)[i] == m;
      MaxIsMax(grid[i]);
      var j :| 0 <= j < |grid[i]| && grid[i][j] == m;
      assert Occurs(grid, m.value);
    }
  }

  /** More rows never make the latest date earlier. */
  lemma GridGrows(grid: seq<seq<Date>>, more: seq<seq<Date>>)
    ensures Bounds(Max(MaxEach(grid + more)), Max(MaxEach(grid)))
  {
    MaxIsMax(MaxEach(grid));
    MaxIsMax(MaxEach(grid + more));
    var m := Max(MaxEach(grid));
    if m.Some? {
      var i :| 0 <= i < |grid| && MaxEach(grid)[i] == m;
      assert MaxEach(grid + more)[i] == m;
    }
  }
}
