/** The Cleaner (`processData`, pybaseline_loop.py:31-35): drop the rows
    whose current is exactly zero, sort the rest by potential and negate the
    current into the signal channel. */
module Trace {
  import opened Sorting

  /** One line of a measurement file: (Potential, Current). */
  datatype Row = Row(potential: real, current: real)

  /** The three values `processData` returns: the potentials, the sign-inverted
      currents and the cleaned table they were taken from. */
  datatype CleanedTrace = CleanedTrace(potentials: seq<real>, signal: seq<real>, rows: seq<Row>)

  /** `dataFrame[dataFrame["Current"] != 0]`: the rows with a non-zero current,
      in their original order. */
  function NonZeroRows(rows: seq<Row>): (r: seq<Row>)
    ensures |r| <= |rows|
    ensures forall i :: 0 <= i < |r| ==> r[i].current != 0.0
  {
    if |rows| == 0 then []
    else if rows[|rows| - 1].current != 0.0 then NonZeroRows(rows[..|rows| - 1]) + [rows[|rows| - 1]]
    else NonZeroRows(rows[..|rows| - 1])
  }

  /** The filter keeps every row with a non-zero current as often as it
      occurs, and no other row. */
  lemma {:induction false} NonZeroRowsCount(rows: seq<Row>, x: Row)
    ensures multiset(NonZeroRows(rows))[x] == if x.current != 0.0 then multiset(rows)[x] else 0
  {
    if |rows| > 0 {
      var init := rows[..|rows| - 1];
      assert rows == init + [rows[|rows| - 1]];
      NonZeroRowsCount(init, x);
    }
  }

  /** The table of a permutation of the kept rows, sorted by potential,
      has the properties `processData` promises. */
  lemma TabulateCleaned(rows: seq<Row>, sorted: seq<Row>)
    requires multiset(sorted) == multiset(NonZeroRows(rows)) && SortedBy(sorted, PotentialLe)
    ensures
      var t := Tabulate(sorted);
      && |t.rows| == |t.potentials| == |t.signal| == |NonZeroRows(rows)|
      && (forall x :: multiset(t.rows)[x] == if x.current != 0.0 then multiset(rows)[x] else 0)
      && SortedBy(t.rows, PotentialLe)
      && (forall i :: 0 < i < |t.potentials| ==> t.potentials[i - 1] <= t.potentials[i])
      && (forall i :: 0 <= i < |t.rows| ==>
            t.potentials[i] == t.rows[i].potential && t.signal[i] == -t.rows[i].current)
      && (forall i :: 0 <= i < |t.signal| ==> t.signal[i] != 0.0)
  {
    var t := Tabulate(sorted);
    assert |sorted| == |multiset(sorted)| == |NonZeroRows(rows)|;
    forall x ensures multiset(sorted)[x] == if x.current != 0.0 then multiset(rows)[x] else 0 {
      NonZeroRowsCount(rows, x);
    }
    forall i | 0 <= i < |sorted| ensures t.signal[i] != 0.0 {
      assert multiset(sorted)[sorted[i]] > 0;
    }
    forall i | 0 < i < |sorted| ensures t.potentials[i - 1] <= t.potentials[i] {
      assert PotentialLe(sorted[i - 1], sorted[i]);
    }
  }

  /** `sort_values("Potential")` compares rows by potential alone. */
  predicate PotentialLe(a: Row, b: Row)
  {
    a.potential <= b.potential
  }

  lemma PotentialLeIsTotal()
    ensures Total(PotentialLe)
  {
  }

  /** `processData`: the result holds exactly the non-zero-current rows (a
      permutation of them), sorted by non-decreasing potential, with the
      potentials and the negated currents aligned to those rows. */
  function ProcessData(rows: seq<Row>): (t: CleanedTrace)
    ensures |t.rows| == |t.potentials| == |t.signal| == |NonZeroRows(rows)|
    ensures forall x :: multiset(t.rows)[x] == if x.current != 0.0 then multiset(rows)[x] else 0
    ensures SortedBy(t.rows, PotentialLe)
    ensures forall i :: 0 < i < |t.potentials| ==> t.potentials[i - 1] <= t.potentials[i]
    ensures forall i :: 0 <= i < |t.rows| ==>
              t.potentials[i] == t.rows[i].potential && t.signal[i] == -t.rows[i].current
    ensures forall i :: 0 <= i < |t.signal| ==> t.signal[i] != 0.0
  {
    PotentialLeIsTotal();
    var sorted := SortBy(NonZeroRows(rows), PotentialLe);
    TabulateCleaned(rows, sorted);
    Tabulate(sorted)
  }

  /** The potential and negated current columns of a table. */
  function Tabulate(rows: seq<Row>): (t: CleanedTrace)
    ensures t.rows == rows && |t.potentials| == |t.signal| == |rows|
    ensures forall i :: 0 <= i < |rows| ==> t.potentials[i] == rows[i].potential && t.signal[i] == -rows[i].current
  {
    CleanedTrace(
      seq(|rows|, i requires 0 <= i < |rows| => rows[i].potential),
      seq(|rows|, i requires 0 <= i < |rows| => -rows[i].current),
      rows)
  }
}
