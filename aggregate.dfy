/** The batch loop and the ordering of the summary table (`run_analysis`,
    pybaseline_loop.py:185-241): which per-file records are kept, the sort
    keys of the loop labels (`key_loop`) and of the measurement columns
    (`key_col`), and the three-level column headers. */
module Aggregate {
  import opened Base
  import opened Sorting
  import opened FileName
  import opened Pipeline

  // ---------------------------------------------------------------------
  // The batch loop, lines 185-201

  /** `if result:` and then `"error" in result`: a record is kept when it
      exists, is not empty and is not an error record. */
  predicate IsKept(o: Option<Record>)
  {
    o.Some? && |o.value| > 0 && "error" !in o.value
  }

  /** The kept records of a sequence of outcomes, in order. */
  function Kept(os: seq<Option<Record>>): (rs: seq<Record>)
    ensures |rs| <= |os|
    ensures forall k :: 0 <= k < |rs| ==> |rs[k]| > 0 && "error" !in rs[k]
  {
    if |os| == 0 then []
    else Kept(os[..|os| - 1]) + (if IsKept(os[|os| - 1]) then [os[|os| - 1].value] else [])
  }

  /** The outcome of every file, in the order the files are processed. */
  function Outcomes(num: Numerics, files: seq<InputFile>): (os: seq<Option<Record>>)
    requires Valid(num)
    ensures |os| == |files|
  {
    if |files| == 0 then []
    else Outcomes(num, files[..|files| - 1]) + [ProcessSignalFile(num, files[|files| - 1])]
  }

  /** Outcome i is the outcome of file i. */
  lemma {:induction false} OutcomeAt(num: Numerics, files: seq<InputFile>, i: nat)
    requires Valid(num) && i < |files|
    ensures Outcomes(num, files)[i] == ProcessSignalFile(num, files[i])
  {
    if i < |files| - 1 {
      OutcomeAt(num, files[..|files| - 1], i);
    }
  }

  /** Lines 185-201: process every file and keep its record unless the file
      was skipped or failed. */
  method RunAnalysis(num: Numerics, files: seq<InputFile>) returns (results: seq<Record>)
    requires Valid(num)
    ensures results == Kept(Outcomes(num, files))
  {
    results := [];
    var i := 0;
    while i < |files|
      invariant 0 <= i <= |files|
      invariant results == Kept(Outcomes(num, files[..i]))
    {
      var result := ProcessSignalFile(num, files[i]);
      OutcomesStep(num, files, i);
      KeptStep(Outcomes(num, files[..i]), result);
      if result.Some? && |result.value| > 0 {
        if "error" !in result.value {
          results := results + [result.value];
        }
      }
      i := i + 1;
    }
    assert files[..|files|] == files;
  }

  /** One more file adds its outcome at the end. */
  lemma OutcomesStep(num: Numerics, files: seq<InputFile>, i: nat)
    requires Valid(num) && i < |files|
    ensures Outcomes(num, files[..i + 1]) == Outcomes(num, files[..i]) + [ProcessSignalFile(num, files[i])]
  {
    assert files[..i + 1][..i] == files[..i];
  }

  /** One more outcome adds its record at the end when it is kept. */
  lemma KeptStep(os: seq<Option<Record>>, o: Option<Record>)
    ensures Kept(os + [o]) == Kept(os) + (if IsKept(o) then [o.value] else [])
  {
    assert (os + [o])[..|os|] == os;
  }

  /** Keeping distributes over concatenation: the order of the files is the
      order of the results. */
  lemma {:induction false} KeptConcat(a: seq<Option<Record>>, b: seq<Option<Record>>)
    ensures Kept(a + b) == Kept(a) + Kept(b)
  {
    if |b| == 0 {
      assert a + b == a;
    } else {
      var b' := b[..|b| - 1];
      assert (a + b)[..|a + b| - 1] == a + b';
      assert (a + b)[|a + b| - 1] == b[|b| - 1];
      KeptConcat(a, b');
    }
  }

  /** A record is among the kept ones exactly when some outcome is that
      record and it passes the test. */
  lemma {:induction false} KeptMembers(os: seq<Option<Record>>, r: Record)
    ensures r in Kept(os) <==> Some(r) in os && IsKept(Some(r))
  {
    if |os| > 0 {
      var init := os[..|os| - 1];
      assert os == init + [os[|os| - 1]];
      KeptMembers(init, r);
    }
  }

  /** Every record the batch keeps is the measurement record of one of the
      files. */
  lemma KeptAreMeasurements(num: Numerics, files: seq<InputFile>, r: Record)
    requires Valid(num)
    requires r in Kept(Outcomes(num, files))
    ensures "loop" in r && "error" !in r
    ensures exists i :: 0 <= i < |files| && ProcessSignalFile(num, files[i]) == Some(r)
  {
    var os := Outcomes(num, files);
    KeptMembers(os, r);
    var i :| 0 <= i < |os| && os[i] == Some(r);
    OutcomeAt(num, files, i);
    RecordKinds(num, files[i]);
  }

  /** A file's record is kept exactly when the file was read, its name
      matches and it has enough non-zero samples to be smoothed. */
  lemma FileIsKeptIff(num: Numerics, file: InputFile)
    requires Valid(num)
    ensures IsKept(ProcessSignalFile(num, file)) <==>
              && file.load.Loaded?
              && ParseFileName(file.name).Some?
              && |Trace.NonZeroRows(file.load.rows)| >= WindowLength
  {
    RecordKinds(num, file);
    if file.load.Loaded? && ParseFileName(file.name).Some? && |Trace.NonZeroRows(file.load.rows)| >= WindowLength {
      MeasurementRecordShape(ParseFileName(file.name).value, Analyse(num, file.load.rows).value.correctedPeak);
    }
  }

  // ---------------------------------------------------------------------
  // key_loop, lines 215-217

  /** The key of a label that does not start with `loop` and a digit. */
  const NoLoopKey: nat := 99999

  /** `key_loop`: `re.match(r'loop(\d+)', x)` then `int` of the digits, or
      99999. */
  function KeyLoop(x: string): (k: nat)
    // a label that does not start with `loop` and a digit sorts last
    ensures !(|x| >= 5 && x[..4] == "loop" && IsDigit(x[4])) ==> k == NoLoopKey
  {
    if |x| >= 5 && x[..4] == "loop" && IsDigit(x[4]) then DigitsValue(LeadingDigits(x[4..])) else NoLoopKey
  }

  /** The key of `"loop" + N`, whatever follows the digit run, is `int(N)`. */
  lemma KeyLoopOfLabel(digits: string, rest: string)
    requires |digits| > 0 && AllDigits(digits)
    requires |rest| == 0 || !IsDigit(rest[0])
    ensures KeyLoop("loop" + digits + rest) == DigitsValue(digits)
  {
    var tail := digits + rest;
    var x := "loop" + tail;
    assert x == "loop" + digits + rest;
    assert x[..4] == "loop";
    assert x[4..] == tail;
    assert x[4] == digits[0];
    LeadingDigitsOfRun(digits, rest);
    assert LeadingDigits(x[4..]) == digits;
  }

  /** The loop label of a file's record sorts by the loop number of its name. */
  lemma RecordLoopKey(f: NameFields)
    requires WellFormed(f)
    ensures KeyLoop("loop" + f.loop) == DigitsValue(f.loop)
  {
    KeyLoopOfLabel(f.loop, "");
    assert "loop" + f.loop + "" == "loop" + f.loop;
  }

  predicate LoopLe(a: string, b: string)
  {
    KeyLoop(a) <= KeyLoop(b)
  }

  /** `sort_index(key=...)` on the loop labels: ordered by key, a permutation. */
  function SortLoops(labels: seq<string>): (r: seq<string>)
    ensures SortedBy(r, LoopLe) && multiset(r) == multiset(labels)
  {
    assert Total(LoopLe);
    SortBy(labels, LoopLe)
  }

  /** In the sorted table, a loop with the smaller number comes first. */
  lemma LoopsInNumericOrder(labels: seq<string>, i: nat, j: nat, a: string, b: string)
    requires SortedBy(labels, LoopLe)
    requires i < |labels| && j < |labels|
    requires |a| > 0 && AllDigits(a) && |b| > 0 && AllDigits(b)
    requires labels[i] == "loop" + a && labels[j] == "loop" + b
    requires DigitsValue(a) < DigitsValue(b)
    ensures i < j
  {
    RecordLoopKey(NameFields("", "00", "C00", a));
    RecordLoopKey(NameFields("", "00", "C00", b));
    if j < i {
      assert Transitive(LoopLe);
      SortedPairwise(labels, LoopLe, j, i);
    }
  }

  // ---------------------------------------------------------------------
  // key_col, lines 223-231, and the column headers, lines 234-242

  /** The groups of `C(\d{2}) - (\d{2}) - (Tension \(V\)|Courant \(A\))`. */
  datatype ColumnFields = ColumnFields(channelDigits: string, variantDigits: string, measure: Measure)

  /** `re.match` of the column pattern: a prefix match, anything may follow. */
  function ParseColumn(col: string): (r: Option<ColumnFields>)
    ensures r.Some? ==>
              && |col| >= 22
              && |r.value.channelDigits| == 2 && AllDigits(r.value.channelDigits)
              && |r.value.variantDigits| == 2 && AllDigits(r.value.variantDigits)
              && col[..22] == ColumnName("C" + r.value.channelDigits, r.value.variantDigits, r.value.measure)
  {
    if |col| < 22 then None
    else if col[0] == 'C' && AllDigits(col[1..3]) && col[3..6] == " - " && AllDigits(col[6..8]) && col[8..11] == " - " then
      if col[11..22] == MeasureLabel(Tension) then
        assert col[..22] == ColumnName("C" + col[1..3], col[6..8], Tension);
        Some(ColumnFields(col[1..3], col[6..8], Tension))
      else if col[11..22] == MeasureLabel(Courant) then
        assert col[..22] == ColumnName("C" + col[1..3], col[6..8], Courant);
        Some(ColumnFields(col[1..3], col[6..8], Courant))
      else None
    else None
  }

  /** A column name built by `processSignalFile`, followed by anything, is
      read back into its channel digits, variant and measure. */
  lemma ParseColumnName(cd: string, vd: string, m: Measure, rest: string)
    requires |cd| == 2 && AllDigits(cd) && |vd| == 2 && AllDigits(vd)
    ensures ParseColumn(ColumnName("C" + cd, vd, m) + rest) == Some(ColumnFields(cd, vd, m))
  {
    var name := MeasureLabel(m);
    var head := "C" + cd + " - " + vd + " - ";
    var col := ColumnName("C" + cd, vd, m) + rest;
    assert col == head + (name + rest);
    assert |head| == 11 && |name| == 11;
    assert col[11..22] == name;
    assert col[..11] == head;
    assert col[0] == head[0] == 'C';
    assert col[1..3] == head[1..3] == cd;
    assert col[3..6] == head[3..6] == " - ";
    assert col[6..8] == head[6..8] == vd;
    assert col[8..11] == head[8..11] == " - ";
  }

  /** The key of a column that does not match the pattern. */
  const NoColumnKey: (nat, nat, nat) := (999, 999, 999)

  /** `key_col`: (channel, variant, 0 for Tension or 1 for Courant). */
  function KeyCol(col: string): (k: (nat, nat, nat))
    ensures ParseColumn(col).None? ==> k == NoColumnKey
    // a measurement column's key lies below the key of every other column
    ensures ParseColumn(col).Some? ==> k.0 <= 99 && k.1 <= 99 && k.2 <= 1
    ensures ParseColumn(col).Some? ==> (k.2 == 0 <==> ParseColumn(col).value.measure == Tension)
  {
    match ParseColumn(col)
    case Some(f) =>
      TwoDigitsBelowHundred(f.channelDigits);
      TwoDigitsBelowHundred(f.variantDigits);
      (DigitsValue(f.channelDigits), DigitsValue(f.variantDigits), if f.measure == Tension then 0 else 1)
    case None => NoColumnKey
  }

  /** The key of a record's measurement column gives back its channel and
      variant numbers and puts Tension before Courant. */
  lemma KeyColOfColumnName(cd: string, vd: string, m: Measure)
    requires |cd| == 2 && AllDigits(cd) && |vd| == 2 && AllDigits(vd)
    ensures KeyCol(ColumnName("C" + cd, vd, m)) ==
              (DigitsValue(cd), DigitsValue(vd), if m == Tension then 0 else 1)
  {
    ParseColumnName(cd, vd, m, "");
    assert ColumnName("C" + cd, vd, m) + "" == ColumnName("C" + cd, vd, m);
  }

  /** Python's tuple comparison. */
  predicate LexLe(a: (nat, nat, nat), b: (nat, nat, nat))
  {
    a.0 < b.0 || (a.0 == b.0 && (a.1 < b.1 || (a.1 == b.1 && a.2 <= b.2)))
  }

  predicate ColumnLe(a: string, b: string)
  {
    LexLe(KeyCol(a), KeyCol(b))
  }

  lemma ColumnLeIsTotalOrder()
    ensures Total(ColumnLe) && Transitive(ColumnLe)
  {
  }

  /** `sorted(columns, key=key_col)`: ordered by key, a permutation. */
  function SortColumns(cols: seq<string>): (r: seq<string>)
    ensures SortedBy(r, ColumnLe) && multiset(r) == multiset(cols)
  {
    ColumnLeIsTotalOrder();
    SortBy(cols, ColumnLe)
  }

  /** In the sorted columns, the Tension column of a channel and variant
      comes before its Courant column. */
  lemma TensionBeforeCourant(cols: seq<string>, cd: string, vd: string, i: nat, j: nat)
    requires SortedBy(cols, ColumnLe)
    requires |cd| == 2 && AllDigits(cd) && |vd| == 2 && AllDigits(vd)
    requires i < |cols| && j < |cols|
    requires cols[i] == ColumnName("C" + cd, vd, Tension) && cols[j] == ColumnName("C" + cd, vd, Courant)
    ensures i < j
  {
    KeyColOfColumnName(cd, vd, Tension);
    KeyColOfColumnName(cd, vd, Courant);
    if j < i {
      ColumnLeIsTotalOrder();
      SortedPairwise(cols, ColumnLe, j, i);
    }
  }

  /** Every measurement column sorts before any column the pattern rejects. */
  lemma MeasurementsBeforeOthers(cols: seq<string>, i: nat, j: nat)
    requires SortedBy(cols, ColumnLe)
    requires i < |cols| && j < |cols|
    requires ParseColumn(cols[i]).Some? && ParseColumn(cols[j]).None?
    ensures i < j
  {
    if j < i {
      ColumnLeIsTotalOrder();
      SortedPairwise(cols, ColumnLe, j, i);
    }
  }

  /** One header tuple (canal, variante, mesure), or ("", "", col) for a
      column the pattern rejects. */
  function HeaderTuple(col: string): (h: (string, string, string))
    ensures ParseColumn(col).None? ==> h == ("", "", col)
    // the three header levels join back into the matched part of the name
    ensures ParseColumn(col).Some? ==> h.0 + " - " + h.1 + " - " + h.2 == col[..22]
  {
    match ParseColumn(col)
    case Some(f) => ("C" + f.channelDigits, f.variantDigits, MeasureLabel(f.measure))
    case None => ("", "", col)
  }

  /** The header of a record's measurement column splits its name back into
      channel, variant and measure. */
  lemma HeaderTupleOfColumnName(f: NameFields, m: Measure)
    requires WellFormed(f)
    ensures HeaderTuple(ColumnName(f.channel, f.variant, m)) == (f.channel, f.variant, MeasureLabel(m))
  {
    var cd := f.channel[1..];
    assert f.channel == "C" + cd;
    ParseColumnName(cd, f.variant, m, "");
    assert ColumnName("C" + cd, f.variant, m) + "" == ColumnName(f.channel, f.variant, m);
  }

  /** Lines 234-241: the header tuples, one per column, in column order. */
  method HeaderTuples(cols: seq<string>) returns (tuples: seq<(string, string, string)>)
    ensures |tuples| == |cols|
    ensures forall i :: 0 <= i < |cols| ==> tuples[i] == HeaderTuple(cols[i])
  {
    tuples := [];
    for i := 0 to |cols|
      invariant |tuples| == i
      invariant forall k :: 0 <= k < i ==> tuples[k] == HeaderTuple(cols[k])
    {
      var m := ParseColumn(cols[i]);
      assert HeaderTuple(cols[i]) ==
               if m.Some? then ("C" + m.value.channelDigits, m.value.variantDigits, MeasureLabel(m.value.measure))
               else ("", "", cols[i]);
      if m.Some? {
        tuples := tuples + [("C" + m.value.channelDigits, m.value.variantDigits, MeasureLabel(m.value.measure))];
      } else {
        tuples := tuples + [("", "", cols[i])];
      }
    }
  }
}
