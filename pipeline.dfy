/** The per-file pipeline (`processSignalFile`, pybaseline_loop.py:88-126):
    cleaning, smoothing, a first peak search, the baseline fit around that
    peak, baseline subtraction and a second peak search on the corrected
    signal, and the record that reports the corrected peak. */
module Pipeline {
  import opened Base
  import opened Trace
  import opened PeakSearch
  import opened Baseline
  import opened FileName

  /** `savgol_filter(..., window_length=11, polyorder=2)`. */
  const WindowLength: nat := 11
  /** Both peak searches use `marginRatio=0.10, maxSlope=500`. */
  const MarginRatio: real := 0.1
  const MaxSlope: real := 500.0
  /** The baseline fit uses `exclusionWidthRatio=0.03, lambdaFactor=1e3`. */
  const ExclusionWidthRatio: real := 0.03
  const LambdaFactor: real := 1000.0

  /** The Savitzky-Golay filter, a parameter of the model. */
  type Smoother = seq<real> -> seq<real>

  /** The two numerical collaborators: the smoother and the baseline fitter. */
  datatype Numerics = Numerics(smooth: Smoother, fit: Fitter)

  /** Both collaborators return arrays as long as the signal they are given. */
  ghost predicate Valid(num: Numerics)
  {
    (forall s :: |num.smooth(s)| == |s|) && FitPreservesLength(num.fit)
  }

  /** `smoothSignal`: interpolation mode refuses a window longer than the
      trace. */
  function SmoothSignal(smooth: Smoother, signal: seq<real>): (r: Result<seq<real>>)
    requires forall s :: |smooth(s)| == |s|
    ensures r.Success? <==> |signal| >= WindowLength
    ensures r.Failure? ==> r.error == WindowExceedsTrace
    ensures r.Success? ==> |r.value| == |signal|
  {
    if |signal| < WindowLength then Failure(WindowExceedsTrace) else Success(smooth(signal))
  }

  /** `signalSmoothed - baseline`, elementwise. */
  function Subtract(a: seq<real>, b: seq<real>): (d: seq<real>)
    requires |a| == |b|
    ensures |d| == |a| && forall i :: 0 <= i < |a| ==> d[i] == a[i] - b[i]
  {
    seq(|a|, i requires 0 <= i < |a| => a[i] - b[i])
  }

  /** Every intermediate result of one file's analysis. */
  datatype Analysis = Analysis(
    trace: CleanedTrace,
    smoothed: seq<real>,
    peak: Peak,
    baseline: BaselineFit,
    corrected: seq<real>,
    correctedPeak: Peak)

  /** On a trace long enough to be smoothed, the search with the settings of
      lines 105 and 108 does not raise and returns a sample of `[n/10, n - n/10)`. */
  lemma BoundedSearchSucceeds(signal: seq<real>, potentials: seq<real>)
    requires |signal| == |potentials| >= WindowLength
    ensures
      var r := GetPeakValue(signal, potentials, MarginRatio, Some(MaxSlope));
      && r.Success?
      && |signal| / 10 <= r.value.index < |signal| - |signal| / 10
      && r.value.voltage == potentials[r.value.index]
      && r.value.current == signal[r.value.index]
  {
    DefaultMargin(|signal|);
  }

  /** Lines 105-108 on a smoothed trace: the first search, the baseline fit
      around its peak, the subtraction and the second search. On a trace
      long enough to be smoothed neither search nor the fit raises. */
  function Correct(fit: Fitter, trace: CleanedTrace, smoothed: seq<real>): (a: Analysis)
    requires FitPreservesLength(fit)
    requires |trace.potentials| == |smoothed| >= WindowLength
    ensures a.trace == trace && a.smoothed == smoothed
    // the first search runs on the smoothed signal ...
    ensures GetPeakValue(smoothed, trace.potentials, MarginRatio, Some(MaxSlope)) == Success(a.peak)
    // ... the baseline is the fit around its peak voltage ...
    ensures CalculateSignalBaseLine(fit, smoothed, trace.potentials, a.peak.voltage,
                                    ExclusionWidthRatio, LambdaFactor) == Success(a.baseline)
    // ... and the reported peak is the second search, on smoothed minus baseline
    ensures a.corrected == Subtract(smoothed, a.baseline.values)
    ensures GetPeakValue(a.corrected, trace.potentials, MarginRatio, Some(MaxSlope)) == Success(a.correctedPeak)
    ensures
      var n := |smoothed|;
      // the corrected signal is exactly smoothed minus baseline
      && |a.baseline.values| == |a.corrected| == n
      && (forall i :: 0 <= i < n ==> a.corrected[i] == smoothed[i] - a.baseline.values[i])
      // the reported peak is a sample of the corrected signal inside the search region
      && n / 10 <= a.correctedPeak.index < n - n / 10
      && a.correctedPeak.voltage == trace.potentials[a.correctedPeak.index]
      && a.correctedPeak.current == a.corrected[a.correctedPeak.index]
  {
    BoundedSearchSucceeds(smoothed, trace.potentials);
    var peak := GetPeakValue(smoothed, trace.potentials, MarginRatio, Some(MaxSlope)).value;
    var baseline := CalculateSignalBaseLine(fit, smoothed, trace.potentials, peak.voltage,
                                            ExclusionWidthRatio, LambdaFactor).value;
    var corrected := Subtract(smoothed, baseline.values);
    BoundedSearchSucceeds(corrected, trace.potentials);
    var correctedPeak := GetPeakValue(corrected, trace.potentials, MarginRatio, Some(MaxSlope)).value;
    Analysis(trace, smoothed, peak, baseline, corrected, correctedPeak)
  }

  /** Lines 103-108: the analysis of the rows read from one file. It raises
      exactly when fewer than 11 rows have a non-zero current, in the
      smoothing step; otherwise it is the correction of the smoothed cleaned
      trace. */
  function Analyse(num: Numerics, rows: seq<Row>): (r: Result<Analysis>)
    requires Valid(num)
    ensures r.Success? <==> |NonZeroRows(rows)| >= WindowLength
    ensures r.Failure? ==> r.error == WindowExceedsTrace
    ensures r.Success? ==>
              var trace := ProcessData(rows);
              r.value == Correct(num.fit, trace, num.smooth(trace.signal))
  {
    var trace := ProcessData(rows);
    var smoothed := SmoothSignal(num.smooth, trace.signal);
    if smoothed.Failure? then Failure(smoothed.error)
    else Success(Correct(num.fit, trace, smoothed.value))
  }

  /** A value of a result record: the loop label or a measurement. */
  datatype Value = Text(text: string) | Number(number: real)

  /** A per-file result: Python's dict. */
  type Record = map<string, Value>

  datatype Measure = Tension | Courant

  function MeasureLabel(m: Measure): string
  {
    match m
    case Tension => "Tension (V)"
    case Courant => "Courant (A)"
  }

  /** `f"{canal} - {variante} - Tension (V)"` and its Courant twin. */
  function ColumnName(channel: string, variant: string, m: Measure): string
  {
    channel + " - " + variant + " - " + MeasureLabel(m)
  }

  /** The record of a successfully analysed file. */
  function MeasurementRecord(f: NameFields, peak: Peak): (r: Record)
    ensures "loop" in r && r["loop"] == Text("loop" + f.loop)
  {
    map[
      "loop" := Text("loop" + f.loop),
      ColumnName(f.channel, f.variant, Tension) := Number(peak.voltage),
      ColumnName(f.channel, f.variant, Courant) := Number(peak.current)]
  }

  /** The record of a file whose analysis raised. */
  function ErrorRecord(fileName: string, e: Error): (r: Record)
    ensures r.Keys == {"error"}
    ensures r["error"] == Text("Erreur dans le fichier " + fileName + " : " + Describe(e))
  {
    map["error" := Text("Erreur dans le fichier " + fileName + " : " + Describe(e))]
  }

  /** What `readFile` produced: numeric rows; a table one of whose columns
      holds text (a wrong decimal mark, say), which `read_csv` accepts but
      whose arithmetic in `processData`, line 34, or later raises; or an
      exception. */
  datatype Load = Loaded(rows: seq<Row>) | Textual | Unreadable

  /** One input file: its base name and its contents. */
  datatype InputFile = InputFile(name: string, load: Load)

  /** A measurement record holds the loop label and the two measurement
      columns, under three distinct keys, and no error entry. */
  lemma MeasurementRecordShape(f: NameFields, peak: Peak)
    ensures
      var r := MeasurementRecord(f, peak);
      var tension := ColumnName(f.channel, f.variant, Tension);
      var courant := ColumnName(f.channel, f.variant, Courant);
      && r.Keys == {"loop", tension, courant}
      && "error" !in r
      && r["loop"] == Text("loop" + f.loop)
      && r[tension] == Number(peak.voltage)
      && r[courant] == Number(peak.current)
  {
    var tension := ColumnName(f.channel, f.variant, Tension);
    var courant := ColumnName(f.channel, f.variant, Courant);
    var at := |f.channel| + 3 + |f.variant| + 3;
    assert tension[at] == 'T' && courant[at] == 'C';
    assert |tension| > 5 && |courant| > 5;
  }

  /** `processSignalFile`: `None` for a readable file whose name does not
      match, an error record when reading or analysing raises, and
      otherwise the record of the corrected peak. The file is read before
      its name is checked, so an unreadable file always yields an error,
      while a textual table only fails once its name has matched. */
  function ProcessSignalFile(num: Numerics, file: InputFile): (r: Option<Record>)
    requires Valid(num)
    ensures r.None? <==> !file.load.Unreadable? && ParseFileName(file.name).None?
    ensures file.load.Unreadable? ==> r == Some(ErrorRecord(file.name, ReadFailure))
    ensures file.load.Textual? && ParseFileName(file.name).Some? ==>
              r == Some(ErrorRecord(file.name, NonNumericColumn))
    ensures file.load.Loaded? && ParseFileName(file.name).Some? ==>
              if |NonZeroRows(file.load.rows)| < WindowLength
              then r == Some(ErrorRecord(file.name, WindowExceedsTrace))
              else r == Some(MeasurementRecord(ParseFileName(file.name).value, Analyse(num, file.load.rows).value.correctedPeak))
  {
    match file.load
    case Unreadable => Some(ErrorRecord(file.name, ReadFailure))
    case Textual =>
      if ParseFileName(file.name).None? then None
      else Some(ErrorRecord(file.name, NonNumericColumn))
    case Loaded(rows) =>
      match ParseFileName(file.name)
      case None => None
      case Some(f) =>
        match Analyse(num, rows)
        case Failure(e) => Some(ErrorRecord(file.name, e))
        case Success(a) => Some(MeasurementRecord(f, a.correctedPeak))
  }

  /** A record is either an error record or a measurement record, told
      apart by its keys; a measurement record comes from a readable,
      matching, long enough file and reports its corrected peak under the
      loop label and the two columns of the file's channel and variant. */
  lemma RecordKinds(num: Numerics, file: InputFile)
    requires Valid(num)
    ensures
      var r := ProcessSignalFile(num, file);
      r.Some? ==> (("error" in r.value) <==> !("loop" in r.value))
    ensures
      var r := ProcessSignalFile(num, file);
      r.Some? && "loop" in r.value ==>
        var f := ParseFileName(file.name).value;
        var a := Analyse(num, file.load.rows).value;
        var tension := ColumnName(f.channel, f.variant, Tension);
        var courant := ColumnName(f.channel, f.variant, Courant);
        && file.load.Loaded? && ParseFileName(file.name).Some?
        && |NonZeroRows(file.load.rows)| >= WindowLength
        && r.value.Keys == {"loop", tension, courant}
        && r.value["loop"] == Text("loop" + f.loop)
        && r.value[tension] == Number(a.correctedPeak.voltage)
        && r.value[courant] == Number(a.correctedPeak.current)
  {
    match file.load
    case Unreadable =>
      ErrorRecordShape(file.name, ReadFailure);
    case Textual =>
      ErrorRecordShape(file.name, NonNumericColumn);
    case Loaded(rows) =>
      match ParseFileName(file.name)
      case None =>
      case Some(f) =>
        if |NonZeroRows(rows)| < WindowLength {
          ErrorRecordShape(file.name, WindowExceedsTrace);
        } else {
          MeasurementRecordShape(f, Analyse(num, rows).value.correctedPeak);
        }
  }

  /** An error record holds the error entry alone. */
  lemma ErrorRecordShape(fileName: string, e: Error)
    ensures ErrorRecord(fileName, e).Keys == {"error"} && "loop" !in ErrorRecord(fileName, e)
  {
    assert "loop"[0] != "error"[0];
  }
}
