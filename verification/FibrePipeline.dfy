/** The strain pipeline: select columns, repair samples, drop unusable samples, separate regions. */
module FibrePipeline {
  import opened FibreMatrix
  import opened Options
  import opened FibreColumns
  import opened FibreRepair
  import opened FibreSamples
  import opened FibreRegions

  // ----- repair of every sample

  predicate Repairable(data: seq<Row>, b: Band, to: nat)
    requires to <= |data|
  {
    forall p | 1 <= p < to :: Repaired(data[p], b).Some?
  }

  function RepairedData(data: seq<Row>, b: Band): (r: seq<Row>)
    requires Repairable(data, b, |data|)
  {
    seq(|data|, p requires 0 <= p < |data| => if p == 0 then data[0] else Repaired(data[p], b).value.0)
  }

  function BadCounts(data: seq<Row>, b: Band): (r: seq<nat>)
    requires Repairable(data, b, |data|)
  {
    seq(|data|, p requires 0 <= p < |data| => if p == 0 then 0 else Repaired(data[p], b).value.1)
  }

  function Percent(count: nat, n: nat): real
    requires n > 0
  {
    count as real * 100.0 / n as real
  }

  /** Bad entries in percent; the position row is no sample and is marked 100. */
  function Percents(counts: seq<nat>, n: nat): (r: seq<real>)
    requires n > 0
  {
    seq(|counts|, p requires 0 <= p < |counts| => if p == 0 then 100.0 else Percent(counts[p], n))
  }

  method RepairAll(data0: seq<Row>, b: Band) returns (r: Option<(seq<Row>, seq<nat>)>)
    requires |data0| > 0
    ensures r == if Repairable(data0, b, |data0|) then Some((RepairedData(data0, b), BadCounts(data0, b))) else None
  {
    hide Repaired;
    var data := data0;
    var bad: seq<nat> := seq(|data0|, _ => 0);
    for i := 1 to |data0|
      invariant |data| == |bad| == |data0| && Repairable(data0, b, i)
      invariant data[0] == data0[0] && bad[0] == 0
      invariant forall p | 1 <= p < i :: Some((data[p], bad[p])) == Repaired(data0[p], b)
      invariant forall p | i <= p < |data| :: data[p] == data0[p]
    {
      var repaired := RepairRow(data[i], b);
      if repaired.None? {
        return None;
      }
      data, bad := data[i := repaired.value.0], bad[i := repaired.value.1];
    }
    assert data == RepairedData(data0, b) && bad == BadCounts(data0, b);
    return Some((data, bad));
  }

  function Cycles(samples: nat, sampleCycle: nat -> int): (r: seq<int>) {
    seq(samples, i requires 0 <= i < samples => sampleCycle(i + 1))
  }

  // ----- the whole function

  datatype Results = Results(regions: seq<Region>, samples: Samples)

  predicate Measured(data: seq<Row>, timestamps: seq<string>, initial: Row, final: Row) {
    && |data| > 0 && Rectangular(data, |data[0]|) && |timestamps| == |data| - 1
    && |initial| == |final| > 0
  }

  /** The measured rows cut down to the columns of interest. */
  function Selected(data: seq<Row>, initial: Row, final: Row): (r: Option<seq<Row>>)
    requires |data| > 0 && Rectangular(data, |data[0]|) && |initial| == |final| > 0
    ensures r.Some? ==> |r.value| == |data| && Rectangular(r.value, |r.value[0]|)
  {
    var kept := Scan(data[0], 0, initial, final, 0);
    if kept.None? then None else Some(PickColumns(data, kept.value))
  }

  function Graded(data: seq<Row>, timestamps: seq<string>, b: Band, sampleCycle: nat -> int): (s: Samples)
    requires |data| > 0 && |data[0]| > 0 && |timestamps| == |data| - 1 && Repairable(data, b, |data|)
  {
    Samples(Percents(BadCounts(data, b), |data[0]|), Cycles(|data| - 1, sampleCycle), RepairedData(data, b), timestamps)
  }

  /** The samples that are left, as rows of the measured data. */
  function UsableRows(s: Samples): (rows: seq<nat>)
    requires |s.percents| == |s.cycles| + 1
    ensures Indices(rows, |s.percents|) && forall a | 0 <= a < |rows| :: 1 <= rows[a]
  {
    Usable(s.percents, s.cycles, 1)
  }

  lemma LeftRectangular(data: seq<Row>, timestamps: seq<string>, b: Band, sampleCycle: nat -> int)
    requires |data| > 0 && |data[0]| > 0 && |timestamps| == |data| - 1 && Rectangular(data, |data[0]|)
    requires Repairable(data, b, |data|)
    ensures var s := Graded(data, timestamps, b, sampleCycle);
            && |s.data| == |s.percents| == |s.cycles| + 1 == |s.timestamps| + 1
            && |Kept(s, UsableRows(s)).data| > 0 && Rectangular(Kept(s, UsableRows(s)).data, |data[0]|)
            && Kept(s, UsableRows(s)).data[0] == data[0]
  {
  }

  /** The samples left, in all four lists. */
  function Left(data: seq<Row>, timestamps: seq<string>, b: Band, sampleCycle: nat -> int): (s: Samples)
    requires |data| > 0 && |data[0]| > 0 && |timestamps| == |data| - 1 && Rectangular(data, |data[0]|)
    requires Repairable(data, b, |data|)
    ensures |s.data| > 0 && Rectangular(s.data, |data[0]|) && s.data[0] == data[0]
  {
    LeftRectangular(data, timestamps, b, sampleCycle);
    var s := Graded(data, timestamps, b, sampleCycle);
    Kept(s, UsableRows(s))
  }

  /** What the run leaves, or none for an index error: when no column is left the separation reads past
      the empty position row. */
  function Processed(data0: seq<Row>, timestamps: seq<string>, initial: Row, final: Row, b: Band,
          sampleCycle: nat -> int): Option<Results>
    requires Measured(data0, timestamps, initial, final)
  {
    var selected := Selected(data0, initial, final);
    if selected.None? || |selected.value[0]| == 0 || !Repairable(selected.value, b, |data0|) then None else
    var samples := Left(selected.value, timestamps, b, sampleCycle);
    var regions := Separated(samples.data, initial, final);
    if regions.None? then None else Some(Results(regions.value, samples))
  }

  method Principal(data0: seq<Row>, timestamps: seq<string>, initial: Row, final: Row, b: Band, sampleCycle: nat -> int)
    returns (r: Option<Results>)
    requires Measured(data0, timestamps, initial, final)
    ensures r == Processed(data0, timestamps, initial, final, b, sampleCycle)
  {
    hide Scan, Repaired, Kept, Usable, Separated;
    var selected := SelectColumns(data0, initial, final);
    if selected.None? {
      return None;
    }
    var data, m := selected.value, |data0|;
    var n := |data[0]|;
    var repaired := RepairAll(data, b);
    if repaired.None? || n == 0 {
      return None;
    }
    var percents := Percents(repaired.value.1, n);
    var cycle: seq<int> := seq(m - 1, _ => 0);
    for i := 0 to m - 1
      invariant |cycle| == m - 1
      invariant forall k | 0 <= k < i :: cycle[k] == sampleCycle(k + 1)
    {
      cycle := cycle[i := sampleCycle(i + 1)];
    }
    assert cycle == Cycles(m - 1, sampleCycle);
    LeftRectangular(data, timestamps, b, sampleCycle);
    var samples := DropSamples(Samples(percents, cycle, repaired.value.0, timestamps));
    var regions := SeparateRegions(samples.data, initial, final);
    if regions.None? {
      return None;
    }
    return Some(Results(regions.value, samples));
  }
}
