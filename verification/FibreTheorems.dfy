/** What a run of the strain pipeline leaves, for positions in order and regions in order. */
module FibreTheorems {
  import opened FibreMatrix
  import opened Options
  import opened FibreColumns
  import opened FibreRepair
  import opened FibreSamples
  import opened FibreRegions
  import opened FibrePipeline

  predicate InOrder(data0: seq<Row>, timestamps: seq<string>, initial: Row, final: Row) {
    Measured(data0, timestamps, initial, final) && Sorted(data0[0]) && Ordered(initial, final)
  }

  /** `ks` lists, in order, exactly the columns of region `t`. */
  ghost predicate ColumnsOf(ks: seq<nat>, pos: Row, initial: Row, final: Row, t: nat)
    requires t < |initial| == |final|
  {
    && Increasing(ks) && Indices(ks, |pos|)
    && forall k | 0 <= k < |pos| :: k in ks <==> InRegion(pos[k], initial, final, t)
  }

  /** The columns that selection keeps. */
  function Columns(data0: seq<Row>, initial: Row, final: Row): (ks: seq<nat>)
    requires |data0| > 0 && |initial| == |final| > 0 && Scan(data0[0], 0, initial, final, 0).Some?
    ensures Indices(ks, |data0[0]|)
  {
    Scan(data0[0], 0, initial, final, 0).value
  }

  /** Selection: it succeeds exactly when a position lies beyond the last region, and then keeps exactly
      the columns in a region, in order. */
  lemma SelectionExact(data0: seq<Row>, timestamps: seq<string>, initial: Row, final: Row)
    requires InOrder(data0, timestamps, initial, final)
    ensures var pos := data0[0];
            && (Selected(data0, initial, final).Some? <==> exists k :: 0 <= k < |pos| && pos[k] > final[|final| - 1])
            && (Selected(data0, initial, final).Some? ==>
                  var ks := Columns(data0, initial, final);
                  && Increasing(ks) && Selected(data0, initial, final).value == PickColumns(data0, ks)
                  && (forall p, a | 0 <= p < |data0| && 0 <= a < |ks| ::
                        |Selected(data0, initial, final).value[p]| == |ks|
                        && Selected(data0, initial, final).value[p][a] == data0[p][ks[a]])
                  && forall k | 0 <= k < |pos| :: k in ks <==> InSomeRegion(pos[k], initial, final, 0))
  {
    var pos := data0[0];
    ScanSucceeds(pos, 0, initial, final, 0);
    if Selected(data0, initial, final).Some? {
      ScanSound(pos, 0, initial, final, 0);
      var ks := Columns(data0, initial, final);
      forall k | 0 <= k < |pos| && InSomeRegion(pos[k], initial, final, 0) ensures k in ks {
        ScanComplete(pos, 0, initial, final, 0, k);
      }
    }
  }

  /** The selected positions are in order, and each is in a region. */
  lemma SelectedPositions(data0: seq<Row>, timestamps: seq<string>, initial: Row, final: Row)
    requires InOrder(data0, timestamps, initial, final) && Selected(data0, initial, final).Some?
    ensures var pos := Selected(data0, initial, final).value[0];
            Sorted(pos) && AllPlaced(pos, initial, final)
  {
    SelectionExact(data0, timestamps, initial, final);
    var ks := Columns(data0, initial, final);
    var pos := Selected(data0, initial, final).value[0];
    hide Scan, InSomeRegion, PickColumns;
    assert pos == Pick(data0[0], ks);
    forall i, j | 0 <= i < j < |pos| ensures pos[i] <= pos[j] {
      assert ks[i] < ks[j];
    }
    forall i | 0 <= i < |pos| ensures InSomeRegion(pos[i], initial, final, 0) {
      assert ks[i] in ks;
    }
  }

  /** The part of the kept columns that region `t` gets. */
  function Share(data0: seq<Row>, initial: Row, final: Row, t: nat): (ks: seq<nat>)
    requires |data0| > 0 && Rectangular(data0, |data0[0]|) && t < |initial| == |final|
    requires Selected(data0, initial, final).Some?
  {
    var pos := Selected(data0, initial, final).value[0];
    CutsStay(pos, initial, final, t, t + 1);
    Columns(data0, initial, final)[Cut(pos, initial, final, t)..Cut(pos, initial, final, t + 1)]
  }

  lemma PartOfKept(pos: Row, ks: seq<nat>, from: nat, to: nat, initial: Row, final: Row, t: nat)
    requires Increasing(ks) && Indices(ks, |pos|) && from <= to <= |ks| && t < |initial| == |final|
    requires forall i | 0 <= i < |ks| :: from <= i < to <==> InRegion(pos[ks[i]], initial, final, t)
    requires forall k | 0 <= k < |pos| && InRegion(pos[k], initial, final, t) :: k in ks
    ensures ColumnsOf(ks[from..to], pos, initial, final, t)
  {
  }

  /** Each region's share is exactly its columns. */
  lemma ShareExact(data0: seq<Row>, timestamps: seq<string>, initial: Row, final: Row, t: nat)
    requires InOrder(data0, timestamps, initial, final) && t < |initial| && Selected(data0, initial, final).Some?
    ensures ColumnsOf(Share(data0, initial, final, t), data0[0], initial, final, t)
  {
    SelectionExact(data0, timestamps, initial, final);
    SelectedPositions(data0, timestamps, initial, final);
    hide Scan, Cut, Selected, Columns, AllPlaced, Sorted, Share, ColumnsOf, PickColumns;
    var ks, pos := Columns(data0, initial, final), Selected(data0, initial, final).value[0];
    var from, to := Cut(pos, initial, final, t), Cut(pos, initial, final, t + 1);
    forall i | 0 <= i < |ks| ensures from <= i < to <==> InRegion(data0[0][ks[i]], initial, final, t) {
      RegionHolds(pos, initial, final, t, i);
    }
    forall k | 0 <= k < |data0[0]| && InRegion(data0[0][k], initial, final, t) ensures k in ks {
      assert InSomeRegion(data0[0][k], initial, final, 0);
    }
    hide *;
    PartOfKept(data0[0], ks, from, to, initial, final, t);
  }

  // ----- when a run succeeds

  lemma RepairableIff(data: seq<Row>, b: Band)
    requires |data| > 0 && Rectangular(data, |data[0]|)
    ensures Repairable(data, b, |data|) <==> |data[0]| != 1 || forall p | 1 <= p < |data| :: !Bad(data[p][0], b)
  {
  }

  /** A single column lies in a region, and some sample is out of band there. */
  ghost predicate LoneBad(data0: seq<Row>, initial: Row, final: Row, b: Band)
    requires |data0| > 0 && Rectangular(data0, |data0[0]|) && |initial| == |final|
  {
    exists k, p | 0 <= k < |data0[0]| && 1 <= p < |data0| ::
      && InSomeRegion(data0[0][k], initial, final, 0) && Bad(data0[p][k], b)
      && forall i | 0 <= i < |data0[0]| && InSomeRegion(data0[0][i], initial, final, 0) :: i == k
  }

  lemma LoneBadIff(data0: seq<Row>, timestamps: seq<string>, initial: Row, final: Row, b: Band)
    requires InOrder(data0, timestamps, initial, final) && Selected(data0, initial, final).Some?
    ensures LoneBad(data0, initial, final, b) <==>
              var ks := Columns(data0, initial, final);
              |ks| == 1 && exists p :: 1 <= p < |data0| && Bad(data0[p][ks[0]], b)
  {
    SelectionExact(data0, timestamps, initial, final);
    var ks := Columns(data0, initial, final);
    assert |ks| > 1 ==> ks[0] < ks[1];
    hide Columns, Scan, Selected, InSomeRegion, Bad;
    if LoneBad(data0, initial, final, b) {
      var k, p :| 0 <= k < |data0[0]| && 1 <= p < |data0| && InSomeRegion(data0[0][k], initial, final, 0)
        && Bad(data0[p][k], b)
        && forall i | 0 <= i < |data0[0]| && InSomeRegion(data0[0][i], initial, final, 0) :: i == k;
      assert k in ks;
      forall i | 0 <= i < |ks| ensures ks[i] == k {
        assert ks[i] in ks;
      }
    }
    if |ks| == 1 {
      forall i | 0 <= i < |data0[0]| && InSomeRegion(data0[0][i], initial, final, 0) ensures i == ks[0] {
        assert i in ks;
      }
      assert ks[0] in ks;
    }
  }

  /** The last region keeps a column exactly when it had one. */
  lemma LastRegionKept(data0: seq<Row>, timestamps: seq<string>, initial: Row, final: Row)
    requires InOrder(data0, timestamps, initial, final) && Selected(data0, initial, final).Some?
    ensures var pos, last := Selected(data0, initial, final).value[0], |initial| - 1;
            (exists i :: 0 <= i < |pos| && InRegion(pos[i], initial, final, last))
            <==> exists k :: 0 <= k < |data0[0]| && InRegion(data0[0][k], initial, final, last)
  {
    SelectionExact(data0, timestamps, initial, final);
    var ks, pos, last := Columns(data0, initial, final), Selected(data0, initial, final).value[0], |initial| - 1;
    assert pos == Pick(data0[0], ks);
    hide Columns, Scan, Selected;
    if i :| 0 <= i < |pos| && InRegion(pos[i], initial, final, last) {
      assert InRegion(data0[0][ks[i]], initial, final, last);
    }
    if k :| 0 <= k < |data0[0]| && InRegion(data0[0][k], initial, final, last) {
      assert InSomeRegion(data0[0][k], initial, final, 0);
      var i :| 0 <= i < |ks| && ks[i] == k;
      assert InRegion(pos[i], initial, final, last);
    }
  }

  /** When a run succeeds: some position lies beyond the last region, the last region has a column, and
      no sample is out of band at a column that is alone. */
  lemma RunSucceeds(data0: seq<Row>, timestamps: seq<string>, initial: Row, final: Row, b: Band,
          sampleCycle: nat -> int)
    requires InOrder(data0, timestamps, initial, final)
    ensures var pos, last := data0[0], |initial| - 1;
            Processed(data0, timestamps, initial, final, b, sampleCycle).Some? <==>
              && (exists k :: 0 <= k < |pos| && pos[k] > final[last])
              && (exists k :: 0 <= k < |pos| && InRegion(pos[k], initial, final, last))
              && !LoneBad(data0, initial, final, b)
  {
    SelectionExact(data0, timestamps, initial, final);
    if Selected(data0, initial, final).Some? {
      var data, ks := Selected(data0, initial, final).value, Columns(data0, initial, final);
      assert |data[0]| == |ks| && forall p | 0 <= p < |data| && |ks| > 0 :: data[p][0] == data0[p][ks[0]];
      SelectedPositions(data0, timestamps, initial, final);
      LastRegionKept(data0, timestamps, initial, final);
      LoneBadIff(data0, timestamps, initial, final, b);
      RepairableIff(data, b);
      hide Selected, Columns, Scan, LoneBad, Separated, Left, InRegion, Sorted, AllPlaced, Bad, Repairable;
      if |data[0]| > 0 && Repairable(data, b, |data|) {
        SeparationSucceeds(Left(data, timestamps, b, sampleCycle).data, initial, final);
      }
    }
  }

  // ----- what a successful run leaves

  lemma RepairedInBand(row: Row, b: Band)
    requires Repaired(row, b).Some? && Repaired(row, b).value.1 < |row|
    ensures forall k | 0 <= k < |row| :: !Bad(Repaired(row, b).value.0[k], b)
  {
    if |row| >= 3 {
      RepairMeaning(row, b);
    }
  }

  /** The row of the selected data a surviving sample comes from. */
  function SourceRow(data: seq<Row>, timestamps: seq<string>, b: Band, sampleCycle: nat -> int, s: nat): (p: nat)
    requires |data| > 0 && |data[0]| > 0 && |timestamps| == |data| - 1 && Repairable(data, b, |data|)
    requires s < |UsableRows(Graded(data, timestamps, b, sampleCycle))|
    ensures 1 <= p < |data|
  {
    UsableRows(Graded(data, timestamps, b, sampleCycle))[s]
  }

  lemma Scale(x: real, y: real, m: real)
    requires m > 0.0
    ensures x > y <==> x * m > y * m
  {
  }

  lemma PercentMeans(count: nat, n: nat)
    requires n > 0
    ensures Percent(count, n) > 50.0 <==> 2 * count > n
  {
    var c, m := count as real, n as real;
    var x := c * 100.0 / m;
    assert x * m == c * 100.0;
    Scale(x, 50.0, m);
    assert c * 100.0 > 50.0 * m <==> 2.0 * c > m;
  }

  lemma PercentIs(count: nat, n: nat)
    requires n > 0
    ensures Percent(count, n) * n as real == 100.0 * count as real
  {
  }

  /** The surviving samples are, in order, exactly those with at most half their entries bad and a load cycle. */
  lemma SurvivorsExact(data: seq<Row>, timestamps: seq<string>, b: Band, sampleCycle: nat -> int)
    requires |data| > 0 && |data[0]| > 0 && |timestamps| == |data| - 1 && Repairable(data, b, |data|)
    ensures var rows := UsableRows(Graded(data, timestamps, b, sampleCycle));
            && Increasing(rows)
            && forall p | 1 <= p < |data| ::
                 p in rows <==> 2 * BadCounts(data, b)[p] <= |data[0]| && sampleCycle(p) != 0
  {
    var graded := Graded(data, timestamps, b, sampleCycle);
    var rows, n := UsableRows(graded), |data[0]|;
    UsableExact(graded.percents, graded.cycles, 1);
    hide Usable, Repaired, BadCounts, Percent;
    forall p | 1 <= p < |data| ensures p in rows <==> 2 * BadCounts(data, b)[p] <= n && sampleCycle(p) != 0 {
      PercentMeans(BadCounts(data, b)[p], n);
    }
  }

  lemma SamplesAligned(data: seq<Row>, timestamps: seq<string>, b: Band, sampleCycle: nat -> int, s: nat)
    requires |data| > 0 && |data[0]| > 0 && |timestamps| == |data| - 1 && Rectangular(data, |data[0]|)
    requires Repairable(data, b, |data|) && s < |UsableRows(Graded(data, timestamps, b, sampleCycle))|
    ensures var left, p := Left(data, timestamps, b, sampleCycle), SourceRow(data, timestamps, b, sampleCycle, s);
            && |left.data| == |left.percents| == |left.cycles| + 1 == |left.timestamps| + 1
            && |left.cycles| == |UsableRows(Graded(data, timestamps, b, sampleCycle))|
            && left.data[s + 1] == Repaired(data[p], b).value.0
            && left.percents[s + 1] == Percent(Repaired(data[p], b).value.1, |data[0]|)
            && left.cycles[s] == sampleCycle(p) && left.timestamps[s] == timestamps[p - 1]
  {
    var graded := Graded(data, timestamps, b, sampleCycle);
    LeftRectangular(data, timestamps, b, sampleCycle);
    var rows, p := UsableRows(graded), SourceRow(data, timestamps, b, sampleCycle, s);
    var left := Kept(graded, rows);
    assert left == Left(data, timestamps, b, sampleCycle);
    hide UsableRows, Repaired, Kept, Left, Percent;
  }

  lemma PositionsLead(data: seq<Row>, timestamps: seq<string>, b: Band, sampleCycle: nat -> int)
    requires |data| > 0 && |data[0]| > 0 && |timestamps| == |data| - 1 && Rectangular(data, |data[0]|)
    requires Repairable(data, b, |data|)
    ensures var left := Left(data, timestamps, b, sampleCycle);
            && |left.data| > 0 && left.data[0] == data[0] && |left.percents| > 0 && left.percents[0] == 100.0
  {
    LeftRectangular(data, timestamps, b, sampleCycle);
    hide UsableRows, Repaired, Percent;
  }

  /** The four lists stay in step: each surviving sample keeps its own repaired row, share of bad
      entries in percent, cycle and timestamp, behind the positions, which count as wholly bad. */
  lemma SamplesInStep(data: seq<Row>, timestamps: seq<string>, b: Band, sampleCycle: nat -> int, s: nat)
    requires |data| > 0 && |data[0]| > 0 && |timestamps| == |data| - 1 && Rectangular(data, |data[0]|)
    requires Repairable(data, b, |data|) && s < |UsableRows(Graded(data, timestamps, b, sampleCycle))|
    ensures var left, p := Left(data, timestamps, b, sampleCycle), SourceRow(data, timestamps, b, sampleCycle, s);
            && |left.data| == |left.percents| == |left.cycles| + 1 == |left.timestamps| + 1
            && |left.cycles| == |UsableRows(Graded(data, timestamps, b, sampleCycle))|
            && left.data[0] == data[0] && left.percents[0] == 100.0
            && left.data[s + 1] == Repaired(data[p], b).value.0
            && left.percents[s + 1] * |data[0]| as real == 100.0 * Repaired(data[p], b).value.1 as real
            && left.cycles[s] == sampleCycle(p) && left.timestamps[s] == timestamps[p - 1]
  {
    hide UsableRows, Repaired, Kept, Left, Percent, SourceRow;
    SamplesAligned(data, timestamps, b, sampleCycle, s);
    PositionsLead(data, timestamps, b, sampleCycle);
    PercentIs(Repaired(data[SourceRow(data, timestamps, b, sampleCycle, s)], b).value.1, |data[0]|);
  }

  /** Region `t` of a successful run is the slice of the surviving rows between its cuts. */
  lemma RegionIsSlice(data0: seq<Row>, timestamps: seq<string>, initial: Row, final: Row, b: Band,
          sampleCycle: nat -> int, t: nat)
    requires Measured(data0, timestamps, initial, final) && t < |initial|
    requires Processed(data0, timestamps, initial, final, b, sampleCycle).Some?
    ensures var r, data := Processed(data0, timestamps, initial, final, b, sampleCycle).value,
            Selected(data0, initial, final).value;
            var from, to := Cut(data[0], initial, final, t), Cut(data[0], initial, final, t + 1);
            && from <= to <= |data[0]| && |data[0]| > 0 && Repairable(data, b, |data|)
            && r.samples == Left(data, timestamps, b, sampleCycle) && |r.regions| == |initial|
            && r.regions[t] == Slice(r.samples.data, from, to)
  {
    var r, data := Processed(data0, timestamps, initial, final, b, sampleCycle).value,
      Selected(data0, initial, final).value;
    CutsStay(data[0], initial, final, t, t + 1);
    RegionsAt(r.samples.data, initial, final, |initial|, t);
    hide Selected, Cut, Left, Repairable, Slice, Regions;
  }

  /** Pipeline composition, positions: region `t` holds exactly the measured positions in
      (initial, final], in order. */
  lemma RegionPositions(data0: seq<Row>, timestamps: seq<string>, initial: Row, final: Row, b: Band,
          sampleCycle: nat -> int, t: nat)
    requires InOrder(data0, timestamps, initial, final) && t < |initial|
    requires Processed(data0, timestamps, initial, final, b, sampleCycle).Some?
    ensures var regions, share := Processed(data0, timestamps, initial, final, b, sampleCycle).value.regions,
            Share(data0, initial, final, t);
            && |regions| == |initial|
            && ColumnsOf(share, data0[0], initial, final, t)
            && |regions[t].position| == |share|
            && (forall i | 0 <= i < |share| :: regions[t].position[i] == data0[0][share[i]])
  {
    RegionIsSlice(data0, timestamps, initial, final, b, sampleCycle, t);
    ShareExact(data0, timestamps, initial, final, t);
    var data := Selected(data0, initial, final).value;
    PickedPart(data0[0], Columns(data0, initial, final), Cut(data[0], initial, final, t),
               Cut(data[0], initial, final, t + 1));
    hide Cut, Share, ColumnsOf, Columns, Selected, Processed, Left, Pick, Repairable, Rectangular;
  }

  /** Pipeline composition, strain: region `t` holds, for each surviving sample, the repaired strain at
      the region's columns, all of it in band. */
  lemma RegionStrain(data0: seq<Row>, timestamps: seq<string>, initial: Row, final: Row, b: Band,
          sampleCycle: nat -> int, t: nat, s: nat)
    requires InOrder(data0, timestamps, initial, final) && t < |initial|
    requires Processed(data0, timestamps, initial, final, b, sampleCycle).Some?
    ensures var r, data := Processed(data0, timestamps, initial, final, b, sampleCycle).value,
            Selected(data0, initial, final).value;
            && |r.regions| == |initial| && |data[0]| > 0 && Repairable(data, b, |data|)
            && r.samples == Left(data, timestamps, b, sampleCycle)
            && |r.regions[t].strain| == |UsableRows(Graded(data, timestamps, b, sampleCycle))|
            && (s < |r.regions[t].strain| ==>
                  var repaired := Repaired(data[SourceRow(data, timestamps, b, sampleCycle, s)], b).value.0;
                  var from, to := Cut(data[0], initial, final, t), Cut(data[0], initial, final, t + 1);
                  && from <= to <= |repaired| && r.regions[t].strain[s] == repaired[from..to]
                  && forall q | 0 <= q < to - from :: !Bad(r.regions[t].strain[s][q], b))
  {
    hide Selected, Left, Cut, Bad, Repaired, UsableRows, SourceRow;
    RegionIsSlice(data0, timestamps, initial, final, b, sampleCycle, t);
    var r, data := Processed(data0, timestamps, initial, final, b, sampleCycle).value,
      Selected(data0, initial, final).value;
    LeftCount(data, timestamps, b, sampleCycle);
    assert |r.regions[t].strain| == |UsableRows(Graded(data, timestamps, b, sampleCycle))|;
    if s < |r.regions[t].strain| {
      SamplesInStep(data, timestamps, b, sampleCycle, s);
      SurvivorInBand(data, timestamps, b, sampleCycle, s);
    }
  }

  lemma PickedPart(pos: Row, ks: seq<nat>, from: nat, to: nat)
    requires Indices(ks, |pos|) && from <= to <= |ks|
    ensures Indices(ks[from..to], |pos|) && Pick(pos, ks[from..to]) == Pick(pos, ks)[from..to]
  {
  }

  lemma LeftCount(data: seq<Row>, timestamps: seq<string>, b: Band, sampleCycle: nat -> int)
    requires |data| > 0 && |data[0]| > 0 && |timestamps| == |data| - 1 && Rectangular(data, |data[0]|)
    requires Repairable(data, b, |data|)
    ensures |Left(data, timestamps, b, sampleCycle).data| == |UsableRows(Graded(data, timestamps, b, sampleCycle))| + 1
  {
  }

  lemma SurvivorInBand(data: seq<Row>, timestamps: seq<string>, b: Band, sampleCycle: nat -> int, s: nat)
    requires |data| > 0 && |data[0]| > 0 && |timestamps| == |data| - 1 && Rectangular(data, |data[0]|)
    requires Repairable(data, b, |data|) && s < |UsableRows(Graded(data, timestamps, b, sampleCycle))|
    ensures var repaired := Repaired(data[SourceRow(data, timestamps, b, sampleCycle, s)], b).value.0;
            |repaired| == |data[0]| && forall q | 0 <= q < |repaired| :: !Bad(repaired[q], b)
  {
    SurvivorsExact(data, timestamps, b, sampleCycle);
    var rows, p := UsableRows(Graded(data, timestamps, b, sampleCycle)), SourceRow(data, timestamps, b, sampleCycle, s);
    assert p in rows;
    assert BadCounts(data, b)[p] == Repaired(data[p], b).value.1;
    RepairedInBand(data[p], b);
    hide *;
  }
}
