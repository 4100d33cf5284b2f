/** Deletion of samples that were mostly bad or have no load cycle, in step over four lists. */
module FibreSamples {
  import opened FibreMatrix

  predicate Unusable(percent: real, cycle: int) {
    percent > 50.0 || cycle == 0
  }

  /** The usable samples among rows `i` and later; row 0 holds the positions. */
  function Usable(percents: seq<real>, cycles: seq<int>, i: nat): (ks: seq<nat>)
    requires 1 <= i <= |percents| == |cycles| + 1
    ensures Indices(ks, |percents|) && forall a | 0 <= a < |ks| :: i <= ks[a]
    decreases |percents| - i
  {
    if i == |percents| then []
    else (if Unusable(percents[i], cycles[i - 1]) then [] else [i]) + Usable(percents, cycles, i + 1)
  }

  /** The same samples, counted without the position row. */
  function SampleNumbers(rows: seq<nat>): (ks: seq<nat>)
    requires forall a | 0 <= a < |rows| :: 1 <= rows[a]
  {
    seq(|rows|, a requires 0 <= a < |rows| => rows[a] - 1)
  }

  lemma {:induction false} UsableExact(percents: seq<real>, cycles: seq<int>, i: nat)
    requires 1 <= i <= |percents| == |cycles| + 1
    ensures Increasing(Usable(percents, cycles, i))
    ensures forall k | i <= k < |percents| ::
              k in Usable(percents, cycles, i) <==> !Unusable(percents[k], cycles[k - 1])
    decreases |percents| - i
  {
    if i < |percents| {
      UsableExact(percents, cycles, i + 1);
    }
  }

  datatype Samples = Samples(percents: seq<real>, cycles: seq<int>, data: seq<Row>, timestamps: seq<string>)

  /** All four lists cut down to the same samples. */
  function Kept(s: Samples, rows: seq<nat>): Samples
    requires |s.data| == |s.percents| == |s.cycles| + 1 == |s.timestamps| + 1
    requires Indices(rows, |s.percents|) && forall a | 0 <= a < |rows| :: 1 <= rows[a]
  {
    Samples(Pick(s.percents, [0] + rows), Pick(s.cycles, SampleNumbers(rows)),
            Pick(s.data, [0] + rows), Pick(s.timestamps, SampleNumbers(rows)))
  }

  /** The deletion loop, when the rows `ks` are kept and row `c` is next. */
  predicate Underway(s: Samples, s0: Samples, rows: seq<nat>, c: nat) {
    && |s0.data| == |s0.percents| == |s0.cycles| + 1 == |s0.timestamps| + 1 && 1 <= c <= |s0.data|
    && (forall a | 0 <= a < |rows| :: 1 <= rows[a])
    && Partly(s.percents, s0.percents, [0] + rows, c) && Partly(s.data, s0.data, [0] + rows, c)
    && Partly(s.cycles, s0.cycles, SampleNumbers(rows), c - 1)
    && Partly(s.timestamps, s0.timestamps, SampleNumbers(rows), c - 1)
  }

  function DeleteSample(s: Samples, i: nat): Samples
    requires 1 <= i < |s.percents| && i < |s.data| && i - 1 < |s.cycles| && i - 1 < |s.timestamps|
  {
    Samples(Delete(s.percents, i), Delete(s.cycles, i - 1), Delete(s.data, i), Delete(s.timestamps, i - 1))
  }

  lemma UnderwayDelete(s: Samples, s0: Samples, rows: seq<nat>, c: nat)
    requires Underway(s, s0, rows, c) && c < |s0.data|
    ensures var i := |rows| + 1;
            && i < |s.percents| && i < |s.data| && i - 1 < |s.cycles| && i - 1 < |s.timestamps|
            && s.percents[i] == s0.percents[c] && s.cycles[i - 1] == s0.cycles[c - 1]
            && Underway(DeleteSample(s, i), s0, rows, c + 1)
  {
  }

  lemma UnderwayKeep(s: Samples, s0: Samples, rows: seq<nat>, c: nat)
    requires Underway(s, s0, rows, c) && c < |s0.data|
    ensures Underway(s, s0, rows + [c], c + 1)
  {
    assert [0] + (rows + [c]) == [0] + rows + [c];
    assert SampleNumbers(rows + [c]) == SampleNumbers(rows) + [c - 1];
    hide Partly, SampleNumbers;
  }

  lemma UnderwayStart(s0: Samples)
    requires |s0.data| == |s0.percents| == |s0.cycles| + 1 == |s0.timestamps| + 1
    ensures Underway(s0, s0, [], 1)
  {
  }

  lemma UnderwayDone(s: Samples, s0: Samples, rows: seq<nat>)
    requires Underway(s, s0, rows, |s0.data|)
    ensures Indices(rows, |s0.percents|) && s == Kept(s0, rows)
  {
    assert forall a | 0 <= a < |rows| :: rows[a] == ([0] + rows)[a + 1];
    assert s0.percents[|s0.percents|..] == [] && s0.data[|s0.data|..] == [];
    assert s0.cycles[|s0.cycles|..] == [] && s0.timestamps[|s0.timestamps|..] == [];
  }

  lemma UnderwayLength(s: Samples, s0: Samples, rows: seq<nat>, c: nat)
    requires Underway(s, s0, rows, c)
    ensures |s.percents| == |rows| + 1 + (|s0.data| - c)
  {
  }

  /** The rows kept so far, and those that will be. */
  function KeptIn(rows: seq<nat>, percents: seq<real>, cycles: seq<int>, c: nat): seq<nat>
    requires 1 <= c <= |percents| == |cycles| + 1
  {
    rows + Usable(percents, cycles, c)
  }

  lemma UsableLooks(percents: seq<real>, cycles: seq<int>, c: nat, rows: seq<nat>)
    requires 1 <= c <= |percents| == |cycles| + 1
    ensures rows == [] ==> KeptIn(rows, percents, cycles, c) == Usable(percents, cycles, c)
    ensures c == |percents| ==> KeptIn(rows, percents, cycles, c) == rows
    ensures c < |percents| ==>
              KeptIn(rows, percents, cycles, c)
              == KeptIn(if Unusable(percents[c], cycles[c - 1]) then rows else rows + [c], percents, cycles, c + 1)
  {
    if c < |percents| {
      assert rows + ([c] + Usable(percents, cycles, c + 1)) == rows + [c] + Usable(percents, cycles, c + 1);
    }
  }

  /** The deletion loop: a sample is dropped from all four lists, or kept in all four. */
  method DropSamples(s0: Samples) returns (s: Samples)
    requires |s0.data| == |s0.percents| == |s0.cycles| + 1 == |s0.timestamps| + 1
    ensures s == Kept(s0, Usable(s0.percents, s0.cycles, 1))
  {
    hide *;
    s := s0;
    var i, m := 1, |s0.percents|;
    ghost var rows: seq<nat>, c: nat := [], 1;
    UnderwayStart(s0);
    UsableLooks(s0.percents, s0.cycles, c, rows);
    while i < m
      invariant 1 <= c <= |s0.data| && i == |rows| + 1 && Underway(s, s0, rows, c)
                && m == |s.percents| == i + (|s0.data| - c)
      invariant KeptIn(rows, s0.percents, s0.cycles, c) == Usable(s0.percents, s0.cycles, 1)
      decreases m - i
    {
      UnderwayDelete(s, s0, rows, c);
      UsableLooks(s0.percents, s0.cycles, c, rows);
      if Unusable(s.percents[i], s.cycles[i - 1]) {
        s := DeleteSample(s, i);
        UnderwayLength(s, s0, rows, c + 1);
        m := |s.percents|;
      } else {
        UnderwayKeep(s, s0, rows, c);
        rows := rows + [c];
        i := i + 1;
      }
      c := c + 1;
    }
    UsableLooks(s0.percents, s0.cycles, c, rows);
    UnderwayDone(s, s0, rows);
  }
}
