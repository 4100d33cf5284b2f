/** Repair of one sample: out-of-band strain becomes a copy of, or a ramp between, its neighbours. */
module FibreRepair {
  import opened FibreMatrix
  import opened Options

  datatype Band = Band(minstrain: real, maxstrain: real)

  predicate Bad(x: real, b: Band) {
    x < b.minstrain || x > b.maxstrain
  }

  predicate AllBad(row: Row, from: nat, to: nat, b: Band)
    requires to <= |row|
  {
    forall i | from <= i < to :: Bad(row[i], b)
  }

  /** The first good entry in [from, to), or `to`. */
  function NextGood(row: Row, from: nat, to: nat, b: Band): (r: nat)
    requires from <= to <= |row|
    ensures from <= r <= to && AllBad(row, from, r, b)
    ensures r < to ==> !Bad(row[r], b)
    decreases |row| - from
  {
    if from == to || !Bad(row[from], b) then from else NextGood(row, from + 1, to, b)
  }

  /** The last good entry before `k`, or -1. */
  function PrevGood(row: Row, k: nat, b: Band): (r: int)
    requires k <= |row|
    ensures -1 <= r < k && AllBad(row, r + 1, k, b)
    ensures r >= 0 ==> !Bad(row[r], b)
  {
    if k == 0 then -1 else if !Bad(row[k - 1], b) then k - 1 else PrevGood(row, k - 1, b)
  }

  function CountBad(row: Row, to: nat, b: Band): (c: nat)
    requires to <= |row|
    ensures c <= to
  {
    if to == 0 then 0 else CountBad(row, to - 1, b) + if Bad(row[to - 1], b) then 1 else 0
  }

  /** `steps` of `span` steps on the way from `a` to `z`. */
  function Ramp(a: real, z: real, steps: nat, span: nat): real
    requires span > 0
  {
    a + steps as real * ((z - a) / span as real)
  }

  // ----- what a sample becomes

  /** An entry before the last: kept when good, else made from the nearest good entries, where the last
      entry of the sample never serves as the one on the right. */
  function Mended(row: Row, k: nat, b: Band): real
    requires k + 1 < |row| && !AllBad(row, 0, |row| - 1, b)
  {
    if !Bad(row[k], b) then row[k] else
    var left, right := PrevGood(row, k, b), NextGood(row, k + 1, |row| - 1, b);
    if left < 0 then row[right]
    else if right == |row| - 1 then row[left]
    else Ramp(row[left], row[right], k - left, right - left)
  }

  /** The last entry, when bad, repeats the entry before it. */
  function MendedAt(row: Row, k: nat, b: Band): real
    requires k < |row| && |row| >= 2 && !AllBad(row, 0, |row| - 1, b)
  {
    if k + 1 < |row| then Mended(row, k, b)
    else if Bad(row[k], b) then Mended(row, k - 1, b)
    else row[k]
  }

  function MendedRow(row: Row, b: Band): (r: Row)
    requires |row| >= 2 && !AllBad(row, 0, |row| - 1, b)
  {
    seq(|row|, k requires 0 <= k < |row| => MendedAt(row, k, b))
  }

  function Zeros(n: nat): Row {
    seq(n, _ => 0.0)
  }

  /** The repaired sample and its count of bad entries.  A lone bad entry has no neighbour to read (an
      index error); two entries, one of them bad, or nothing good before the last give a zero sample. */
  function Repaired(row: Row, b: Band): Option<(Row, nat)> {
    if AllGood(row, |row|, b) then Some((row, 0))
    else if |row| == 1 then None
    else if |row| == 2 || AllBad(row, 0, |row| - 1, b) then Some((Zeros(|row|), |row|))
    else Some((MendedRow(row, b), CountBad(row, |row|, b)))
  }

  predicate AllGood(row: Row, to: nat, b: Band)
    requires to <= |row|
  {
    forall i | 0 <= i < to :: !Bad(row[i], b)
  }

  // ----- one bad run

  /** Where the bad run that begins at `j` ends; the last entry is never counted into an earlier run. */
  function RunEnd(row: Row, j: nat, b: Band): (e: nat)
    requires j < |row|
    ensures j < e <= |row|
    ensures e < |row| - 1 ==> !Bad(row[e], b)
    ensures e <= |row| - 1 || j == |row| - 1
  {
    if j + 1 < |row| then NextGood(row, j + 1, |row| - 1, b) else j + 1
  }

  /** The row with one value throughout [from, to). */
  function Flat(row: Row, from: nat, to: nat, x: real): Row {
    seq(|row|, k requires 0 <= k < |row| => if from <= k < to then x else row[k])
  }

  /** The row with a straight line through [from, to), between the entries on both sides. */
  function Sloped(row: Row, from: nat, to: nat): Row
    requires 0 < from <= to < |row|
  {
    seq(|row|, k requires 0 <= k < |row| =>
      if from <= k < to then Ramp(row[from - 1], row[to], k - (from - 1), to - (from - 1)) else row[k])
  }

  /** What the search from a bad entry `j` does: the new row and the number of entries it accounts for. */
  function RunMended(row: Row, j: nat, b: Band): Option<(Row, nat)>
    requires j < |row|
  {
    var n, e := |row|, RunEnd(row, j, b);
    if n == 1 then None
    else if e - j == n - 1 then Some((Zeros(n), n))
    else if j == 0 then Some((Flat(row, 0, e, row[e]), e))
    else if e >= n - 1 then Some((Flat(row, j, e, row[j - 1]), e - j))
    else Some((Sloped(row, j, e), e - j))
  }

  /** The search: widen the run while the next entry is bad, then overwrite it. */
  method MendRun(row0: Row, j: nat, b: Band) returns (r: Option<(Row, nat)>)
    requires j < |row0|
    ensures r == RunMended(row0, j, b)
  {
    var n, row, count, found := |row0|, row0, 1, false;
    while !found
      invariant !found ==> row == row0 && 1 <= count && j + count <= RunEnd(row0, j, b)
      invariant found ==> RunMended(row0, j, b) == Some((row, count))
      decreases !found, n - count
    {
      if count == n - 1 {
        found := true;
        row := Zeros(n);
        count := count + 1;
      } else if j + count < n - 1 && Bad(row[j + count], b) {
        count := count + 1;
      } else if j == 0 {
        found := true;
        if n == 1 {
          return None;
        }
        row := FillFlat(row, 0, count, row[count]);
      } else if j + count >= n - 1 {
        found := true;
        row := FillFlat(row, j, j + count, row[j - 1]);
      } else {
        found := true;
        row := FillSloped(row, j, count);
      }
    }
    return Some((row, count));
  }

  method FillFlat(row0: Row, from: nat, to: nat, x: real) returns (row: Row)
    requires from <= to <= |row0|
    ensures row == Flat(row0, from, to, x)
  {
    row := row0;
    for k := from to to
      invariant row == Flat(row0, from, k, x)
    {
      row := row[k := x];
    }
  }

  method FillSloped(row0: Row, j: nat, count: nat) returns (row: Row)
    requires 0 < j && j + count < |row0|
    ensures row == Sloped(row0, j, j + count)
  {
    row := row0;
    var increment := (row[j + count] - row[j - 1]) / (count + 1) as real;
    for k := 1 to count + 1
      invariant |row| == |row0|
      invariant forall i | 0 <= i < |row| ::
                  row[i] == if j <= i < j + k - 1 then Ramp(row0[j - 1], row0[j + count], i - (j - 1), count + 1)
                            else row0[i]
    {
      row := row[j - 1 + k := row[j - 1] + k as real * increment];
    }
    assert j + count - (j - 1) == count + 1;
  }

  // ----- the whole sample

  lemma {:induction false} CountBadAt(row: Row, j: nat, e: nat, b: Band)
    requires j <= e <= |row|
    ensures AllBad(row, j, e, b) ==> CountBad(row, e, b) == CountBad(row, j, b) + (e - j)
    ensures AllGood(row, j, b) <==> CountBad(row, j, b) == 0
    decreases e
  {
    if j < e {
      CountBadAt(row, j, e - 1, b);
    } else if j > 0 {
      CountBadAt(row, j - 1, j - 1, b);
    }
  }

  lemma {:induction false} CountBadBound(row: Row, e: nat, g: nat, b: Band)
    requires e <= |row| && g < |row| && !Bad(row[g], b)
    ensures CountBad(row, e, b) < |row|
    ensures g < e ==> CountBad(row, e, b) < e
    decreases e
  {
    if e > 0 {
      CountBadBound(row, e - 1, g, b);
    }
  }

  lemma RampInBand(a: real, z: real, steps: nat, span: nat, b: Band)
    requires 0 < steps <= span && !Bad(a, b) && !Bad(z, b)
    ensures !Bad(Ramp(a, z, steps, span), b)
    ensures a <= z ==> a <= Ramp(a, z, steps, span) <= z
    ensures a >= z ==> z <= Ramp(a, z, steps, span) <= a
  {
    var s, t := steps as real, span as real;
    var d := (z - a) / t;
    assert d * t == z - a;
    if a <= z {
      assert d >= 0.0;
      assert s * d <= t * d;
    } else {
      assert d <= 0.0 by { assert d * t < 0.0; }
      assert s * d >= t * d;
    }
  }

  /** Every repaired entry is in band. */
  lemma MendedInBand(row: Row, k: nat, b: Band)
    requires k < |row| && |row| >= 2 && !AllBad(row, 0, |row| - 1, b)
    ensures !Bad(MendedAt(row, k, b), b)
  {
    if k + 1 == |row| && Bad(row[k], b) {
      MendedInBand(row, k - 1, b);
    } else if Bad(row[k], b) {
      var left, right := PrevGood(row, k, b), NextGood(row, k + 1, |row| - 1, b);
      if left >= 0 && right < |row| - 1 {
        RampInBand(row[left], row[right], k - left, right - left, b);
      }
    }
  }

  /** The row when everything before `e` is repaired. */
  predicate RepairedTo(row: Row, row0: Row, e: nat, b: Band) {
    && |row| == |row0| >= 2 && e <= |row| && !AllBad(row0, 0, |row0| - 1, b)
    && (forall k | 0 <= k < e :: row[k] == MendedAt(row0, k, b))
    && (forall k | e <= k < |row| :: row[k] == row0[k])
  }

  /** One run, from where the repaired part ends. */
  lemma RunIsMended(row: Row, row0: Row, j: nat, b: Band)
    requires RepairedTo(row, row0, j, b) && 0 < j < |row| && Bad(row0[j], b) && |row| >= 3
    requires j < |row| - 1 ==> !Bad(row0[j - 1], b)
    ensures var e := RunEnd(row, j, b);
            && RunMended(row, j, b).Some? && RunMended(row, j, b).value.1 == e - j
            && AllBad(row0, j, e, b) && e == RunEnd(row0, j, b)
            && RepairedTo(RunMended(row, j, b).value.0, row0, e, b)
  {
    if j < |row| - 1 {
      assert row[j - 1] == row0[j - 1] by {
        assert row[j - 1] == MendedAt(row0, j - 1, b);
      }
      forall k | j <= k < RunEnd(row0, j, b)
        ensures var e := RunEnd(row0, j, b);
                MendedAt(row0, k, b) == if e == |row0| - 1 then row0[j - 1]
                                        else Ramp(row0[j - 1], row0[e], k - (j - 1), e - (j - 1))
      {
      }
      hide RunEnd, AllGood, Ramp, MendedAt;
    } else {
      hide AllGood, Ramp, Mended;
    }
  }

  /** The loop's state before entry `j`: either the whole sample was zeroed, or everything before `e` is
      repaired and counted, and the rest is untouched. */
  predicate Progress(row: Row, bad: nat, row0: Row, j: nat, e: nat, b: Band) {
    var n := |row0|;
    && |row| == n && bad <= n && j <= n
    && if 0 < n == bad then
         && n >= 2 && row == Zeros(n) && !AllGood(row0, n, b) && (n == 2 || AllBad(row0, 0, n - 1, b))
       else
         && j <= e <= n && bad == CountBad(row0, e, b)
         && (if j == 0 || n < 3 then e == j && row == row0 && AllGood(row0, j, b) else RepairedTo(row, row0, e, b))
         && (n >= 3 && 0 < e < n - 1 ==> !Bad(row0[e - 1], b) || !Bad(row0[e], b))
  }

  /** A bad entry of an unzeroed sample begins where the repaired part ends. */
  lemma BadAtFrontier(row: Row, bad: nat, row0: Row, j: nat, e: nat, b: Band)
    requires Progress(row, bad, row0, j, e, b) && j < |row| && bad < |row| && Bad(row[j], b)
    ensures e == j && row[j] == row0[j]
  {
    if |row| >= 3 && 0 < j < e {
      MendedInBand(row0, j, b);
    }
  }

  lemma FirstRun(row0: Row, b: Band)
    requires |row0| >= 3 && Bad(row0[0], b)
    ensures var e := RunEnd(row0, 0, b);
            && (e == |row0| - 1 <==> AllBad(row0, 0, |row0| - 1, b))
            && (e < |row0| - 1 ==> CountBad(row0, e, b) == e && RepairedTo(Flat(row0, 0, e, row0[e]), row0, e, b))
  {
    var e := RunEnd(row0, 0, b);
    CountBadAt(row0, 0, e, b);
    if e < |row0| - 1 {
      forall k | 0 <= k < e ensures Mended(row0, k, b) == row0[e] {
        assert PrevGood(row0, k, b) < 0;
        assert NextGood(row0, k + 1, |row0| - 1, b) == e;
      }
    }
  }

  lemma MendStep(row: Row, bad: nat, row0: Row, j: nat, e: nat, b: Band)
    requires Progress(row, bad, row0, j, e, b) && j < |row| && bad < |row| && Bad(row[j], b)
    ensures var m := RunMended(row, j, b);
            && (m.None? ==> Repaired(row0, b) == None)
            && (m.Some? ==> Progress(m.value.0, bad + m.value.1, row0, j + 1, RunEnd(row0, j, b), b))
  {
    BadAtFrontier(row, bad, row0, j, e, b);
    if |row| >= 3 {
      var e' := RunEnd(row0, j, b);
      if j == 0 {
        FirstRun(row0, b);
        CountBadAt(row0, 0, 0, b);
      } else {
        RunIsMended(row, row0, j, b);
        CountBadAt(row0, j, e', b);
        var g := NextGood(row0, 0, |row0| - 1, b);
        CountBadBound(row0, e', g, b);
        hide RunMended, RunEnd, RepairedTo, Repaired, CountBad, AllBad, AllGood;
      }
    } else if |row| == 2 {
      CountBadAt(row0, j, j, b);
    }
  }

  lemma Finish(row: Row, bad: nat, row0: Row, e: nat, b: Band)
    requires Progress(row, bad, row0, |row0|, e, b)
    ensures Repaired(row0, b) == Some((row, bad))
  {
    CountBadAt(row0, |row0|, |row0|, b);
    if |row| >= 3 && bad < |row| {
      assert row == MendedRow(row0, b);
      assert AllGood(row0, |row0|, b) ==> row == row0;
    }
  }

  /** The repair loop over one sample. */
  method RepairRow(row0: Row, b: Band) returns (r: Option<(Row, nat)>)
    ensures r == Repaired(row0, b)
  {
    var n, row := |row0|, row0;
    var bad: nat := 0;
    ghost var e: nat := 0;
    for j := 0 to n
      invariant Progress(row, bad, row0, j, e, b)
    {
      if bad < n && Bad(row[j], b) {
        var mended := MendRun(row, j, b);
        MendStep(row, bad, row0, j, e, b);
        hide Progress, RunMended, Repaired;
        if mended.None? {
          return None;
        }
        row, bad, e := mended.value.0, bad + mended.value.1, RunEnd(row0, j, b);
      } else {
        e := if j == e then e + 1 else e;
      }
    }
    Finish(row, bad, row0, e, b);
    return Some((row, bad));
  }

  // ----- what a repaired sample is

  lemma {:induction false} CountBadIsCardinality(row: Row, to: nat, b: Band)
    requires to <= |row|
    ensures CountBad(row, to, b) == |set k | 0 <= k < to && Bad(row[k], b)|
  {
    if to > 0 {
      CountBadIsCardinality(row, to - 1, b);
      var before := set k | 0 <= k < to - 1 && Bad(row[k], b);
      var all := set k | 0 <= k < to && Bad(row[k], b);
      assert all == if Bad(row[to - 1], b) then before + {to - 1} else before;
    }
  }

  /** Entries `a` and `z` are good, and no good entry before the last is nearer to `k`, or between them. */
  predicate NearestGood(row: Row, k: nat, a: nat, z: nat, b: Band) {
    && a <= z < |row| && !Bad(row[a], b) && !Bad(row[z], b)
    && forall i | 0 <= i < |row| - 1 && (a < i < z || z < i <= k || k <= i < a) :: Bad(row[i], b)
  }

  predicate Between(x: real, p: real, q: real) {
    p <= x <= q || q <= x <= p
  }

  /** `x` lies between the good entries nearest to `k`. */
  ghost predicate BetweenNearestGood(x: real, row: Row, k: nat, b: Band) {
    exists a: nat, z: nat :: NearestGood(row, k, a, z, b) && Between(x, row[a], row[z])
  }

  /** The good entries a bad entry before the last is made from. */
  function Neighbours(row: Row, k: nat, b: Band): (nat, nat)
    requires k + 1 < |row| && !AllBad(row, 0, |row| - 1, b) && Bad(row[k], b)
  {
    var left, right := PrevGood(row, k, b), NextGood(row, k + 1, |row| - 1, b);
    if left < 0 then (right, right) else if right == |row| - 1 then (left, left) else (left, right)
  }

  lemma NeighboursNearest(row: Row, k: nat, b: Band)
    requires k + 1 < |row| && !AllBad(row, 0, |row| - 1, b) && Bad(row[k], b)
    ensures var (a, z) := Neighbours(row, k, b);
            && NearestGood(row, k, a, z, b)
            && (k + 2 == |row| ==> NearestGood(row, k + 1, a, z, b))
            && Between(Mended(row, k, b), row[a], row[z])
  {
    var (a, z) := Neighbours(row, k, b);
    if a < z {
      RampInBand(row[a], row[z], k - a, z - a, b);
      hide Ramp, Bad;
    } else {
      hide Ramp, Bad;
    }
  }

  lemma MendedIsBetween(row: Row, k: nat, b: Band)
    requires k < |row| && |row| >= 3 && !AllBad(row, 0, |row| - 1, b) && Bad(row[k], b)
    ensures BetweenNearestGood(MendedAt(row, k, b), row, k, b)
  {
    hide Bad, PrevGood, NextGood, Neighbours;
    var at := if k + 1 < |row| then k else k - 1;
    if Bad(row[at], b) {
      NeighboursNearest(row, at, b);
      var (a, z) := Neighbours(row, at, b);
      hide Mended;
      assert NearestGood(row, k, a, z, b);
    } else {
      assert NearestGood(row, k, at, at, b);
    }
  }

  /** Repair of a sample of three or more entries: it never fails; the sample is zeroed and counted as
      wholly bad exactly when nothing before the last entry is good; otherwise the bad entries are
      counted exactly, good entries stay, and bad ones end between their nearest good neighbours, so the
      whole sample ends in band. */
  lemma RepairMeaning(row: Row, b: Band)
    requires |row| >= 3
    ensures Repaired(row, b).Some?
    ensures var (mended, bad) := Repaired(row, b).value;
            && |mended| == |row|
            && (bad == |row| <==> AllBad(row, 0, |row| - 1, b))
            && (bad == |row| ==> mended == Zeros(|row|))
            && (bad != |row| ==>
                  && bad == |set k | 0 <= k < |row| && Bad(row[k], b)|
                  && (forall k | 0 <= k < |row| :: b.minstrain <= mended[k] <= b.maxstrain)
                  && (forall k | 0 <= k < |row| && b.minstrain <= row[k] <= b.maxstrain :: mended[k] == row[k])
                  && (forall k | 0 <= k < |row| && Bad(row[k], b) :: BetweenNearestGood(mended[k], row, k, b)))
  {
    CountBadIsCardinality(row, |row|, b);
    CountBadAt(row, |row|, |row|, b);
    if !AllBad(row, 0, |row| - 1, b) {
      var g := NextGood(row, 0, |row| - 1, b);
      CountBadBound(row, |row|, g, b);
      forall k | 0 <= k < |row|
        ensures !Bad(MendedAt(row, k, b), b)
        ensures b.minstrain <= MendedAt(row, k, b) <= b.maxstrain
        ensures b.minstrain <= row[k] <= b.maxstrain ==> MendedAt(row, k, b) == row[k]
        ensures Bad(row[k], b) ==> BetweenNearestGood(MendedAt(row, k, b), row, k, b)
      {
        MendedInBand(row, k, b);
        if Bad(row[k], b) {
          MendedIsBetween(row, k, b);
        }
      }
      hide BetweenNearestGood, CountBad, MendedAt, Bad;
    }
  }

  /** The entries strictly between two places are out of band. */
  predicate OutBetween(row: Row, from: int, to: int, b: Band)
    requires -1 <= from && to <= |row|
  {
    forall i | from < i < to :: row[i] < b.minstrain || b.maxstrain < row[i]
  }

  predicate InBand(x: real, b: Band) {
    b.minstrain <= x <= b.maxstrain
  }

  lemma OnTheLine(a: real, z: real, steps: nat, span: nat)
    requires span > 0
    ensures (Ramp(a, z, steps, span) - a) * span as real == (z - a) * steps as real
  {
    var d := (z - a) / span as real;
    assert d * span as real == z - a;
    assert (steps as real * d) * span as real == steps as real * (d * span as real);
  }

  /** A sample with a good entry before the last is repaired entry by entry. */
  lemma RepairedEntry(row: Row, b: Band, g: nat, k: nat)
    requires |row| >= 3 && g < |row| - 1 && InBand(row[g], b) && k < |row|
    ensures !AllBad(row, 0, |row| - 1, b)
    ensures Repaired(row, b).Some? && |Repaired(row, b).value.0| == |row|
    ensures Repaired(row, b).value.0[k] == MendedAt(row, k, b)
  {
    assert !Bad(row[g], b);
    hide Ramp, CountBad, PrevGood, NextGood;
  }

  lemma PrevIs(row: Row, a: nat, k: nat, b: Band)
    requires a < k <= |row| && InBand(row[a], b) && OutBetween(row, a, k, b)
    ensures PrevGood(row, k, b) == a
  {
    var p := PrevGood(row, k, b);
    assert p > a ==> !Bad(row[p], b);
    assert !Bad(row[a], b);
  }

  lemma NextIs(row: Row, k: nat, z: nat, b: Band)
    requires k <= z < |row| - 1 && InBand(row[z], b) && OutBetween(row, k - 1, z, b)
    ensures NextGood(row, k, |row| - 1, b) == z
  {
    var p := NextGood(row, k, |row| - 1, b);
    assert p < z ==> !Bad(row[p], b);
    assert !Bad(row[z], b);
  }

  lemma NextIsNone(row: Row, k: nat, b: Band)
    requires k < |row| && OutBetween(row, k - 1, |row| - 1, b)
    ensures NextGood(row, k, |row| - 1, b) == |row| - 1
  {
  }

  lemma MendedOnLine(row: Row, b: Band, a: nat, z: nat, k: nat)
    requires a < k < z < |row| - 1 && InBand(row[a], b) && InBand(row[z], b) && OutBetween(row, a, z, b)
    requires !AllBad(row, 0, |row| - 1, b)
    ensures MendedAt(row, k, b) == Ramp(row[a], row[z], k - a, z - a)
  {
    hide Ramp, PrevGood, NextGood, AllBad;
    PrevIs(row, a, k, b);
    NextIs(row, k + 1, z, b);
  }

  lemma MendedKeeps(row: Row, b: Band, k: nat)
    requires k + 1 < |row| && InBand(row[k], b) && !AllBad(row, 0, |row| - 1, b)
    ensures MendedAt(row, k, b) == row[k]
  {
    hide Ramp, PrevGood, NextGood, AllBad;
  }

  /** A bad run between two good entries before the last becomes the straight line through them. */
  lemma RepairedOnLine(row: Row, b: Band, a: nat, z: nat, k: nat)
    requires a <= k <= z && a < z < |row| - 1 && InBand(row[a], b) && InBand(row[z], b) && OutBetween(row, a, z, b)
    ensures Repaired(row, b).Some? && |Repaired(row, b).value.0| == |row|
    ensures (Repaired(row, b).value.0[k] - row[a]) * (z - a) as real == (row[z] - row[a]) * (k - a) as real
  {
    hide Repaired, Ramp, MendedAt, InBand, AllBad, OutBetween;
    RepairedEntry(row, b, a, k);
    if a < k < z {
      MendedOnLine(row, b, a, z, k);
      OnTheLine(row[a], row[z], k - a, z - a);
    } else {
      MendedKeeps(row, b, k);
    }
  }

  /** A bad run at the front becomes a copy of the first good entry. */
  lemma RepairedInFront(row: Row, b: Band, z: nat, k: nat)
    requires k <= z < |row| - 1 && InBand(row[z], b) && OutBetween(row, -1, z, b) && |row| >= 3
    ensures Repaired(row, b).Some? && |Repaired(row, b).value.0| == |row| && Repaired(row, b).value.0[k] == row[z]
  {
    RepairedEntry(row, b, z, k);
    if k < z {
      NextIs(row, k + 1, z, b);
    }
    hide Repaired, NextGood;
  }

  /** A bad run that reaches the last two entries becomes a copy of the good entry before it, also when the last
      entry itself is good: that one is kept, but never used as a neighbour. */
  lemma RepairedBehind(row: Row, b: Band, a: nat, k: nat)
    requires a < |row| - 1 && a <= k < |row| && InBand(row[a], b) && OutBetween(row, a, |row| - 1, b) && |row| >= 3
    ensures Repaired(row, b).Some? && |Repaired(row, b).value.0| == |row|
    ensures Repaired(row, b).value.0[k] == if InBand(row[k], b) then row[k] else row[a]
  {
    hide Repaired, PrevGood, NextGood, Ramp;
    RepairedEntry(row, b, a, k);
    if !InBand(row[k], b) {
      var at := if k < |row| - 1 then k else k - 1;
      if a < at {
        PrevIs(row, a, at, b);
        NextIsNone(row, at + 1, b);
      }
    }
  }

  /** Samples of fewer than three entries: nothing to repair, an index error, or a zero sample. */
  lemma SmallSamples(row: Row, b: Band)
    requires |row| < 3
    ensures Repaired(row, b) == if forall k | 0 <= k < |row| :: InBand(row[k], b) then Some((row, 0))
                                else if |row| == 1 then None else Some(([0.0, 0.0], 2))
  {
    assert |row| == 2 ==> Zeros(2) == [0.0, 0.0];
    assert AllGood(row, |row|, b) <==> forall k | 0 <= k < |row| :: InBand(row[k], b);
  }

  /** Repair settles: repairing a repaired sample changes nothing, and finds nothing bad unless the
      sample was zeroed and zero itself is out of band. */
  lemma RepairSettles(row: Row, b: Band)
    requires Repaired(row, b).Some?
    ensures var (mended, bad) := Repaired(row, b).value;
            Repaired(mended, b) == Some((mended, if bad == |row| && Bad(0.0, b) then bad else 0))
  {
    var (mended, bad) := Repaired(row, b).value;
    if |row| >= 3 {
      RepairMeaning(row, b);
    }
    if bad == |row| > 0 {
      assert mended[0] == 0.0;
      assert AllBad(mended, 0, |mended| - 1, b) <==> |mended| == 1 || Bad(0.0, b);
    } else {
      assert AllGood(mended, |mended|, b);
    }
  }
}
