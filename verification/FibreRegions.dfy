/** Separation of the selected columns into regions. */
module FibreRegions {
  import opened FibreMatrix
  import opened Options
  import opened FibreColumns

  /** A region's positions, and its strain per sample; a region nothing was assigned to is empty. */
  datatype Region = Region(position: Row, strain: seq<Row>)

  /** Where the scan stops that starts at column `i` and stays within [low, high]. */
  function Stretch(pos: Row, i: nat, low: real, high: real): (e: nat)
    requires i <= |pos|
    ensures i <= e <= |pos|
    ensures forall k | i <= k < e :: low <= pos[k] <= high
    ensures e < |pos| ==> !(low <= pos[e] <= high)
    decreases |pos| - i
  {
    if i < |pos| && low <= pos[i] <= high then Stretch(pos, i + 1, low, high) else i
  }

  /** The column at which region `t` starts. */
  function Cut(pos: Row, initial: Row, final: Row, t: nat): (i: nat)
    requires t <= |initial| == |final|
    ensures i <= |pos|
  {
    if t == 0 then 0 else Stretch(pos, Cut(pos, initial, final, t - 1), initial[t - 1], final[t - 1])
  }

  function Slice(data: seq<Row>, from: nat, to: nat): Region
    requires |data| > 0 && from <= to <= |data[0]| && Rectangular(data, |data[0]|)
  {
    Region(data[0][from..to], seq(|data| - 1, p requires 0 <= p < |data| - 1 => data[p + 1][from..to]))
  }

  function RegionAt(data: seq<Row>, initial: Row, final: Row, t: nat): Region
    requires |data| > 0 && Rectangular(data, |data[0]|) && t < |initial| == |final|
  {
    Slice(data, Cut(data[0], initial, final, t), Cut(data[0], initial, final, t + 1))
  }

  /** The first `j` regions. */
  function Regions(data: seq<Row>, initial: Row, final: Row, j: nat): (r: seq<Region>)
    requires |data| > 0 && Rectangular(data, |data[0]|) && j <= |initial| == |final|
    ensures |r| == j
  {
    if j == 0 then [] else Regions(data, initial, final, j - 1) + [RegionAt(data, initial, final, j - 1)]
  }

  lemma {:induction false} RegionsAt(data: seq<Row>, initial: Row, final: Row, j: nat, t: nat)
    requires |data| > 0 && Rectangular(data, |data[0]|) && t < j <= |initial| == |final|
    ensures Regions(data, initial, final, j)[t] == RegionAt(data, initial, final, t)
  {
    hide RegionAt, Rectangular;
    if t < j - 1 {
      RegionsAt(data, initial, final, j - 1, t);
    }
  }

  lemma OneRegionMore(data: seq<Row>, initial: Row, final: Row, j: nat)
    requires |data| > 0 && Rectangular(data, |data[0]|) && j < |initial| == |final|
    ensures var i, next := Cut(data[0], initial, final, j), Cut(data[0], initial, final, j + 1);
            && i <= next == Stretch(data[0], i, initial[j], final[j])
            && Regions(data, initial, final, j + 1) == Regions(data, initial, final, j) + [Slice(data, i, next)]
  {
  }

  /** The regions; none when the columns run out before the last region starts (an index error). */
  function Separated(data: seq<Row>, initial: Row, final: Row): (r: Option<seq<Region>>)
    requires |data| > 0 && Rectangular(data, |data[0]|) && |initial| == |final| > 0
  {
    var pos := data[0];
    if Cut(pos, initial, final, |initial| - 1) == |pos| then None
    else Some(Regions(data, initial, final, |initial|))
  }

  lemma {:induction false} CutsStay(pos: Row, initial: Row, final: Row, t: nat, u: nat)
    requires t <= u <= |initial| == |final|
    ensures Cut(pos, initial, final, t) <= Cut(pos, initial, final, u)
    decreases u - t
  {
    if t < u {
      CutsStay(pos, initial, final, t, u - 1);
    }
  }

  /** The separation loop: columns go to the current region while they lie in it. */
  method SeparateRegions(data: seq<Row>, initial: Row, final: Row) returns (r: Option<seq<Region>>)
    requires |data| > 0 && Rectangular(data, |data[0]|) && |initial| == |final| > 0
    ensures r == Separated(data, initial, final)
  {
    var pos, n := data[0], |data[0]|;
    var regions: seq<Region> := [];
    var i := 0;
    assert Cut(pos, initial, final, 0) == 0;
    hide Cut, Slice, Stretch, Rectangular;
    for j := 0 to |initial|
      invariant i == Cut(pos, initial, final, j) && regions == Regions(data, initial, final, j)
      invariant j == |initial| ==> Cut(pos, initial, final, |initial| - 1) < n
    {
      if i >= n {
        CutsStay(pos, initial, final, j, |initial| - 1);
        return None;
      }
      OneRegionMore(data, initial, final, j);
      var region, next := TakeRegion(data, i, initial[j], final[j]);
      regions := regions + [region];
      i := next;
    }
    return Some(regions);
  }

  /** One region: its columns, from column `from` on. */
  method TakeRegion(data: seq<Row>, from: nat, low: real, high: real) returns (region: Region, i: nat)
    requires |data| > 0 && Rectangular(data, |data[0]|) && from < |data[0]|
    ensures i == Stretch(data[0], from, low, high) && region == Slice(data, from, i)
  {
    var n := |data[0]|;
    var position: Row := [];
    var strain: seq<Row> := seq(|data| - 1, _ => []);
    i := from;
    var found := false;
    while !found
      invariant from <= i <= n && (!found ==> i < n)
      invariant position == data[0][from..i] && |strain| == |data| - 1
      invariant forall p | 0 <= p < |strain| :: strain[p] == data[p + 1][from..i]
      invariant Stretch(data[0], from, low, high) == Stretch(data[0], i, low, high)
      invariant found ==> Stretch(data[0], i, low, high) == i
      decreases !found, n - i
    {
      if data[0][i] >= low && data[0][i] <= high {
        position := position + [data[0][i]];
        strain := AddColumn(data, strain, i);
        i := i + 1;
        if i == n {
          found := true;
        }
      } else {
        found := true;
      }
    }
    region := Region(position, strain);
  }

  method AddColumn(data: seq<Row>, strain0: seq<Row>, i: nat) returns (strain: seq<Row>)
    requires |data| > 0 && Rectangular(data, |data[0]|) && i < |data[0]| && |strain0| == |data| - 1
    ensures |strain| == |strain0| && forall p | 0 <= p < |strain| :: strain[p] == strain0[p] + [data[p + 1][i]]
  {
    strain := strain0;
    for p := 1 to |data|
      invariant |strain| == |strain0|
      invariant forall q | 0 <= q < |strain| ::
                  strain[q] == if q < p - 1 then strain0[q] + [data[q + 1][i]] else strain0[q]
    {
      strain := strain[p - 1 := strain[p - 1] + [data[p][i]]];
    }
  }

  // ----- what the regions hold

  predicate AllPlaced(pos: Row, initial: Row, final: Row)
    requires |initial| == |final|
  {
    forall k | 0 <= k < |pos| :: InSomeRegion(pos[k], initial, final, 0)
  }

  lemma NotLater(x: real, initial: Row, final: Row, t: nat)
    requires Ordered(initial, final) && t < |initial|
    ensures x <= final[t] ==> !InSomeRegion(x, initial, final, t + 1)
    ensures InSomeRegion(x, initial, final, t + 1) ==> x > final[t] && !InRegion(x, initial, final, t)
    ensures InSomeRegion(x, initial, final, t)
            <==> InRegion(x, initial, final, t) || InSomeRegion(x, initial, final, t + 1)
  {
  }

  /** The stretch of region `u` takes its columns and leaves those of later regions. */
  lemma StretchSplits(pos: Row, initial: Row, final: Row, u: nat, c: nat, e: nat, k: nat)
    requires Sorted(pos) && Ordered(initial, final) && u < |initial| && c <= k < |pos|
    requires e == Stretch(pos, c, initial[u], final[u])
    requires InSomeRegion(pos[k], initial, final, u) && (e <= k ==> InSomeRegion(pos[e], initial, final, u))
    ensures e <= k <==> InSomeRegion(pos[k], initial, final, u + 1)
  {
  }

  /** The columns before the start of region `t` are those of the regions before `t`. */
  lemma {:induction false} CutExact(pos: Row, initial: Row, final: Row, t: nat, k: nat)
    requires Sorted(pos) && Ordered(initial, final) && AllPlaced(pos, initial, final) && t <= |initial| && k < |pos|
    ensures Cut(pos, initial, final, t) <= k <==> InSomeRegion(pos[k], initial, final, t)
  {
    if t > 0 {
      var c, e := Cut(pos, initial, final, t - 1), Cut(pos, initial, final, t);
      assert c <= e == Stretch(pos, c, initial[t - 1], final[t - 1]);
      hide Stretch, Cut;
      CutExact(pos, initial, final, t - 1, k);
      NotLater(pos[k], initial, final, t - 1);
      if e <= k {
        CutExact(pos, initial, final, t - 1, e);
      }
      hide *;
      if c <= k {
        StretchSplits(pos, initial, final, t - 1, c, e, k);
      }
    }
  }

  /** Each region holds exactly its own columns. */
  lemma RegionHolds(pos: Row, initial: Row, final: Row, t: nat, k: nat)
    requires Sorted(pos) && Ordered(initial, final) && AllPlaced(pos, initial, final) && t < |initial| && k < |pos|
    ensures Cut(pos, initial, final, t) <= k < Cut(pos, initial, final, t + 1) <==> InRegion(pos[k], initial, final, t)
  {
    CutExact(pos, initial, final, t, k);
    CutExact(pos, initial, final, t + 1, k);
    NotLater(pos[k], initial, final, t);
  }

  /** Separation succeeds exactly when the last region is not empty. */
  lemma SeparationSucceeds(data: seq<Row>, initial: Row, final: Row)
    requires |data| > 0 && Rectangular(data, |data[0]|) && |initial| > 0
    requires Sorted(data[0]) && Ordered(initial, final) && AllPlaced(data[0], initial, final)
    ensures Separated(data, initial, final).Some?
            <==> exists k :: 0 <= k < |data[0]| && InRegion(data[0][k], initial, final, |initial| - 1)
  {
    var pos, last := data[0], |initial| - 1;
    forall k | 0 <= k < |pos| ensures Cut(pos, initial, final, last) <= k <==> InRegion(pos[k], initial, final, last) {
      CutExact(pos, initial, final, last, k);
    }
    if Cut(pos, initial, final, last) < |pos| {
      assert InRegion(pos[|pos| - 1], initial, final, last);
    }
  }
}
