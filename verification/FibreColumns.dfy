/** A matrix of fibre measurements: the first row holds positions along the fibre, each later row one
    sample of the strain at those positions. */
module FibreMatrix {

  type Row = seq<real>

  predicate Rectangular(data: seq<Row>, n: nat) {
    forall p | 0 <= p < |data| :: |data[p]| == n
  }

  predicate Indices(ks: seq<nat>, n: nat) {
    forall i | 0 <= i < |ks| :: ks[i] < n
  }

  predicate Increasing(ks: seq<nat>) {
    forall i, j | 0 <= i < j < |ks| :: ks[i] < ks[j]
  }

  function Pick<T>(xs: seq<T>, ks: seq<nat>): (r: seq<T>)
    requires Indices(ks, |xs|)
  {
    seq(|ks|, i requires 0 <= i < |ks| => xs[ks[i]])
  }

  function PickColumns(data: seq<Row>, ks: seq<nat>): (r: seq<Row>)
    requires forall p | 0 <= p < |data| :: Indices(ks, |data[p]|)
  {
    seq(|data|, p requires 0 <= p < |data| => Pick(data[p], ks))
  }

  function DeleteColumn(data: seq<Row>, j: nat): (r: seq<Row>)
    requires forall p | 0 <= p < |data| :: j < |data[p]|
  {
    seq(|data|, p requires 0 <= p < |data| => Delete(data[p], j))
  }

  function Delete<T>(xs: seq<T>, i: nat): (r: seq<T>)
    requires i < |xs|
  {
    xs[..i] + xs[i + 1..]
  }

  /** A list while a deletion loop walks over it: what was kept so far, then what was not yet looked at. */
  predicate Partly<T(==)>(xs: seq<T>, xs0: seq<T>, ks: seq<nat>, c: nat) {
    c <= |xs0| && Indices(ks, |xs0|) && xs == Pick(xs0, ks) + xs0[c..]
  }

}

/** Selection of the columns that lie in a measuring region. */
module FibreColumns {
  import opened FibreMatrix
  import opened Options

  /** The columns kept from column `c` on, once the scan is at region `i`; none when it runs off the row. */
  function Scan(pos: Row, c: nat, initial: Row, final: Row, i: nat): (r: Option<seq<nat>>)
    requires c <= |pos| && i <= |initial| == |final|
    ensures r.Some? ==> Indices(r.value, |pos|)
    decreases |pos| - c, |initial| - i
  {
    if i == |initial| then Some([])
    else if c == |pos| then None
    else if pos[c] > final[i] then Scan(pos, c, initial, final, i + 1)
    else
      var later := Scan(pos, c + 1, initial, final, i);
      if pos[c] <= initial[i] || later.None? then later else Some([c] + later.value)
  }

  function Behind(ks: seq<nat>, later: Option<seq<nat>>): Option<seq<nat>> {
    if later.None? then None else Some(ks + later.value)
  }

  lemma BehindNothing(later: Option<seq<nat>>, ks: seq<nat>)
    ensures Behind([], later) == later
    ensures Behind(ks, Some([])) == Some(ks)
    ensures Behind(ks, None) == None
  {
    if later.Some? {
      assert [] + later.value == later.value;
    }
    assert ks + [] == ks;
  }

  /** One look at column `c` in region `i`. */
  lemma ScanLooks(pos: Row, c: nat, initial: Row, final: Row, i: nat, ks: seq<nat>)
    requires c < |pos| && i < |initial| == |final|
    ensures var now := Behind(ks, Scan(pos, c, initial, final, i));
            && (pos[c] > final[i] ==> now == Behind(ks, Scan(pos, c, initial, final, i + 1)))
            && (pos[c] <= final[i] && pos[c] <= initial[i] ==> now == Behind(ks, Scan(pos, c + 1, initial, final, i)))
            && (initial[i] < pos[c] <= final[i] ==> now == Behind(ks + [c], Scan(pos, c + 1, initial, final, i)))
  {
    if initial[i] < pos[c] <= final[i] {
      var later := Scan(pos, c + 1, initial, final, i);
      if later.Some? {
        assert ks + ([c] + later.value) == ks + [c] + later.value;
      }
    }
  }

  lemma ScanEnds(pos: Row, c: nat, initial: Row, final: Row, i: nat, ks: seq<nat>)
    requires c <= |pos| && i <= |initial| == |final|
    ensures i == |initial| ==> Behind(ks, Scan(pos, c, initial, final, i)) == Some(ks)
    ensures i < |initial| && c == |pos| ==> Behind(ks, Scan(pos, c, initial, final, i)) == None
  {
    BehindNothing(Some([]), ks);
  }

  /** The matrix while the scan is under way: the kept columns, then those not yet looked at. */
  predicate Layout(data: seq<Row>, data0: seq<Row>, ks: seq<nat>, c: nat) {
    && |data| == |data0|
    && forall p | 0 <= p < |data| :: Partly(data[p], data0[p], ks, c)
  }

  lemma LayoutDelete(data: seq<Row>, data0: seq<Row>, ks: seq<nat>, c: nat, n: nat)
    requires Layout(data, data0, ks, c) && Rectangular(data0, n) && c < n
    ensures forall p | 0 <= p < |data| :: |ks| < |data[p]|
    ensures Layout(DeleteColumn(data, |ks|), data0, ks, c + 1)
  {
  }

  lemma LayoutKeep(data: seq<Row>, data0: seq<Row>, ks: seq<nat>, c: nat, n: nat)
    requires Layout(data, data0, ks, c) && Rectangular(data0, n) && c < n
    ensures Layout(data, data0, ks + [c], c + 1)
  {
  }

  lemma LayoutStart(data0: seq<Row>)
    ensures Layout(data0, data0, [], 0)
  {
  }

  lemma LayoutLook(data: seq<Row>, data0: seq<Row>, ks: seq<nat>, c: nat, n: nat)
    requires |data0| > 0 && |data0[0]| == n && Layout(data, data0, ks, c)
    ensures |data| > 0 && |data[0]| == |ks| + n - c && (c < n ==> data[0][|ks|] == data0[0][c])
  {
  }

  lemma LayoutDone(data: seq<Row>, data0: seq<Row>, ks: seq<nat>, n: nat)
    requires Layout(data, data0, ks, n) && Rectangular(data0, n)
    ensures forall p | 0 <= p < |data0| :: Indices(ks, |data0[p]|)
    ensures data == PickColumns(data0, ks)
  {
    forall p | 0 <= p < |data| ensures data[p] == Pick(data0[p], ks) {
      assert data0[p][n..] == [];
    }
  }

  /** The deletion loop: columns at or before a region's start go, those up to its end stay, and
      whatever follows the last region goes.  Running off the row is an index error. */
  method SelectColumns(data0: seq<Row>, initial: Row, final: Row) returns (r: Option<seq<Row>>)
    requires |data0| > 0 && Rectangular(data0, |data0[0]|)
    requires |initial| == |final| > 0
    ensures var kept := Scan(data0[0], 0, initial, final, 0);
            r == if kept.None? then None else Some(PickColumns(data0, kept.value))
  {
    hide *;
    var n0 := |data0[0]|;
    ghost var pos, all := data0[0], Scan(data0[0], 0, initial, final, 0);
    var data, j := data0, 0;
    ghost var ks: seq<nat>, c: nat := [], 0;
    LayoutStart(data0);
    BehindNothing(all, []);
    for i := 0 to |initial|
      invariant j == |ks| && c <= n0 && Layout(data, data0, ks, c)
      invariant i < |initial| ==> all == Behind(ks, Scan(pos, c, initial, final, i))
      invariant i == |initial| ==> c == n0 - 1 && all == Some(ks)
    {
      LayoutLook(data, data0, ks, c, n0);
      while j < |data[0]| && data[0][j] <= final[i]
        invariant j == |ks| && c <= n0 && Layout(data, data0, ks, c)
        invariant |data| > 0 && |data[0]| == j + n0 - c && (c < n0 ==> data[0][j] == pos[c])
        invariant all == Behind(ks, Scan(pos, c, initial, final, i))
        decreases n0 - c
      {
        ScanLooks(pos, c, initial, final, i, ks);
        LayoutDelete(data, data0, ks, c, n0);
        if data[0][j] <= initial[i] {
          data := DeleteColumn(data, j);
        } else {
          LayoutKeep(data, data0, ks, c, n0);
          ks := ks + [c];
          j := j + 1;
        }
        c := c + 1;
        LayoutLook(data, data0, ks, c, n0);
      }
      ScanEnds(pos, c, initial, final, i, ks);
      if j == |data[0]| {
        return None;
      }
      ScanLooks(pos, c, initial, final, i, ks);
      ScanEnds(pos, c, initial, final, i + 1, ks);
      if i == |initial| - 1 {
        data := DropRest(data, j, data0, ks, c, n0);
        c := n0 - 1;
      }
    }
    LayoutDelete(data, data0, ks, c, n0);
    data := DeleteColumn(data, j);
    LayoutDone(data, data0, ks, n0);
    return Some(data);
  }

  /** After the last region: everything but the last column goes. */
  method DropRest(data1: seq<Row>, j: nat, ghost data0: seq<Row>, ghost ks: seq<nat>, ghost c1: nat, ghost n0: nat)
    returns (data: seq<Row>)
    requires |data1| > 0 && Rectangular(data0, n0) && j == |ks| && c1 < n0 && Layout(data1, data0, ks, c1)
    ensures Layout(data, data0, ks, n0 - 1)
  {
    data := data1;
    ghost var c := c1;
    while j < |data[0]| - 1
      invariant c < n0 && Layout(data, data0, ks, c)
      decreases n0 - c
    {
      LayoutDelete(data, data0, ks, c, n0);
      data := DeleteColumn(data, j);
      c := c + 1;
    }
  }

  // ----- what is kept

  predicate Sorted(pos: Row) {
    forall i, j | 0 <= i < j < |pos| :: pos[i] <= pos[j]
  }

  /** Regions in order along the fibre, none before the one it follows. */
  predicate Ordered(initial: Row, final: Row) {
    && |initial| == |final|
    && (forall i | 0 <= i < |initial| :: initial[i] <= final[i])
    && (forall i, j | 0 <= i < j < |initial| :: final[i] <= initial[j])
  }

  predicate InRegion(x: real, initial: Row, final: Row, i: nat)
    requires i < |initial| == |final|
  {
    initial[i] < x <= final[i]
  }

  predicate InSomeRegion(x: real, initial: Row, final: Row, from: nat)
    requires |initial| == |final|
  {
    exists i :: from <= i < |initial| && InRegion(x, initial, final, i)
  }

  lemma InLaterRegion(x: real, initial: Row, final: Row, i: nat)
    requires i < |initial| == |final|
    ensures InSomeRegion(x, initial, final, i)
            <==> InRegion(x, initial, final, i) || InSomeRegion(x, initial, final, i + 1)
  {
  }

  lemma BeyondRegion(x: real, initial: Row, final: Row, i: nat)
    requires Ordered(initial, final) && i < |initial|
    ensures x > final[i] ==> (InSomeRegion(x, initial, final, i) <==> InSomeRegion(x, initial, final, i + 1))
    ensures x <= initial[i] ==> !InSomeRegion(x, initial, final, i)
    ensures initial[i] < x <= final[i] ==> InSomeRegion(x, initial, final, i)
  {
    InLaterRegion(x, initial, final, i);
  }

  /** Which scans run off the row: those with nothing beyond the last region. */
  lemma {:induction false} ScanSucceeds(pos: Row, c: nat, initial: Row, final: Row, i: nat)
    requires Sorted(pos) && Ordered(initial, final) && c <= |pos| && i < |initial|
    ensures Scan(pos, c, initial, final, i).Some? <==> c < |pos| && pos[|pos| - 1] > final[|final| - 1]
    decreases |pos| - c, |initial| - i
  {
    if c < |pos| {
      if pos[c] > final[i] {
        if i + 1 < |initial| {
          ScanSucceeds(pos, c, initial, final, i + 1);
        }
      } else {
        ScanSucceeds(pos, c + 1, initial, final, i);
      }
    }
  }

  /** Only columns in a region are kept, in order. */
  lemma {:induction false} ScanSound(pos: Row, c: nat, initial: Row, final: Row, i: nat)
    requires Ordered(initial, final) && c <= |pos| && i < |initial| && Scan(pos, c, initial, final, i).Some?
    ensures var ks := Scan(pos, c, initial, final, i).value;
            && Increasing(ks)
            && forall a | 0 <= a < |ks| :: c <= ks[a] < |pos| && InSomeRegion(pos[ks[a]], initial, final, i)
    decreases |pos| - c, |initial| - i
  {
    BeyondRegion(pos[c], initial, final, i);
    if pos[c] > final[i] {
      if i + 1 < |initial| {
        ScanSound(pos, c, initial, final, i + 1);
        hide InSomeRegion, Scan;
      }
    } else {
      ScanSound(pos, c + 1, initial, final, i);
      hide InSomeRegion;
    }
  }

  /** Every column in a region is kept. */
  lemma {:induction false} ScanComplete(pos: Row, c: nat, initial: Row, final: Row, i: nat, k: nat)
    requires Sorted(pos) && Ordered(initial, final) && i < |initial| && c <= |pos|
             && Scan(pos, c, initial, final, i).Some?
    requires c <= k < |pos| && InSomeRegion(pos[k], initial, final, i)
    ensures k in Scan(pos, c, initial, final, i).value
    decreases |pos| - c, |initial| - i
  {
    BeyondRegion(pos[k], initial, final, i);
    if pos[c] > final[i] {
      if i + 1 < |initial| {
        ScanComplete(pos, c, initial, final, i + 1, k);
      }
    } else {
      BeyondRegion(pos[c], initial, final, i);
      if k > c {
        ScanComplete(pos, c + 1, initial, final, i, k);
      }
    }
  }
}
