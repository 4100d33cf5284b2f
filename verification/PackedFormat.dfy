/** Packed messages: arrays of little-endian words by integer id, read by greedy cursor loops that
    give the whole message up when bytes are left over. */
module PackedFormat {
  import opened Bytes

  const SIZEOF_KEY := 4

  type Table = map<nat, seq<nat>>

  // ----- words

  function Words(bs: seq<byte>, size: nat, n: nat): (ws: seq<nat>)
    requires |bs| == n * size
    ensures |ws| == n
    decreases n
  {
    if n == 0 then [] else
    assert n * size == (n - 1) * size + size;
    [FromLittleEndian(bs[..size])] + Words(bs[size..], size, n - 1)
  }

  function Unwords(ws: seq<nat>, size: nat): (bs: seq<byte>)
    ensures |bs| == |ws| * size
  {
    if ws == [] then [] else ToLittleEndian(ws[0], size) + Unwords(ws[1..], size)
  }

  predicate Fits(ws: seq<nat>, size: nat) {
    forall i | 0 <= i < |ws| :: ws[i] < Pow256(size)
  }

  lemma {:induction false} WordsRoundTrip(ws: seq<nat>, size: nat)
    requires Fits(ws, size)
    ensures Words(Unwords(ws, size), size, |ws|) == ws
  {
    if ws != [] {
      WordsRoundTrip(ws[1..], size);
      LittleEndianRoundTrip(ws[0], size);
      assert Unwords(ws, size)[..size] == ToLittleEndian(ws[0], size);
      assert Unwords(ws, size)[size..] == Unwords(ws[1..], size);
    }
  }

  // ----- what one turn of the greedy loop consumes

  /** A key with a complete array, or the bytes skipped when no array can follow. */
  datatype Item = Values(key: nat, values: seq<nat>) | Skipped(bytes: seq<byte>)

  /** The number of values announced after the key, and where the array would begin. */
  function Announced(rest: seq<byte>, length: nat): (nat, nat)
    requires |rest| > SIZEOF_KEY
  {
    if length == 0 && |rest| - SIZEOF_KEY > SIZEOF_KEY
    then (FromLittleEndian(rest[SIZEOF_KEY..2 * SIZEOF_KEY]), 2 * SIZEOF_KEY)
    else (length, SIZEOF_KEY)
  }

  function Turn(rest: seq<byte>, length: nat, size: nat): (r: (Item, nat))
    requires |rest| > SIZEOF_KEY && size > 0
    ensures 0 < r.1 <= |rest|
  {
    var (n, start) := Announced(rest, length);
    if n > 0 && |rest| - start >= n * size then
      (Values(FromLittleEndian(rest[..SIZEOF_KEY]), Words(rest[start..start + n * size], size, n)), start + n * size)
    else (Skipped(rest[..start]), start)
  }

  /** All turns of the loop, and the bytes it leaves. */
  function Items(rest: seq<byte>, length: nat, size: nat): seq<Item>
    requires size > 0
    decreases |rest|
  {
    if |rest| <= SIZEOF_KEY then [] else
    var (item, used) := Turn(rest, length, size);
    [item] + Items(rest[used..], length, size)
  }

  function Left(rest: seq<byte>, length: nat, size: nat): seq<byte>
    requires size > 0
    decreases |rest|
  {
    if |rest| <= SIZEOF_KEY then rest else Left(rest[Turn(rest, length, size).1..], length, size)
  }

  /** Later arrays replace earlier ones under the same key. */
  function Collect(items: seq<Item>, table: Table): Table {
    if items == [] then table
    else Collect(items[1..], if items[0].Values? then table[items[0].key := items[0].values] else table)
  }

  function Parsed(data: seq<byte>, length: nat, size: nat): Table
    requires size > 0
  {
    if Left(data, length, size) == [] then Collect(Items(data, length, size), map[]) else map[]
  }

  // ----- the loops

  lemma TurnIs(rest: seq<byte>, length: nat, size: nat, n: nat, start: nat, taken: nat)
    requires |rest| > SIZEOF_KEY && size > 0 && Announced(rest, length) == (n, start) && taken == n * size
    ensures start <= |rest|
    ensures Turn(rest, length, size)
            == if n > 0 && |rest| - start >= taken
               then (Values(FromLittleEndian(rest[..SIZEOF_KEY]), Words(rest[start..start + taken], size, n)),
                     start + taken)
               else (Skipped(rest[..start]), start)
  {
    hide Words, FromLittleEndian;
  }

  /** The body of the greedy loop: reads a key, perhaps a length, and an array if it is all there. */
  method OneTurn(data: seq<byte>, from: nat, length: nat, size: nat) returns (item: Item, used: nat)
    requires from <= |data| && |data| - from > SIZEOF_KEY && size > 0
    ensures (item, used) == Turn(data[from..], length, size)
  {
    hide Words, FromLittleEndian, Turn;
    ghost var rest := data[from..];
    var itr := from;
    var key := FromLittleEndian(data[itr..itr + SIZEOF_KEY]);
    itr := itr + SIZEOF_KEY;
    var element_length := length;
    if element_length == 0 && |data| - itr > SIZEOF_KEY {
      element_length := FromLittleEndian(data[itr..itr + SIZEOF_KEY]);
      itr := itr + SIZEOF_KEY;
    }
    assert rest[..SIZEOF_KEY] == data[from..from + SIZEOF_KEY];
    assert |rest| >= 2 * SIZEOF_KEY
           ==> rest[SIZEOF_KEY..2 * SIZEOF_KEY] == data[from + SIZEOF_KEY..from + 2 * SIZEOF_KEY];
    assert Announced(rest, length) == (element_length, itr - from);
    var sizeof_array := element_length * size;
    TurnIs(rest, length, size, element_length, itr - from, sizeof_array);
    if element_length > 0 && |data| - itr >= sizeof_array {
      var value := Words(data[itr..itr + sizeof_array], size, element_length);
      assert rest[itr - from..itr - from + sizeof_array] == data[itr..itr + sizeof_array];
      itr := itr + sizeof_array;
      item := Values(key, value);
    } else {
      assert rest[..itr - from] == data[from..itr];
      item := Skipped(data[from..itr]);
    }
    used := itr - from;
  }

  /** The greedy loop: `length` is the fixed number of values, or 0 when each element announces it. */
  method IdToValueArray(data: seq<byte>, length: nat, size: nat) returns (result: Table)
    requires size > 0
    ensures result == Parsed(data, length, size)
  {
    result := map[];
    var itr := 0;
    while itr < |data| && |data| - itr > SIZEOF_KEY
      invariant 0 <= itr <= |data|
      invariant Collect(Items(data[itr..], length, size), result) == Collect(Items(data, length, size), map[])
      invariant Left(data[itr..], length, size) == Left(data, length, size)
      decreases |data| - itr
    {
      ghost var rest := data[itr..];
      var item, used := OneTurn(data, itr, length, size);
      itr := itr + used;
      if item.Values? {
        result := result[item.key := item.values];
      }
      assert data[itr..] == rest[used..];
    }
    if |data| != itr {
      result := map[];
    }
  }

  function ElementSize(length: nat, size: nat): (e: nat)
    ensures e >= SIZEOF_KEY
  {
    SIZEOF_KEY + length * size
  }

  /** One element: a key and `length` values. */
  function ElementAt(data: seq<byte>, from: nat, length: nat, size: nat): (nat, seq<nat>)
    requires from + ElementSize(length, size) <= |data|
  {
    (FromLittleEndian(data[from..from + SIZEOF_KEY]),
     Words(data[from + SIZEOF_KEY..from + ElementSize(length, size)], size, length))
  }

  /** How many whole elements a message has, and where they end. */
  function WholeElements(total: nat, e: nat): (k: nat)
    requires e > 0
    ensures k * e <= total < k * e + e
  {
    if total < e then 0 else
    var k := WholeElements(total - e, e);
    assert (k + 1) * e == k * e + e;
    k + 1
  }

  /** The table of the first `k` whole elements. */
  function Elements(data: seq<byte>, length: nat, size: nat, k: nat): Table
    requires k * ElementSize(length, size) <= |data|
  {
    if k == 0 then map[] else
    var e := ElementSize(length, size);
    assert k * e == (k - 1) * e + e;
    var (key, values) := ElementAt(data, (k - 1) * e, length, size);
    Elements(data, length, size, k - 1)[key := values]
  }

  /** What a fixed-length message means: whole elements only, and the last of each key counts. */
  function FixedTable(data: seq<byte>, length: nat, size: nat): Table {
    var e := ElementSize(length, size);
    var k := WholeElements(|data|, e);
    if k * e == |data| then Elements(data, length, size, k) else map[]
  }

  lemma WholeElementsUnique(total: nat, e: nat, k: nat)
    requires e > 0 && k * e <= total < k * e + e
    ensures WholeElements(total, e) == k
    decreases total
  {
    if total < e {
      assert k > 0 ==> k * e >= e;
    } else {
      assert k == 0 ==> k * e == 0;
      assert k * e == (k - 1) * e + e;
      WholeElementsUnique(total - e, e, k - 1);
    }
  }

  /** The whole-element loop. */
  method IdToShortArray(data: seq<byte>, length: nat, size: nat) returns (result: Table)
    ensures result == FixedTable(data, length, size)
  {
    hide Words, ElementAt;
    result := map[];
    var element_size := ElementSize(length, size);
    var position := 0;
    ghost var k := 0;
    while element_size <= |data| - position
      invariant 0 <= position == k * element_size <= |data|
      invariant result == Elements(data, length, size, k)
      decreases |data| - position
    {
      var (key, value) := ElementAt(data, position, length, size);
      result := result[key := value];
      position := position + element_size;
      k := k + 1;
      assert k * element_size == (k - 1) * element_size + element_size;
    }
    WholeElementsUnique(|data|, element_size, k);
    if position < |data| {
      result := map[];
    }
  }
}
