/** What the packed-message loops mean: two loops with one meaning for fixed lengths, and the exact
    language of the loop that reads lengths from the message. */
module PackedTheorems {
  import opened Bytes
  import opened PackedFormat

  // ----- fixed length

  /** Too few bytes for an element: keys are skipped four bytes at a time, and something is always left. */
  lemma {:induction false} ShortTail(rest: seq<byte>, length: nat, size: nat, table: Table)
    requires length > 0 && size > 0 && |rest| < ElementSize(length, size)
    ensures Left(rest, length, size) == [] <==> rest == []
    ensures Collect(Items(rest, length, size), table) == table
    decreases |rest|
  {
    if |rest| > SIZEOF_KEY {
      ShortTail(rest[SIZEOF_KEY..], length, size, table);
    }
  }

  lemma WholeTurn(data: seq<byte>, from: nat, length: nat, size: nat)
    requires length > 0 && size > 0 && from + ElementSize(length, size) <= |data|
    ensures var (key, values) := ElementAt(data, from, length, size);
            Turn(data[from..], length, size) == (Values(key, values), ElementSize(length, size))
    ensures |data[from..]| > SIZEOF_KEY
  {
    var rest := data[from..];
    var e := ElementSize(length, size);
    assert length * size >= 1;
    assert rest[..SIZEOF_KEY] == data[from..from + SIZEOF_KEY];
    assert rest[SIZEOF_KEY..SIZEOF_KEY + length * size] == data[from + SIZEOF_KEY..from + e];
  }

  /** What the greedy loop still makes of a rest: the bytes it will leave and the table it will hold. */
  function Ahead(rest: seq<byte>, length: nat, size: nat, table: Table): (seq<byte>, Table)
    requires size > 0
  {
    (Left(rest, length, size), Collect(Items(rest, length, size), table))
  }

  lemma GreedyStep(data: seq<byte>, at: nat, next: nat, length: nat, size: nat, table: Table)
    requires length > 0 && size > 0 && next == at + ElementSize(length, size) <= |data|
    ensures var (key, values) := ElementAt(data, at, length, size);
            Ahead(data[at..], length, size, table) == Ahead(data[next..], length, size, table[key := values])
  {
    WholeTurn(data, at, length, size);
    assert data[at..][ElementSize(length, size)..] == data[next..];
  }

  lemma GreedyMeetsElements(data: seq<byte>, length: nat, size: nat, k: nat, before: nat, at: nat)
    requires length > 0 && size > 0 && k > 0 && at == k * ElementSize(length, size) <= |data|
    requires before == (k - 1) * ElementSize(length, size) && at == before + ElementSize(length, size)
    ensures Ahead(data[at..], length, size, Elements(data, length, size, k))
            == Ahead(data[before..], length, size, Elements(data, length, size, k - 1))
  {
    ElementsGrow(data, length, size, k, before);
    hide *;
    GreedyStep(data, before, at, length, size, Elements(data, length, size, k - 1));
  }

  /** After `k` elements the greedy loop stands where the whole-element loop stands. */
  lemma {:induction false} GreedyTakesElements(data: seq<byte>, length: nat, size: nat, k: nat, at: nat)
    requires length > 0 && size > 0 && at == k * ElementSize(length, size) <= |data|
    ensures Ahead(data[at..], length, size, Elements(data, length, size, k)) == Ahead(data, length, size, map[])
    decreases k
  {
    if k == 0 {
      hide Ahead, Items, Left, Collect, ElementAt, ElementSize;
      assert at == 0;
      assert data[0..] == data;
    } else {
      hide *;
      var before := at - ElementSize(length, size);
      GreedyTakesElements(data, length, size, k - 1, before);
      GreedyMeetsElements(data, length, size, k, before, at);
    }
  }

  lemma ElementsGrow(data: seq<byte>, length: nat, size: nat, k: nat, before: nat)
    requires k > 0 && k * ElementSize(length, size) <= |data| && before == (k - 1) * ElementSize(length, size)
    requires before + ElementSize(length, size) <= |data|
    ensures var (key, values) := ElementAt(data, before, length, size);
            Elements(data, length, size, k) == Elements(data, length, size, k - 1)[key := values]
  {
  }

  /** Two loops, one meaning: for a fixed positive length the greedy key-skipping loop and the
      whole-element loop give the same table on every buffer. */
  lemma TwoLoopsOneMeaning(data: seq<byte>, length: nat, size: nat)
    requires length > 0 && size > 0
    ensures Parsed(data, length, size) == FixedTable(data, length, size)
  {
    var e := ElementSize(length, size);
    var k := WholeElements(|data|, e);
    GreedyTakesElements(data, length, size, k, k * e);
    ShortTail(data[k * e..], length, size, Elements(data, length, size, k));
  }

  /** A fixed-length buffer is accepted exactly when its size is a multiple of the element size. */
  lemma FixedAcceptance(data: seq<byte>, length: nat, size: nat)
    requires length > 0 && size > 0
    ensures Left(data, length, size) == [] <==> |data| % (4 + length * size) == 0
    ensures var k := |data| / (4 + length * size);
            && k * ElementSize(length, size) <= |data|
            && FixedTable(data, length, size) == if |data| % (4 + length * size) == 0
                                                 then Elements(data, length, size, k) else map[]
  {
    var e := ElementSize(length, size);
    var k := WholeElements(|data|, e);
    GreedyTakesElements(data, length, size, k, k * e);
    ShortTail(data[k * e..], length, size, map[]);
    WholeIsMultiple(|data|, e);
  }

  lemma WholeIsMultiple(total: nat, e: nat)
    requires e > 0
    ensures WholeElements(total, e) * e == total <==> total % e == 0
    ensures WholeElements(total, e) == total / e
  {
    var k := total / e;
    assert total == k * e + total % e;
    WholeElementsUnique(total, e, k);
  }

  lemma {:induction false} WordAt(bs: seq<byte>, size: nat, n: nat, i: nat)
    requires |bs| == n * size && i < n
    ensures 0 <= i * size <= i * size + size <= |bs|
    ensures Words(bs, size, n)[i] == Weighted(bs[i * size..i * size + size], size)
    decreases n
  {
    assert n * size == (n - 1) * size + size;
    if i == 0 {
      LittleEndianIsWeighted(bs[..size]);
      assert i * size == 0;
      assert bs[0..size] == bs[..size];
    } else {
      WordAt(bs[size..], size, n - 1, i - 1);
      assert i * size == (i - 1) * size + size;
      assert bs[size..][(i - 1) * size..(i - 1) * size + size] == bs[i * size..i * size + size];
    }
  }

  lemma SlicedTwice(data: seq<byte>, from: nat, to: nat, at: nat, size: nat)
    requires from <= to <= |data| && at + size <= to - from
    ensures data[from..to][at..at + size] == data[from + at..from + at + size]
  {
    var xs, ys := data[from..to][at..at + size], data[from + at..from + at + size];
    forall k | 0 <= k < size ensures xs[k] == ys[k] {
      assert data[from..to][at + k] == data[from + at + k];
    }
  }

  /** One element by its own bytes: four for the key and `size` for each value, the least significant first. */
  lemma ElementBytes(data: seq<byte>, from: nat, length: nat, size: nat, i: nat)
    requires from + ElementSize(length, size) <= |data| && i < length
    ensures ElementSize(length, size) == 4 + length * size
    ensures var (key, values) := ElementAt(data, from, length, size);
            && key == data[from] as int + 0x100 * data[from + 1] as int + 0x1_0000 * data[from + 2] as int
                      + 0x100_0000 * data[from + 3] as int
            && |values| == length
            && var at := from + 4 + i * size;
            && 0 <= at <= at + size <= |data| && values[i] == Weighted(data[at..at + size], size)
  {
    hide FromLittleEndian, Words, Weighted;
    var body := data[from + 4..from + 4 + length * size];
    FourLittleBytes(data[from..from + 4]);
    WordAt(body, size, length, i);
    SlicedTwice(data, from + 4, from + 4 + length * size, i * size, size);
  }

  /** Last wins: a key has the values of the last element that bears it, and no other key is there. */
  lemma {:induction false} LastWins(data: seq<byte>, length: nat, size: nat, k: nat, key: nat)
    requires k * ElementSize(length, size) <= |data|
    ensures key in Elements(data, length, size, k) <==> Bears(data, length, size, k, key) >= 0
    ensures var last := Bears(data, length, size, k, key);
            last >= 0 ==>
              && last < k && last * ElementSize(length, size) + ElementSize(length, size) <= |data|
              && ElementAt(data, last * ElementSize(length, size), length, size).0 == key
              && Elements(data, length, size, k)[key]
                 == ElementAt(data, last * ElementSize(length, size), length, size).1
              && forall j | last < j < k :: !BearsAt(data, length, size, j, key)
    ensures Bears(data, length, size, k, key) < 0 ==> forall j | 0 <= j < k :: !BearsAt(data, length, size, j, key)
  {
    hide Words;
    if k > 0 {
      var e := ElementSize(length, size);
      assert k * e == (k - 1) * e + e;
      LastWins(data, length, size, k - 1, key);
    }
  }

  predicate BearsAt(data: seq<byte>, length: nat, size: nat, j: nat, key: nat) {
    var e := ElementSize(length, size);
    j * e + e <= |data| && ElementAt(data, j * e, length, size).0 == key
  }

  /** The index of the last of `k` elements with this key, or -1. */
  function Bears(data: seq<byte>, length: nat, size: nat, k: nat, key: nat): int {
    if k == 0 then -1 else if BearsAt(data, length, size, k - 1, key) then k - 1
    else Bears(data, length, size, k - 1, key)
  }

  // ----- announced lengths

  /** What a sender may put into a message whose elements announce their lengths: complete arrays, and
      headers that announce nothing or more than what follows. */
  datatype Piece = Array(key: nat, values: seq<nat>) | Header(key: nat, announced: nat)

  function EncodePiece(p: Piece, size: nat): (bs: seq<byte>) {
    match p
    case Array(key, values) => ToLittleEndian(key, 4) + ToLittleEndian(|values|, 4) + Unwords(values, size)
    case Header(key, announced) => ToLittleEndian(key, 4) + ToLittleEndian(announced, 4)
  }

  function EncodePieces(ps: seq<Piece>, size: nat): (bs: seq<byte>) {
    if ps == [] then [] else EncodePiece(ps[0], size) + EncodePieces(ps[1..], size)
  }

  predicate ValidPiece(p: Piece, after: nat, size: nat) {
    && p.key < Pow256(4)
    && match p
       case Array(_, values) => 0 < |values| < Pow256(4) && Fits(values, size)
       case Header(_, announced) => announced < Pow256(4) && (announced == 0 || announced * size > after)
  }

  predicate ValidPieces(ps: seq<Piece>, size: nat) {
    ps == [] || (ValidPiece(ps[0], |EncodePieces(ps[1..], size)|, size) && ValidPieces(ps[1..], size))
  }

  /** A message is complete when it is empty or ends with an array. */
  predicate EndsWithArray(ps: seq<Piece>) {
    ps == [] || ps[|ps| - 1].Array?
  }

  /** The arrays of a message, the later ones replacing the earlier. */
  function TableOf(ps: seq<Piece>, table: Table): Table {
    if ps == [] then table
    else TableOf(ps[1..], if ps[0].Array? then table[ps[0].key := ps[0].values] else table)
  }

  lemma TurnReadsPiece(p: Piece, after: seq<byte>, size: nat)
    requires size > 0 && ValidPiece(p, |after|, size) && (p.Header? ==> after != [])
    ensures var data := EncodePiece(p, size) + after;
            && |data| > SIZEOF_KEY
            && Turn(data, 0, size)
               == (if p.Array? then Values(p.key, p.values) else Skipped(EncodePiece(p, size)), |EncodePiece(p, size)|)
  {
    var n := if p.Array? then |p.values| else p.announced;
    var data := EncodePiece(p, size) + after;
    LittleEndianRoundTrip(p.key, 4);
    LittleEndianRoundTrip(n, 4);
    assert data[..4] == ToLittleEndian(p.key, 4);
    assert data[4..8] == ToLittleEndian(n, 4);
    if p.Array? {
      assert n * size >= 1;
      assert data[8..8 + n * size] == Unwords(p.values, size);
      WordsRoundTrip(p.values, size);
    } else {
      assert data[..8] == EncodePiece(p, size);
    }
  }

  /** Every message made of valid pieces and ending with an array is accepted, and means its arrays. */
  lemma {:induction false} PiecesAreAccepted(ps: seq<Piece>, size: nat, table: Table)
    requires size > 0 && ValidPieces(ps, size) && EndsWithArray(ps)
    ensures var data := EncodePieces(ps, size);
            && Left(data, 0, size) == []
            && Collect(Items(data, 0, size), table) == TableOf(ps, table)
  {
    if ps != [] {
      var after := EncodePieces(ps[1..], size);
      var data := EncodePieces(ps, size);
      assert ps[0].Header? ==> |ps| > 1;
      assert |ps| > 1 ==> after != [] by {
        if |ps| > 1 {
          assert after == EncodePiece(ps[1], size) + EncodePieces(ps[1..][1..], size);
        }
      }
      TurnReadsPiece(ps[0], after, size);
      assert data[|EncodePiece(ps[0], size)|..] == after;
      PiecesAreAccepted(ps[1..], size, if ps[0].Array? then table[ps[0].key := ps[0].values] else table);
    }
  }

  lemma {:induction false} UnwordsOfWords(bs: seq<byte>, size: nat, n: nat)
    requires |bs| == n * size
    ensures Unwords(Words(bs, size, n), size) == bs
    ensures Fits(Words(bs, size, n), size)
    decreases n
  {
    if n == 0 {
      assert bs == [];
    } else {
      assert n * size == (n - 1) * size + size;
      UnwordsOfWords(bs[size..], size, n - 1);
      LittleEndianOfBytes(bs[..size]);
      assert bs == bs[..size] + bs[size..];
    }
  }

  /** One turn of the loop over an accepted message reads one valid piece. */
  lemma TurnIsPiece(data: seq<byte>, size: nat) returns (p: Piece)
    requires size > 0 && |data| > SIZEOF_KEY && Left(data, 0, size) == []
    ensures var used := Turn(data, 0, size).1;
            && EncodePiece(p, size) == data[..used]
            && ValidPiece(p, |data| - used, size)
            && (p.Header? ==> data[used..] != [])
  {
    var n := FromLittleEndian(data[4..8]);
    hide FromLittleEndian, ToLittleEndian, Words, Pow256, Unwords, Fits;
    if n > 0 && |data| - 8 >= n * size {
      p := ArrayPiece(data, size, n);
    } else {
      p := HeaderPiece(data, size, n);
    }
  }

  lemma ArrayPiece(data: seq<byte>, size: nat, n: nat) returns (p: Piece)
    requires size > 0 && n > 0 && |data| >= 8 + n * size && n == FromLittleEndian(data[4..8])
    ensures p.Array? && EncodePiece(p, size) == data[..8 + n * size] && forall after :: ValidPiece(p, after, size)
  {
    LittleEndianOfBytes(data[..4]);
    LittleEndianOfBytes(data[4..8]);
    var body := data[8..8 + n * size];
    UnwordsOfWords(body, size, n);
    hide FromLittleEndian, ToLittleEndian, Words, Pow256, Unwords, Fits;
    p := Array(FromLittleEndian(data[..4]), Words(body, size, n));
    assert data[..8 + n * size] == data[..4] + data[4..8] + body;
  }

  lemma HeaderPiece(data: seq<byte>, size: nat, n: nat) returns (p: Piece)
    requires |data| >= 8 && n == FromLittleEndian(data[4..8]) && (n == 0 || n * size > |data| - 8)
    ensures p.Header? && EncodePiece(p, size) == data[..8] && ValidPiece(p, |data| - 8, size)
  {
    LittleEndianOfBytes(data[..4]);
    LittleEndianOfBytes(data[4..8]);
    hide FromLittleEndian, ToLittleEndian, Pow256;
    p := Header(FromLittleEndian(data[..4]), n);
    assert data[..8] == data[..4] + data[4..8];
  }

  /** An accepted message begins with a valid piece, and the rest is accepted. */
  lemma FirstPiece(data: seq<byte>, size: nat) returns (p: Piece, rest: seq<byte>)
    requires size > 0 && |data| > SIZEOF_KEY && Left(data, 0, size) == []
    ensures data == EncodePiece(p, size) + rest && ValidPiece(p, |rest|, size) && Left(rest, 0, size) == []
    ensures |rest| < |data| && (p.Header? ==> rest != [])
  {
    p := TurnIsPiece(data, size);
    var used := Turn(data, 0, size).1;
    rest := data[used..];
    hide Turn, EncodePiece, ValidPiece, Left;
    assert data == data[..used] + data[used..];
  }

  /** Every accepted message is made of valid pieces and, if not empty, ends with an array. */
  lemma {:induction false} AcceptedArePieces(data: seq<byte>, size: nat) returns (ps: seq<Piece>)
    requires size > 0 && Left(data, 0, size) == []
    ensures EncodePieces(ps, size) == data && ValidPieces(ps, size) && EndsWithArray(ps)
    decreases |data|
  {
    if |data| <= SIZEOF_KEY {
      ps := [];
    } else {
      hide *;
      var p, rest := FirstPiece(data, size);
      var later := AcceptedArePieces(rest, size);
      ps := [p] + later;
    }
  }

  /** The language of the loop that reads lengths: a message is accepted exactly when it is a sequence
      of valid pieces that is empty or ends with a complete array at the last byte, and it then means
      its arrays. */
  lemma VariableAcceptance(data: seq<byte>, size: nat)
    requires size > 0
    ensures Left(data, 0, size) == [] <==>
              exists ps :: ValidPieces(ps, size) && EndsWithArray(ps) && EncodePieces(ps, size) == data
    ensures forall ps | ValidPieces(ps, size) && EndsWithArray(ps) && EncodePieces(ps, size) == data ::
              Parsed(data, 0, size) == TableOf(ps, map[])
    ensures Left(data, 0, size) != [] ==> Parsed(data, 0, size) == map[]
  {
    if Left(data, 0, size) == [] {
      var ps := AcceptedArePieces(data, size);
    }
    forall ps | ValidPieces(ps, size) && EndsWithArray(ps) && EncodePieces(ps, size) == data
      ensures Left(data, 0, size) == [] && Parsed(data, 0, size) == TableOf(ps, map[])
    {
      PiecesAreAccepted(ps, size, map[]);
    }
  }

  predicate ArraysOnly(ps: seq<Piece>, size: nat) {
    forall i | 0 <= i < |ps| :: ps[i].Array? && ValidPiece(ps[i], 0, size)
  }

  predicate DistinctKeys(ps: seq<Piece>) {
    forall i, j | 0 <= i < j < |ps| :: ps[i].key != ps[j].key
  }

  lemma {:induction false} ArraysAreValid(ps: seq<Piece>, size: nat)
    requires ArraysOnly(ps, size)
    ensures ValidPieces(ps, size) && EndsWithArray(ps)
  {
    if ps != [] {
      ArraysAreValid(ps[1..], size);
    }
  }

  lemma {:induction false} TableOfDistinct(ps: seq<Piece>, size: nat, table: Table)
    requires ArraysOnly(ps, size) && DistinctKeys(ps)
    ensures var t := TableOf(ps, table);
            && (forall i | 0 <= i < |ps| :: ps[i].key in t && t[ps[i].key] == ps[i].values)
            && (forall k | k !in Keys(ps) :: (k in t <==> k in table) && (k in table ==> t[k] == table[k]))
  {
    if ps != [] {
      var rest := ps[1..];
      TableOfDistinct(rest, size, table[ps[0].key := ps[0].values]);
      assert ps[0].key !in Keys(rest);
      assert Keys(ps) == {ps[0].key} + Keys(rest) by {
        assert forall i | 0 <= i < |rest| :: rest[i] == ps[i + 1];
      }
      forall i | 0 <= i < |ps|
        ensures ps[i].key in TableOf(ps, table) && TableOf(ps, table)[ps[i].key] == ps[i].values
      {
        if i > 0 {
          assert ps[i] == rest[i - 1];
        }
      }
    }
  }

  function Keys(ps: seq<Piece>): set<nat> {
    set i | 0 <= i < |ps| :: ps[i].key
  }

  /** Round trip: any arrays under distinct ids, none empty, come back exactly. */
  lemma VariableRoundTrip(ps: seq<Piece>, size: nat)
    requires size > 0 && ArraysOnly(ps, size) && DistinctKeys(ps)
    ensures var t := Parsed(EncodePieces(ps, size), 0, size);
            && t.Keys == Keys(ps)
            && forall i | 0 <= i < |ps| :: t[ps[i].key] == ps[i].values
  {
    ArraysAreValid(ps, size);
    PiecesAreAccepted(ps, size, map[]);
    TableOfDistinct(ps, size, map[]);
  }
}
