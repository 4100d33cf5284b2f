/** The bounded queue between a communication thread and a polling client. */
module Buffering {

  /** One formatted batch of samples, by node id. */
  type Batch = map<nat, seq<int>>

  /** What a node of the manager is found by. */
  datatype Key = Key(address: string, port: nat, initialize: string)

  /** The queue after a publish: everything, or the newest `max` when a positive maximum is exceeded. */
  function Kept(list: seq<Batch>, max: nat, data: Batch): (r: seq<Batch>)
    ensures max > 0 ==> |r| <= max
    ensures r != [] && r[|r| - 1] == data
  {
    var all := list + [data];
    if max == 0 || |all| <= max then all else all[|all| - max..]
  }

  /** A publish is refused when it overflows a queue of two or more. */
  predicate Accepts(list: seq<Batch>, max: nat) {
    max <= 1 || |list| < max
  }

  /** The number of old batches a publish throws away. */
  function Discarded(list: seq<Batch>, max: nat): nat {
    if max == 0 || |list| < max then 0 else |list| + 1 - max
  }

  /** Where an accepted publish may lose data: only with a maximum of one, and then exactly when
      something is still queued. */
  lemma AcceptedDiscards(list: seq<Batch>, max: nat, data: Batch)
    requires Accepts(list, max)
    ensures Discarded(list, max) == 0 <==> Kept(list, max, data) == list + [data]
    ensures Discarded(list, max) > 0 <==> max == 1 && list != []
    ensures max == 1 ==> Kept(list, max, data) == [data]
    ensures |Kept(list, max, data)| + Discarded(list, max) == |list| + 1
  {
  }

  /** What is queued after a publish, refused or not: the newest batches, in order, and as many of them as
      the maximum allows. */
  lemma KeptNewest(list: seq<Batch>, max: nat, data: Batch)
    ensures var r, all := Kept(list, max, data), list + [data];
            && |r| == (if max == 0 || |list| < max then |list| + 1 else max)
            && r == all[|all| - |r|..]
  {
  }

  /** Can a client take the front?  An empty batch at the front blocks the queue. */
  predicate Available(list: seq<Batch>) {
    list != [] && list[0] != map[]
  }

  /** The elements of a sequence that are in a set, in order. */
  function Filter<T(==)>(xs: seq<T>, keep: set<T>): (r: seq<T>)
    ensures |r| <= |xs|
  {
    if xs == [] then [] else (if xs[0] in keep then [xs[0]] else []) + Filter(xs[1..], keep)
  }

  lemma {:induction false} FilterMember<T>(xs: seq<T>, keep: set<T>, x: T)
    ensures x in Filter(xs, keep) <==> x in xs && x in keep
  {
    if xs != [] {
      FilterMember(xs[1..], keep, x);
    }
  }

  lemma {:induction false} FilterConcat<T>(xs: seq<T>, ys: seq<T>, keep: set<T>)
    ensures Filter(xs + ys, keep) == Filter(xs, keep) + Filter(ys, keep)
  {
    if xs == [] {
      assert xs + ys == ys;
    } else {
      assert (xs + ys)[1..] == xs[1..] + ys;
      FilterConcat(xs[1..], ys, keep);
      var first := if xs[0] in keep then [xs[0]] else [];
      assert Filter(xs + ys, keep) == first + (Filter(xs[1..], keep) + Filter(ys, keep));
      assert Filter(xs, keep) == first + Filter(xs[1..], keep);
    }
  }

  lemma FilterAppend<T>(xs: seq<T>, y: T, keep: set<T>)
    ensures Filter(xs + [y], keep) == Filter(xs, keep) + (if y in keep then [y] else [])
  {
    assert [y][1..] == [];
    assert Filter([y], keep) == if y in keep then [y] else [];
    hide Filter;
    FilterConcat(xs, [y], keep);
  }

  lemma {:induction false} FilterAll<T>(xs: seq<T>, keep: set<T>)
    requires forall x <- xs :: x in keep
    ensures Filter(xs, keep) == xs
  {
    if xs != [] {
      FilterAll(xs[1..], keep);
    }
  }

  lemma FilterDropOne<T>(xs: seq<T>, i: nat, keep: set<T>)
    requires i < |xs| && xs[i] !in keep
    requires forall j | 0 <= j < |xs| && j != i :: xs[j] in keep
    ensures xs[..i] + xs[i + 1..] == Filter(xs, keep)
  {
    var before, after := xs[..i], xs[i + 1..];
    assert xs == (before + [xs[i]]) + after;
    FilterConcat(before + [xs[i]], after, keep);
    FilterAppend(before, xs[i], keep);
    FilterAll(before, keep);
    FilterAll(after, keep);
  }

}

/** The shared part of a sampler object and the operations on it. */
module SamplerSide {
  import opened Buffering

  class Sampler {
    const m_address: string
    const m_port: nat
    const m_initialize: string
    var m_sampler_id: nat
    var m_list_max: nat
    var m_list: seq<Batch>

    constructor (address: string, port: nat, initialize: string)
      ensures m_address == address && m_port == port && m_initialize == initialize
      ensures m_sampler_id == 0 && m_list_max == 0 && m_list == []
    {
      m_address, m_port, m_initialize := address, port, initialize;
      m_sampler_id, m_list_max, m_list := 0, 0, [];
    }

    method SetData(data: Batch) returns (result: bool)
      modifies this`m_list
      ensures result <==> m_list_max <= 1 || |old(m_list)| < m_list_max
      ensures |m_list| == if m_list_max == 0 || |old(m_list)| < m_list_max then |old(m_list)| + 1 else m_list_max
      ensures m_list == (old(m_list) + [data])[|old(m_list)| + 1 - |m_list|..]
      ensures result == Accepts(old(m_list), m_list_max) && m_list == Kept(old(m_list), m_list_max, data)
    {
      m_list := m_list + [data];
      result := true;
      if m_list_max > 0 {
        ghost var all := m_list;
        while |m_list| > m_list_max
          invariant |m_list| <= |all| && m_list == all[|all| - |m_list|..]
          invariant |all| <= m_list_max ==> m_list == all
          invariant |all| > m_list_max ==> m_list_max <= |m_list|
          invariant result == (m_list_max <= 1 || m_list == all)
          decreases |m_list|
        {
          m_list := m_list[1..];
          if m_list_max > 1 {
            result := false;
          }
        }
      }
    }

    method GetData() returns (data: Batch, result: bool)
      modifies this`m_list
      ensures result <==> old(m_list) != [] && old(m_list)[0] != map[]
      ensures result == Available(old(m_list))
      ensures result ==> old(m_list) == [data] + m_list
      ensures !result ==> data == map[] && m_list == old(m_list)
    {
      data, result := map[], false;
      if m_list != [] && m_list[0] != map[] {
        data := m_list[0];
        m_list := m_list[1..];
        result := true;
      }
    }

    method SetListMaximum(value: nat) returns (result: bool)
      modifies this`m_list_max
      ensures result && m_list_max == value
    {
      m_list_max := value;
      result := true;
    }
  }
}
